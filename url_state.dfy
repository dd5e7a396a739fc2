/**
 * The planner's state kept in the fragment of the page URL: the state's
 * JSON text, base 64 encoded with `btoa`, read back with `atob` and
 * `JSON.parse`.
 */
module UrlState {
  import opened Wrappers
  import Base64

  /**
   * JSON for values of type `S`, taken as given: `stringify` is
   * `JSON.stringify`, `parse` is `JSON.parse`, with `None` where it throws.
   */
  datatype Json<!S> = Json(stringify: S -> string, parse: string -> Option<S>)

  /** What the lemmas assume of JSON: a stringified state parses back, and `JSON.parse('')` throws. */
  predicate RoundTrips<S(==)>(json: Json<S>, state: S) {
    json.parse(json.stringify(state)) == Some(state) && json.parse("").None?
  }

  /** `encodeStateToBase64`; `None` where `btoa` throws, on a character above U+00FF. */
  function EncodeStateToBase64<S>(json: Json<S>, state: S): (r: Option<string>)
    ensures r.Some? <==> Base64.Latin1(json.stringify(state))
    ensures r.Some? ==> Base64.Atob(r.value) == Some(json.stringify(state))
  {
    var text := json.stringify(state);
    if Base64.Latin1(text) then
      Base64.AtobBtoa(text);
      Some(Base64.Btoa(text))
    else None
  }

  /** `decodeBase64ToState`: `None` (the source's `null`) when `atob` or `JSON.parse` throws. */
  function DecodeBase64ToState<S>(json: Json<S>, encoded: string): (r: Option<S>)
    ensures Base64.Atob(encoded) == None ==> r == None
    ensures Base64.Atob(encoded).Some? ==> r == json.parse(Base64.Atob(encoded).value)
  {
    match Base64.Atob(encoded)
    case None => None
    case Some(text) => json.parse(text)
  }

  /** Decoding what was encoded gives the state back. */
  lemma DecodeEncodeState<S>(json: Json<S>, state: S)
    requires RoundTrips(json, state)
    requires Base64.Latin1(json.stringify(state))
    ensures EncodeStateToBase64(json, state).Some?
    ensures EncodeStateToBase64(json, state).value != ""
    ensures DecodeBase64ToState(json, EncodeStateToBase64(json, state).value) == Some(state)
  {
    var text := json.stringify(state);
    assert text != "";
    Base64.AtobBtoa(text);
    assert Base64.Atob("") == Some("") by {
      assert Base64.Decode("") == Some([]);
    }
  }

  /**
   * The page location, standing for `window.location` and the history
   * entry: the path, the query and the fragment, each without its `?` or
   * `#` (empty when there is none).
   */
  class Location {
    var path: string
    var query: string
    var fragment: string

    constructor(path: string, query: string, fragment: string)
      ensures this.path == path && this.query == query && this.fragment == fragment
    {
      this.path := path;
      this.query := query;
      this.fragment := fragment;
    }

    /** `location.hash`: empty, or `#` followed by a non-empty fragment. */
    function Hash(): (h: string)
      reads this
      ensures h == "" <==> fragment == ""
      ensures h != "" ==> h[0] == '#' && h[1..] == fragment
    {
      if fragment == "" then "" else "#" + fragment
    }

    /**
     * `updateUrlWithState`: the fragment becomes the encoded state; path and
     * query stay. Base 64 text needs no percent-encoding in a fragment. When `btoa` throws, nothing changes and `ok`
     * is false.
     */
    method UpdateUrlWithState<S>(json: Json<S>, state: S) returns (ok: bool)
      modifies this
      ensures ok <==> EncodeStateToBase64(json, state).Some?
      ensures path == old(path) && query == old(query)
      ensures ok ==> fragment == EncodeStateToBase64(json, state).value
      ensures !ok ==> fragment == old(fragment)
    {
      var encoded := EncodeStateToBase64(json, state);
      if encoded.None? {
        return false;
      }
      fragment := encoded.value;
      ok := true;
    }

    /** `getStateFromUrl`: `None` without a fragment, else the decoded fragment. */
    method GetStateFromUrl<S>(json: Json<S>) returns (r: Option<S>)
      ensures fragment == "" ==> r == None
      ensures fragment != "" ==> r == DecodeBase64ToState(json, fragment)
    {
      var h := Hash();
      var hash := if |h| >= 1 then h[1..] else "";
      if hash == "" {
        return None;
      }
      r := DecodeBase64ToState(json, hash);
    }

    /** Writing a state into the URL and reading it back gives the state, with path and query untouched. */
    method WriteThenRead<S(==)>(json: Json<S>, state: S) returns (r: Option<S>)
      modifies this
      requires RoundTrips(json, state) && Base64.Latin1(json.stringify(state))
      ensures r == Some(state)
      ensures path == old(path) && query == old(query)
    {
      DecodeEncodeState(json, state);
      var ok := UpdateUrlWithState(json, state);
      r := GetStateFromUrl(json);
    }
  }
}
