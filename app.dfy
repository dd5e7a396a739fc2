/**
 * The planner's top-level state (src/App.tsx): the stored item buckets, the
 * draft texts of the add inputs, the derived days of the displayed week and
 * the page location that the state is saved into.
 */
module App {
  import opened Wrappers
  import opened Text
  import opened CivilDate
  import opened DateUtils
  import opened Types
  import opened Seqs
  import UrlState

  /** What is written to the URL fragment. */
  datatype PlannerState = PlannerState(
    weekOffset: int,
    showWeekends: bool,
    items: map<string, seq<Item>>,
    newItems: map<string, string>)

  /**
   * `getWeekOffset`: the `weekOffset` query parameter as a number, 0 when
   * it is absent (`Number(null)` is 0) or not a number.
   */
  function GetWeekOffset(param: Option<string>): (r: int)
    ensures param.None? ==> r == 0
    ensures param.Some? && IntegerNumber(param.value).None? ==> r == 0
    ensures param.Some? && IntegerNumber(param.value).Some? ==> r == IntegerNumber(param.value).value
    ensures param.Some? && AllWhitespace(param.value) ==> r == 0
  {
    match param
    case None => 0
    case Some(s) =>
      match IntegerNumber(s)
      case None => 0
      case Some(v) => v
  }

  /** An offset written as decimal digits, with or without a minus sign, is read back. */
  lemma WeekOffsetOfDigits(s: string)
    requires s != [] && AllDigits(s)
    ensures GetWeekOffset(Some(s)) == DigitsValue(s)
    ensures GetWeekOffset(Some("-" + s)) == -(DigitsValue(s) as int)
  {
    IntegerNumberOfDigits(s);
    IntegerNumberOfNegatedDigits(s);
  }

  /** A parameter holding a character other than digits, signs and white space gives offset 0. */
  lemma WeekOffsetOfNonNumeric(s: string, i: int)
    requires 0 <= i < |s| && !IsDigit(s[i]) && !IsJsWhitespace(s[i]) && s[i] != '-' && s[i] != '+'
    ensures GetWeekOffset(Some(s)) == 0
  {
    IntegerNumberRejects(s, i);
  }

  /** The number of rounds of the derivation loop. */
  const WeekLength: int := 7

  /** The time value of day `i` of the week that starts at `monday`. */
  function DayTime(monday: int, i: int): int {
    monday + i * MsPerDay
  }

  /** All seven days of the week starting at `monday` are valid time values. */
  predicate WeekValid(monday: int) {
    ValidTime(monday) && ValidTime(monday + 6 * MsPerDay)
  }

  /** Whether the derivation keeps the day at time `t`: always, or only Monday to Friday. */
  predicate Shown(showWeekends: bool, t: int) {
    var w := DayOfWeek(DayOf(t));
    showWeekends || (w != 0 && w != 6)
  }

  /** The entry the derivation pushes for the day at time `t`. */
  function DayEntry(t: int, items: map<string, seq<Item>>, todayISO: string, dayName: int -> string): DayData
    requires ValidTime(t)
  {
    var iso := FormatISODate(t);
    DayData(iso, dayName(t), Bucket(items, iso), iso == todayISO)
  }

  /** Day `i` of a valid week is a valid time value. */
  lemma DayValid(monday: int, i: int)
    requires 0 <= i < 7 && WeekValid(monday)
    ensures ValidTime(DayTime(monday, i))
  {
  }

  /**
   * Round `i` of the loop, for the day at `t` with date `iso` and weekday
   * `dow`: unless it is a hidden weekend day, it pushes the day's entry and
   * gives its date a draft.
   */
  lemma RoundStep(monday: int, i: int, t: int, iso: string, dow: int, showWeekends: bool,
                  items: map<string, seq<Item>>, todayISO: string, dayName: int -> string,
                  drafts: map<string, string>)
    requires 0 <= i < 7 && WeekValid(monday) && t == DayTime(monday, i)
    requires ValidTime(t) && iso == FormatISODate(t) && dow == DayOfWeek(DayOf(t))
    ensures var skip := !showWeekends && (dow == 0 || dow == 6);
            && DerivedDays(monday, i + 1, showWeekends, items, todayISO, dayName)
               == DerivedDays(monday, i, showWeekends, items, todayISO, dayName)
                  + (if skip then [] else [DayData(iso, dayName(t), if iso in items then items[iso] else [], iso == todayISO)])
            && InitDrafts(drafts, monday, i + 1, showWeekends)
               == if skip then InitDrafts(drafts, monday, i, showWeekends)
                  else WithDraft(InitDrafts(drafts, monday, i, showWeekends), iso)
  {
  }

  /** The entries pushed by the first `n` rounds of the derivation loop, in push order. */
  function DerivedDays(monday: int, n: int, showWeekends: bool, items: map<string, seq<Item>>,
                       todayISO: string, dayName: int -> string): (r: seq<DayData>)
    requires 0 <= n <= 7 && WeekValid(monday)
    ensures |r| <= n
    ensures showWeekends ==> |r| == n
  {
    if n == 0 then []
    else
      var t := DayTime(monday, n - 1);
      DerivedDays(monday, n - 1, showWeekends, items, todayISO, dayName)
        + (if Shown(showWeekends, t) then [DayEntry(t, items, todayISO, dayName)] else [])
  }

  /** The drafts after the first `n` rounds: each kept date gets `''` unless it already has a draft. */
  function InitDrafts(drafts: map<string, string>, monday: int, n: int, showWeekends: bool): map<string, string>
    requires 0 <= n <= 7 && WeekValid(monday)
  {
    if n == 0 then drafts
    else
      var d := InitDrafts(drafts, monday, n - 1, showWeekends);
      var t := DayTime(monday, n - 1);
      if Shown(showWeekends, t) then WithDraft(d, FormatISODate(t)) else d
  }

  /** The updater `prev => ({...prev, [iso]: prev[iso] || ''})`. */
  function WithDraft(drafts: map<string, string>, iso: string): (r: map<string, string>)
    ensures iso in r && r.Keys == drafts.Keys + {iso}
    ensures forall key :: key in drafts ==> r[key] == drafts[key]
    ensures iso !in drafts ==> r[iso] == ""
  {
    drafts[iso := if iso in drafts then drafts[iso] else ""]
  }

  /** Day `i` of a week that starts on a Monday is `i` days on, with weekday `(i + 1) % 7`. */
  lemma DayOfWeekDay(monday: int, i: int)
    requires DayOfWeek(DayOf(monday)) == 1 && 0 <= i < 7
    ensures DayOf(DayTime(monday, i)) == DayOf(monday) + i
    ensures DayOfWeek(DayOf(DayTime(monday, i))) == (i + 1) % 7
  {
    TimeSplit(monday);
    DayAndTime(DayOf(monday) + i, TimeOfDay(monday));
  }

  /** The number of days kept among the first `n` of a week. */
  function KeptCount(n: int, showWeekends: bool): int {
    if showWeekends || n <= 5 then n else 5
  }

  /**
   * The first `n` rounds from a Monday push days 0, 1, ... in order: all of
   * them when weekends are shown, else only those before Saturday.
   */
  lemma {:induction false} DerivedDaysEntries(monday: int, n: int, showWeekends: bool,
                                               items: map<string, seq<Item>>, todayISO: string, dayName: int -> string)
    requires 0 <= n <= 7 && WeekValid(monday) && DayOfWeek(DayOf(monday)) == 1
    ensures var s := DerivedDays(monday, n, showWeekends, items, todayISO, dayName);
            |s| == KeptCount(n, showWeekends)
            && forall k :: 0 <= k < |s| ==> s[k] == DayEntry(DayTime(monday, k), items, todayISO, dayName)
  {
    if n > 0 {
      var prev := DerivedDays(monday, n - 1, showWeekends, items, todayISO, dayName);
      var t := DayTime(monday, n - 1);
      DerivedDaysEntries(monday, n - 1, showWeekends, items, todayISO, dayName);
      ShownDay(monday, n - 1, showWeekends);
      if Shown(showWeekends, t) {
        AppendEntry(prev, DayEntry(t, items, todayISO, dayName), monday, items, todayISO, dayName);
      } else {
        assert DerivedDays(monday, n, showWeekends, items, todayISO, dayName) == prev;
      }
    }
  }

  lemma AppendEntry(prev: seq<DayData>, e: DayData, monday: int,
                    items: map<string, seq<Item>>, todayISO: string, dayName: int -> string)
    requires WeekValid(monday) && |prev| < 7
    requires forall k :: 0 <= k < |prev| ==> prev[k] == DayEntry(DayTime(monday, k), items, todayISO, dayName)
    requires e == DayEntry(DayTime(monday, |prev|), items, todayISO, dayName)
    ensures forall k :: 0 <= k < |prev| + 1 ==> (prev + [e])[k] == DayEntry(DayTime(monday, k), items, todayISO, dayName)
  {
    forall k | 0 <= k < |prev| + 1
      ensures (prev + [e])[k] == DayEntry(DayTime(monday, k), items, todayISO, dayName)
    {
      if k < |prev| {
        assert (prev + [e])[k] == prev[k];
      }
    }
  }

  /** Of a week that starts on a Monday, days 5 and 6 are the weekend. */
  lemma ShownDay(monday: int, i: int, showWeekends: bool)
    requires DayOfWeek(DayOf(monday)) == 1 && 0 <= i < 7
    ensures Shown(showWeekends, DayTime(monday, i)) <==> showWeekends || i < 5
  {
    DayOfWeekDay(monday, i);
  }

  /** The derived week: the kept days in reverse push order. */
  function WeekDays(monday: int, showWeekends: bool,
                    items: map<string, seq<Item>>, todayISO: string, dayName: int -> string): (r: seq<DayData>)
    requires WeekValid(monday)
    ensures |r| <= 7
    ensures showWeekends ==> |r| == 7
  {
    Reverse(DerivedDays(monday, WeekLength, showWeekends, items, todayISO, dayName))
  }

  /** `new Date(monday)` with `setDate(monday.getDate() + i)` is `i` days after `monday`. */
  lemma SetDateNextDays(monday: int, i: int)
    ensures SetDateTime(monday, CivilOf(monday).day + i) == DayTime(monday, i)
  {
    SetDateShift(monday, CivilOf(monday).day + i);
    TimeSplit(monday);
  }

  /**
   * The derived week, newest first: seven days Sunday to Monday when
   * weekends are shown, else five days Friday to Monday.
   */
  lemma WeekDaysNewestFirst(monday: int, showWeekends: bool,
                            items: map<string, seq<Item>>, todayISO: string, dayName: int -> string)
    requires WeekValid(monday) && DayOfWeek(DayOf(monday)) == 1
    ensures var r := WeekDays(monday, showWeekends, items, todayISO, dayName);
            |r| == (if showWeekends then 7 else 5)
            && forall k :: 0 <= k < |r| ==> r[k] == DayEntry(DayTime(monday, |r| - 1 - k), items, todayISO, dayName)
  {
    DerivedDaysEntries(monday, 7, showWeekends, items, todayISO, dayName);
  }

  /** Consecutive entries of the derived week are consecutive days, going back in time. */
  lemma WeekDaysConsecutive(monday: int, i: int)
    requires DayOfWeek(DayOf(monday)) == 1 && 0 < i < 7
    ensures DayOf(DayTime(monday, i - 1)) == DayOf(DayTime(monday, i)) - 1
  {
    DayOfWeekDay(monday, i);
    DayOfWeekDay(monday, i - 1);
  }

  /** An entry is marked as today exactly when its day is today's day. */
  lemma DayEntryIsToday(t: int, today: int, items: map<string, seq<Item>>, dayName: int -> string)
    requires ValidTime(t) && ValidTime(today)
    ensures DayEntry(t, items, FormatISODate(today), dayName).isToday <==> DayOf(t) == DayOf(today)
  {
    IsTodayIffSameDay(t, today);
  }

  /** Initialising drafts keeps every existing draft and gives every added date `''`. */
  lemma {:induction false} InitDraftsKeeps(drafts: map<string, string>, monday: int, n: int, showWeekends: bool)
    requires 0 <= n <= 7 && WeekValid(monday)
    ensures DraftsExtend(drafts, InitDrafts(drafts, monday, n, showWeekends))
  {
    if n > 0 {
      var d := InitDrafts(drafts, monday, n - 1, showWeekends);
      InitDraftsKeeps(drafts, monday, n - 1, showWeekends);
      var t := DayTime(monday, n - 1);
      if Shown(showWeekends, t) {
        DefaultDraft(drafts, d, FormatISODate(t));
      }
    }
  }

  /** After `n` rounds every kept date among the first `n` days has a draft. */
  lemma {:induction false} InitDraftsCovers(drafts: map<string, string>, monday: int, n: int, showWeekends: bool)
    requires 0 <= n <= 7 && WeekValid(monday)
    ensures forall i :: 0 <= i < n && Shown(showWeekends, DayTime(monday, i)) ==>
              FormatISODate(DayTime(monday, i)) in InitDrafts(drafts, monday, n, showWeekends)
  {
    if n > 0 {
      var d := InitDrafts(drafts, monday, n - 1, showWeekends);
      var r := InitDrafts(drafts, monday, n, showWeekends);
      InitDraftsCovers(drafts, monday, n - 1, showWeekends);
      var t := DayTime(monday, n - 1);
      assert d.Keys <= r.Keys;
      forall i | 0 <= i < n && Shown(showWeekends, DayTime(monday, i))
        ensures FormatISODate(DayTime(monday, i)) in r
      {
        if i < n - 1 {
          assert FormatISODate(DayTime(monday, i)) in d;
        }
      }
    }
  }

  /** `r` keeps every draft of `drafts` and gives every added date `''`. */
  predicate DraftsExtend(drafts: map<string, string>, r: map<string, string>) {
    && (forall key :: key in drafts ==> key in r && r[key] == drafts[key])
    && (forall key :: key in r && key !in drafts ==> r[key] == "")
  }

  /** Adding a default draft keeps the extension property. */
  lemma DefaultDraft(drafts: map<string, string>, d: map<string, string>, iso: string)
    requires DraftsExtend(drafts, d)
    ensures DraftsExtend(drafts, WithDraft(d, iso))
  {
  }

  /** `itemsRef.current[date] = [...currentItems, item]` */
  function AddItem(items: map<string, seq<Item>>, date: string, item: Item): (r: map<string, seq<Item>>)
    ensures Bucket(r, date) == Bucket(items, date) + [item]
    ensures forall d :: d != date ==> Bucket(r, d) == Bucket(items, d)
    ensures r.Keys == items.Keys + {date}
  {
    items[date := Bucket(items, date) + [item]]
  }

  /** `prevDays.map(...)`: the day with date `date` shows `bucket`; every other day is as it was. */
  function WithBucket(days: seq<DayData>, date: string, bucket: seq<Item>): (r: seq<DayData>)
    ensures |r| == |days|
    ensures forall k :: 0 <= k < |days| && days[k].date != date ==> r[k] == days[k]
    ensures forall k :: 0 <= k < |days| && days[k].date == date ==> r[k] == days[k].(items := bucket)
  {
    if days == [] then []
    else [if days[0].date == date then days[0].(items := bucket) else days[0]] + WithBucket(days[1..], date, bucket)
  }

  /** `const date = new Date(monday); date.setDate(monday.getDate() + i)` */
  method DayAfter(monday: JsDate, i: int) returns (date: JsDate)
    ensures fresh(date) && date.time == DayTime(monday.time, i)
  {
    date := new JsDate.Copy(monday);
    date.SetDate(monday.GetDate() + i);
    SetDateNextDays(monday.time, i);
  }

  /**
   * The loop of the week derivation: for each of the seven days from
   * `monday`, one round of `WeekRound`.
   */
  method WeekLoop(monday: JsDate, showWeekends: bool, items: map<string, seq<Item>>, newItems: map<string, string>,
                  todayISODate: string, dayName: int -> string)
    returns (days: seq<DayData>, drafts: map<string, string>)
    requires WeekValid(monday.time)
    ensures days == DerivedDays(monday.time, WeekLength, showWeekends, items, todayISODate, dayName)
    ensures drafts == InitDrafts(newItems, monday.time, WeekLength, showWeekends)
  {
    days := [];
    drafts := newItems;
    for i := 0 to 7
      invariant days == DerivedDays(monday.time, i, showWeekends, items, todayISODate, dayName)
      invariant drafts == InitDrafts(newItems, monday.time, i, showWeekends)
    {
      days, drafts := WeekRound(monday, i, showWeekends, items, newItems, todayISODate, dayName, days, drafts);
    }
  }

  /**
   * Round `i` of the loop: skip the day if it is a hidden weekend day, else
   * push its entry and give its date a draft.
   */
  method WeekRound(monday: JsDate, i: int, showWeekends: bool, items: map<string, seq<Item>>,
                   newItems: map<string, string>, todayISODate: string, dayName: int -> string,
                   days: seq<DayData>, drafts: map<string, string>)
    returns (days': seq<DayData>, drafts': map<string, string>)
    requires 0 <= i < 7 && WeekValid(monday.time)
    requires days == DerivedDays(monday.time, i, showWeekends, items, todayISODate, dayName)
    requires drafts == InitDrafts(newItems, monday.time, i, showWeekends)
    ensures days' == DerivedDays(monday.time, i + 1, showWeekends, items, todayISODate, dayName)
    ensures drafts' == InitDrafts(newItems, monday.time, i + 1, showWeekends)
  {
    var date := DayAfter(monday, i);
    DayValid(monday.time, i);
    var isoDate := FormatISODate(date.time);
    var name := dayName(date.time);
    var dayOfWeek := date.GetDay();
    RoundStep(monday.time, i, date.time, isoDate, dayOfWeek, showWeekends, items, todayISODate, dayName, newItems);
    if !showWeekends && (dayOfWeek == 0 || dayOfWeek == 6) {
      return days, drafts;
    }
    var dayItems := if isoDate in items then items[isoDate] else [];
    days' := days + [DayData(isoDate, name, dayItems, isoDate == todayISODate)];
    drafts' := WithDraft(drafts, isoDate);
  }

  /**
   * The body of the week derivation effect on values: today's Monday moved
   * by `weekOffset` weeks, the loop from there, the days reversed.
   */
  method WeekOf(today: int, weekOffset: int, showWeekends: bool, items: map<string, seq<Item>>,
               newItems: map<string, string>, dayName: int -> string)
    returns (weekDays: seq<DayData>, drafts: map<string, string>)
    requires ValidTime(today) && WeekValid(MondayOfWeek(today, weekOffset))
    ensures var monday := MondayOfWeek(today, weekOffset);
            && weekDays == WeekDays(monday, showWeekends, items, FormatISODate(today), dayName)
            && drafts == InitDrafts(newItems, monday, WeekLength, showWeekends)
  {
    var todayDate := new JsDate.FromTime(today);
    var todayISODate := FormatISODate(todayDate.time);
    var monday := GetMondayOfWeek(todayDate, weekOffset);
    var days;
    days, drafts := WeekLoop(monday, showWeekends, items, newItems, todayISODate, dayName);
    weekDays := Reverse(days);
  }

  class Planner {
    /** `itemsRef.current`: the stored items of every date. */
    var items: map<string, seq<Item>>
    /** The draft text of each date's add input. */
    var newItems: map<string, string>
    var showWeekends: bool
    /** The displayed days. */
    var weekDays: seq<DayData>
    /** `searchParams.get('weekOffset')` */
    var weekOffsetParam: Option<string>
    const location: UrlState.Location

    /** The state that `updateUrlWithState` is given. */
    function Snapshot(): PlannerState
      reads this
    {
      PlannerState(GetWeekOffset(weekOffsetParam), showWeekends, items, newItems)
    }

    /** The initial state: taken from the URL fragment when it decodes, else empty. */
    constructor(location: UrlState.Location, json: UrlState.Json<PlannerState>, weekOffsetParam: Option<string>)
      ensures this.location == location && this.weekOffsetParam == weekOffsetParam && weekDays == []
      ensures var stored := if location.fragment == "" then None
                            else UrlState.DecodeBase64ToState(json, location.fragment);
              match stored
              case None => items == map[] && newItems == map[] && !showWeekends
              case Some(st) => items == st.items && newItems == st.newItems && showWeekends == st.showWeekends
    {
      var urlState := location.GetStateFromUrl(json);
      this.location := location;
      this.weekOffsetParam := weekOffsetParam;
      weekDays := [];
      match urlState
      case None =>
        items := map[];
        newItems := map[];
        showWeekends := false;
      case Some(st) =>
        items := st.items;
        newItems := st.newItems;
        showWeekends := st.showWeekends;
    }

    /**
     * The week derivation effect: the seven days from the Monday of the
     * offset week, weekends skipped when hidden, pushed in order, then
     * reversed; every kept date gets a draft.
     */
    method DeriveWeekDays(today: int, dayName: int -> string)
      requires ValidTime(today) && WeekValid(MondayOfWeek(today, GetWeekOffset(weekOffsetParam)))
      modifies this
      ensures items == old(items) && showWeekends == old(showWeekends) && weekOffsetParam == old(weekOffsetParam)
      ensures var monday := MondayOfWeek(today, GetWeekOffset(old(weekOffsetParam)));
              && weekDays == WeekDays(monday, old(showWeekends), old(items), FormatISODate(today), dayName)
              && newItems == InitDrafts(old(newItems), monday, WeekLength, old(showWeekends))
    {
      weekDays, newItems := WeekOf(today, GetWeekOffset(weekOffsetParam), showWeekends, items, newItems, dayName);
    }

    /**
     * `handleAddItem(dayDate)`: a blank draft does nothing; otherwise the
     * draft, untrimmed, is appended to the date's bucket as a new item, the
     * day shows the new bucket, the draft is cleared and the state is
     * written to the URL.
     */
    method HandleAddItem(dayDate: string, id: string, json: UrlState.Json<PlannerState>) returns (saved: bool)
      requires dayDate in newItems
      modifies this, location
      ensures AllWhitespace(old(newItems[dayDate])) ==> !saved && unchanged(this) && unchanged(location)
      ensures !AllWhitespace(old(newItems[dayDate])) ==>
        && items == AddItem(old(items), dayDate, Item(id, old(newItems[dayDate])))
        && weekDays == WithBucket(old(weekDays), dayDate, Bucket(items, dayDate))
        && newItems == old(newItems)[dayDate := ""]
        && showWeekends == old(showWeekends) && weekOffsetParam == old(weekOffsetParam)
        && (saved <==> UrlState.EncodeStateToBase64(json, Snapshot()).Some?)
        && (saved ==> location.fragment == UrlState.EncodeStateToBase64(json, Snapshot()).value)
        && (!saved ==> location.fragment == old(location.fragment))
        && location.path == old(location.path) && location.query == old(location.query)
    {
      TrimEmptyIffBlank(newItems[dayDate]);
      if Trim(newItems[dayDate]) == "" {
        return false;
      }
      var newItem := Item(id, newItems[dayDate]);
      var currentItems := if dayDate in items then items[dayDate] else [];
      items := items[dayDate := currentItems + [newItem]];
      weekDays := WithBucket(weekDays, dayDate, items[dayDate]);
      newItems := newItems[dayDate := ""];
      saved := location.UpdateUrlWithState(json, PlannerState(GetWeekOffset(weekOffsetParam), showWeekends, items, newItems));
    }
  }
}
