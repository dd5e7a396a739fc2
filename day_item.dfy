/**
 * One item row of a day card: a text that turns into an edit input when
 * clicked, saves the edited text when editing ends, places the caret where
 * the user clicked, and an item menu that only works with a delete handler.
 */
module DayItem {
  import opened Wrappers
  import opened Text

  /** An `onSave(id, value)` call. */
  datatype SaveCall = SaveCall(id: string, value: string)

  /** The caret position the edit input gets: the requested index clamped into `0..len`, or the end. */
  function CaretPosition(desired: Option<int>, len: nat): (idx: nat)
    ensures idx <= len
    ensures desired.None? ==> idx == len
    ensures desired.Some? && 0 <= desired.value <= len ==> idx == desired.value
    ensures desired.Some? && desired.value < 0 ==> idx == 0
    ensures desired.Some? && desired.value > len ==> idx == len
  {
    match desired
    case None => len
    case Some(d) => if d < 0 then 0 else if d > len then len else d
  }

  /**
   * The caret index a click on the text asks for: the clicked character's
   * `data-index` read by `parseInt`, the end of the text (`text.length`, in
   * UTF-16 code units) when the click hit no character or the attribute is
   * not a number.
   */
  function ClickIndex(dataIndex: Option<string>, text: string): (idx: int)
    ensures dataIndex.None? ==> idx == Utf16Length(text)
    ensures dataIndex.Some? && ParseInt(dataIndex.value).None? ==> idx == Utf16Length(text)
    ensures dataIndex.Some? && ParseInt(dataIndex.value).Some? ==> idx == ParseInt(dataIndex.value).value
  {
    match dataIndex
    case None => Utf16Length(text)
    case Some(attr) =>
      match ParseInt(attr)
      case None => Utf16Length(text)
      case Some(i) => i
  }

  /**
   * The `data-index` of the span of character `i`: the text is split into
   * code points (`Array.from(text)`) and each span carries its position in
   * that list.
   */
  function DataIndex(text: string, i: nat): (attr: string)
    requires i < |text|
    ensures ParseInt(attr) == Some(i)
  {
    ParseIntOfNatToString(i);
    NatToString(i)
  }

  /**
   * A click on character `i` asks for caret offset `i`, and the caret lands
   * right before that character (after the code units of the characters in
   * front of it) exactly when none of those takes two code units.
   */
  lemma ClickOnCharacter(text: string, i: nat)
    requires i < |text|
    ensures ClickIndex(Some(DataIndex(text, i)), text) == i
    ensures var caret := CaretPosition(Some(ClickIndex(Some(DataIndex(text, i)), text)), Utf16Length(text));
            caret == i &&
            (caret == Utf16Length(text[..i]) <==> forall k :: 0 <= k < i ==> Utf16Units(text[k]) == 1)
  {
    var front := text[..i];
    assert forall k :: 0 <= k < i ==> front[k] == text[k];
  }

  /** In "😀ab" the span of `b` has index 2, but caret offset 2 lies before `a`: `b` starts at offset 3. */
  lemma ClickAfterAstralCharacter()
    ensures var text := "\U{1F600}ab";
            var caret := CaretPosition(Some(ClickIndex(Some(DataIndex(text, 2)), text)), Utf16Length(text));
            caret == 2 && Utf16Length(text[..1]) == 2 && Utf16Length(text[..2]) == 3 && text[2] == 'b'
  {
    var text := "\U{1F600}ab";
    ClickOnCharacter(text, 2);
    assert text[..1] == "\U{1F600}" && text[..2] == "\U{1F600}a";
  }

  /**
   * The `data-index` the caret placement needs: the UTF-16 offset of the
   * character, the code units of the characters before it.
   */
  function Utf16DataIndex(text: string, i: nat): (attr: string)
    requires i < |text|
    ensures ParseInt(attr) == Some(Utf16Length(text[..i]))
  {
    ParseIntOfNatToString(Utf16Length(text[..i]));
    NatToString(Utf16Length(text[..i]))
  }

  /** With UTF-16 offsets as `data-index`, a click on any character puts the caret right before it. */
  lemma ClickOnCharacterUtf16(text: string, i: nat)
    requires i < |text|
    ensures CaretPosition(Some(ClickIndex(Some(Utf16DataIndex(text, i)), text)), Utf16Length(text))
            == Utf16Length(text[..i])
  {
    Utf16LengthPrefix(text, i);
  }

  class Editor {
    const id: string
    const text: string
    const hasSave: bool
    const hasDelete: bool
    var isEditing: bool
    var editingText: string
    var desiredCaretIndex: Option<int>
    var menuOpen: bool

    /** The menu can only be open with a delete handler, and a caret is only requested while editing. */
    predicate Valid()
      reads this
    {
      (menuOpen ==> hasDelete) && (!isEditing ==> desiredCaretIndex.None?)
    }

    constructor (id: string, text: string, hasSave: bool, hasDelete: bool)
      ensures Valid()
      ensures this.id == id && this.text == text && this.hasSave == hasSave && this.hasDelete == hasDelete
      ensures !isEditing && editingText == "" && desiredCaretIndex.None? && !menuOpen
    {
      this.id := id;
      this.text := text;
      this.hasSave := hasSave;
      this.hasDelete := hasDelete;
      isEditing := false;
      editingText := "";
      desiredCaretIndex := None;
      menuOpen := false;
    }

    /**
     * The caret the effect places when editing starts or a caret is requested,
     * in UTF-16 code units (`input.value.length`, `setSelectionRange`); `None`
     * while not editing.  Later moves of the caret as the user types are the
     * browser's and are not modelled.
     */
    function Caret(): (c: Option<nat>)
      reads this
      ensures c.Some? <==> isEditing
      ensures c.Some? ==> c.value <= Utf16Length(editingText)
    {
      if isEditing then Some(CaretPosition(desiredCaretIndex, Utf16Length(editingText))) else None
    }

    /** Whether the item menu's button is enabled; a disabled button means no menu. */
    function MenuButtonEnabled(): (enabled: bool)
      reads this
      ensures enabled <==> hasDelete
      ensures !enabled ==> !MenuShown()
    {
      hasDelete
    }

    /** Whether the item menu is on screen. */
    function MenuShown(): (shown: bool)
      reads this
      ensures shown ==> hasDelete
      ensures Valid() ==> (shown <==> menuOpen)
    {
      menuOpen && hasDelete
    }

    method StartEdit(caretIndex: Option<int>)
      modifies this
      requires Valid()
      ensures Valid()
      ensures isEditing && editingText == text && desiredCaretIndex == caretIndex
      ensures menuOpen == old(menuOpen)
    {
      isEditing := true;
      editingText := text;
      desiredCaretIndex := caretIndex;
    }

    /** Leaving edit mode: the draft is saved only if editing was on and a save handler exists. */
    method StopEditAndSave() returns (save: Option<SaveCall>)
      modifies this
      requires Valid()
      ensures Valid()
      ensures save == if old(isEditing) && hasSave then Some(SaveCall(id, old(editingText))) else None
      ensures !isEditing && desiredCaretIndex.None?
      ensures editingText == old(editingText) && menuOpen == old(menuOpen)
    {
      save := None;
      if isEditing && hasSave {
        save := Some(SaveCall(id, editingText));
      }
      isEditing := false;
      desiredCaretIndex := None;
    }

    method HandleInputChange(value: string)
      modifies this
      requires Valid()
      ensures Valid()
      ensures editingText == value
      ensures isEditing == old(isEditing) && desiredCaretIndex == old(desiredCaretIndex) && menuOpen == old(menuOpen)
    {
      editingText := value;
    }

    /** Enter in the edit input ends editing; every other key only types. */
    method HandleInputKeyDown(key: string) returns (save: Option<SaveCall>)
      modifies this
      requires Valid()
      ensures Valid()
      ensures key == "Enter" ==>
                save == (if old(isEditing) && hasSave then Some(SaveCall(id, old(editingText))) else None) &&
                !isEditing && desiredCaretIndex.None?
      ensures key != "Enter" ==>
                save.None? && isEditing == old(isEditing) && desiredCaretIndex == old(desiredCaretIndex)
      ensures editingText == old(editingText) && menuOpen == old(menuOpen)
    {
      save := None;
      if key == "Enter" {
        save := StopEditAndSave();
      }
    }

    /** A click on the text, on a character whose `data-index` is given or beside the characters. */
    method HandleTextClick(dataIndex: Option<string>)
      modifies this
      requires Valid()
      ensures Valid()
      ensures isEditing && editingText == text && desiredCaretIndex == Some(ClickIndex(dataIndex, text))
      ensures menuOpen == old(menuOpen)
    {
      var idx: Option<int>;
      if dataIndex.Some? {
        idx := ParseInt(dataIndex.value);
      } else {
        idx := Some(Utf16Length(text));
      }
      StartEdit(if idx.None? then Some(Utf16Length(text)) else idx);
    }

    /** Enter or space on the focused text starts editing with the caret at the end. */
    method HandleTextKeyDown(key: string)
      modifies this
      requires Valid()
      ensures Valid()
      ensures key == "Enter" || key == " " ==>
                isEditing && editingText == text && desiredCaretIndex == Some(Utf16Length(text))
      ensures key != "Enter" && key != " " ==>
                isEditing == old(isEditing) && editingText == old(editingText) &&
                desiredCaretIndex == old(desiredCaretIndex)
      ensures menuOpen == old(menuOpen)
    {
      if key == "Enter" || key == " " {
        StartEdit(Some(Utf16Length(text)));
      }
    }

    /** A click on the menu button toggles the menu; without a delete handler the button does nothing. */
    method HandleMenuClick()
      modifies this
      requires Valid()
      ensures Valid()
      ensures menuOpen == if hasDelete then !old(menuOpen) else old(menuOpen)
      ensures isEditing == old(isEditing) && editingText == old(editingText) && desiredCaretIndex == old(desiredCaretIndex)
    {
      if hasDelete {
        menuOpen := !menuOpen;
      }
    }

    /** A right-click on the menu button opens the menu when a delete handler exists. */
    method HandleContextMenu()
      modifies this
      requires Valid()
      ensures Valid()
      ensures menuOpen == (hasDelete || old(menuOpen))
      ensures isEditing == old(isEditing) && editingText == old(editingText) && desiredCaretIndex == old(desiredCaretIndex)
    {
      if hasDelete {
        menuOpen := true;
      }
    }

    /** Any entry of the menu closes it. */
    method CloseMenu()
      modifies this
      requires Valid()
      ensures Valid()
      ensures !menuOpen
      ensures isEditing == old(isEditing) && editingText == old(editingText) && desiredCaretIndex == old(desiredCaretIndex)
    {
      menuOpen := false;
    }

    /** The menu's Delete entry asks for this item to be deleted and closes the menu. */
    method ChooseDelete() returns (deleteId: Option<string>)
      modifies this
      requires Valid()
      ensures Valid()
      ensures deleteId == if old(MenuShown()) then Some(id) else None
      ensures deleteId.Some? <==> old(menuOpen)
      ensures !menuOpen
      ensures isEditing == old(isEditing) && editingText == old(editingText) && desiredCaretIndex == old(desiredCaretIndex)
    {
      deleteId := None;
      if MenuShown() {
        deleteId := Some(id);
      }
      CloseMenu();
    }
  }

  /*
   * The next three scenarios come from the test of the day-list copy of this
   * component (src/components/DayList/DayCard/DayItem/DayItem.test.tsx), played
   * here on the item of src/components/DayCard/DayItem/DayItem.tsx.
   */

  /** A click beside the characters edits the whole text with the caret at its end. */
  method ClickBesideCharacters() returns (value: string, caret: Option<nat>)
    ensures value == "First task" && caret == Some(10)
  {
    var item := new Editor("1", "First task", false, false);
    item.HandleTextClick(None);
    value, caret := item.editingText, item.Caret();
  }

  /** A click on the character with index 2 puts the caret before it. */
  method ClickOnThirdCharacter() returns (caret: Option<nat>)
    ensures caret == Some(2)
  {
    var item := new Editor("1", "First task", false, false);
    ClickOnCharacter("First task", 2);
    item.HandleTextClick(Some(DataIndex("First task", 2)));
    caret := item.Caret();
  }

  /** Typing and then pressing Enter saves the edited text once; a second Enter saves nothing. */
  method TypeThenEnter() returns (first: Option<SaveCall>, second: Option<SaveCall>)
    ensures first == Some(SaveCall("1", "First task updated")) && second.None?
  {
    var item := new Editor("1", "First task", true, false);
    item.HandleTextClick(None);
    assert "First task" + " updated" == "First task updated";
    item.HandleInputChange(item.editingText + " updated");
    first := item.HandleInputKeyDown("Enter");
    second := item.HandleInputKeyDown("Enter");
  }

  /** Without a delete handler the menu button is disabled and the menu never opens. */
  method MenuWithoutDelete() returns (enabled: bool, shown: bool)
    ensures !enabled && !shown
  {
    var item := new Editor("1", "First task", false, false);
    item.HandleMenuClick();
    item.HandleContextMenu();
    enabled, shown := item.MenuButtonEnabled(), item.MenuShown();
  }
}
