/**
 * The editable text field of the in-game UI (core/ui/ui_text_field.cpp):
 * a text, a cursor index into it and whether the cursor is shown. The
 * pixel position of the cursor image, which comes from shaping the text
 * with the font, is not part of this model. Calls that leave the field —
 * showing the native keyboard and the OnFinish callback — are recorded as
 * effects.
 */
module UITextFields {
  datatype SpecialKey = Left | Right | Delete | OtherKey

  datatype KeyState = KeyState(specialKey: SpecialKey, isDown: bool, ch: char)

  datatype EventType = PointerDown | PointerUp | SpecialKeyInput | CharInput | OtherEvent

  /** UIEventInfo: the event and the two flags the handler may set. */
  datatype EventInfo = EventInfo(eventType: EventType, keyState: KeyState, consumed: bool, loseFocus: bool)

  const BACKSPACE: char := 8 as char
  const RETURN: char := 13 as char

  datatype Effect = ShowKeyboard | Finish(text: string)

  /** The editing state of a field. */
  datatype Field = Field(text: string, cursor: int, cursorActive: bool)

  predicate CursorInRange(f: Field)
  {
    0 <= f.cursor <= |f.text|
  }

  function Clamp(x: int, lo: int, hi: int): (r: int)
    requires lo <= hi
    ensures lo <= r <= hi
    ensures lo <= x <= hi ==> r == x
    ensures x < lo ==> r == lo
    ensures hi < x ==> r == hi
  {
    if x < lo then lo else if hi < x then hi else x
  }

  /** MoveCursor (lines 111-116): an offset of 0 does nothing; otherwise the cursor moves and is clamped to the text. */
  function MoveCursor(f: Field, offset: int): (r: Field)
    ensures r.text == f.text && r.cursorActive == f.cursorActive
    ensures offset == 0 ==> r == f
    ensures offset != 0 ==> CursorInRange(r)
    ensures offset != 0 && 0 <= f.cursor + offset <= |f.text| ==> r.cursor == f.cursor + offset
  {
    if offset == 0 then f else f.(cursor := Clamp(f.cursor + offset, 0, |f.text|))
  }

  /** UpdateText (lines 124-131): the text is replaced, then the cursor moves. */
  function UpdateText(f: Field, newText: string, cursorOffset: int): (r: Field)
    ensures r == MoveCursor(f.(text := newText), cursorOffset)
  {
    MoveCursor(f.(text := newText), cursorOffset)
  }

  /** The text without the character at index i. */
  function EraseAt(s: string, i: nat): (r: string)
    requires i < |s|
    ensures |r| == |s| - 1
    ensures forall k :: 0 <= k < i ==> r[k] == s[k]
    ensures forall k :: i <= k < |r| ==> r[k] == s[k + 1]
  {
    s[..i] + s[i + 1..]
  }

  /** The text with c inserted before index i. */
  function InsertAt(s: string, i: nat, c: char): (r: string)
    requires i <= |s|
    ensures |r| == |s| + 1 && r[i] == c
    ensures forall k :: 0 <= k < i ==> r[k] == s[k]
    ensures forall k :: i < k < |r| ==> r[k] == s[k - 1]
  {
    s[..i] + [c] + s[i..]
  }

  /** Erasing what was just inserted gives the text back. */
  lemma EraseInserted(s: string, i: nat, c: char)
    requires i <= |s|
    ensures EraseAt(InsertAt(s, i, c), i) == s
  {
    var t := EraseAt(InsertAt(s, i, c), i);
    assert |t| == |s|;
    forall k | 0 <= k < |s|
      ensures t[k] == s[k]
    {
    }
  }

  datatype Outcome = Outcome(field: Field, info: EventInfo, effects: seq<Effect>)

  /** The special-key part of HandleEvent (lines 42-73). */
  function SpecialKeyStep(f: Field, e: EventInfo): Outcome
    requires CursorInRange(f)
  {
    var key := e.keyState;
    match key.specialKey
    case Left =>
      if key.isDown then Outcome(MoveCursor(f, -1), e.(consumed := true), []) else Outcome(f, e, [])
    case Right =>
      if key.isDown then Outcome(MoveCursor(f, 1), e.(consumed := true), []) else Outcome(f, e, [])
    case Delete =>
      if key.isDown && |f.text| != 0 && f.cursor != |f.text| then
        Outcome(UpdateText(f, EraseAt(f.text, f.cursor), 0), e.(consumed := true), [])
      else Outcome(f, e, [])
    case OtherKey => Outcome(f, e, [])
  }

  /** The character part of HandleEvent (lines 75-97); `hasOnFinish` says whether OnFinish is set. */
  function CharStep(f: Field, e: EventInfo, hasOnFinish: bool): Outcome
    requires CursorInRange(f)
  {
    var c := e.keyState.ch;
    if c == BACKSPACE then
      if |f.text| != 0 && f.cursor != 0 then
        Outcome(UpdateText(f, EraseAt(f.text, f.cursor - 1), -1), e.(consumed := true), [])
      else Outcome(f, e, [])
    else if c == RETURN then
      Outcome(f, e.(consumed := true, loseFocus := true), if hasOnFinish then [Finish(f.text)] else [])
    else
      Outcome(UpdateText(f, InsertAt(f.text, f.cursor, c), 1), e.(consumed := true), [])
  }

  /** HandleEvent (lines 33-98). */
  function HandleEvent(f: Field, e: EventInfo, hasOnFinish: bool): (r: Outcome)
    requires CursorInRange(f)
    ensures CursorInRange(r.field)
    ensures !r.info.consumed ==> r.field == f && r.effects == [] && r.info == e
  {
    match e.eventType
    case PointerDown => Outcome(f.(cursorActive := true), e.(consumed := true), [ShowKeyboard])
    case PointerUp => Outcome(f.(cursorActive := true), e.(consumed := true), [ShowKeyboard])
    case SpecialKeyInput => SpecialKeyStep(f, e)
    case CharInput => CharStep(f, e, hasOnFinish)
    case OtherEvent => Outcome(f, e, [])
  }

  /** A pointer press or release shows the keyboard, activates the cursor and consumes the event. */
  lemma PointerActivates(f: Field, e: EventInfo, hasOnFinish: bool)
    requires CursorInRange(f) && (e.eventType == PointerDown || e.eventType == PointerUp)
    ensures var r := HandleEvent(f, e, hasOnFinish);
      r.field == f.(cursorActive := true) && r.info.consumed && r.effects == [ShowKeyboard]
  {
  }

  /** LEFT and RIGHT pressed move the cursor by one, clamped to the text, and consume the event. */
  lemma ArrowsMoveCursor(f: Field, e: EventInfo, hasOnFinish: bool)
    requires CursorInRange(f) && e.eventType == SpecialKeyInput && e.keyState.isDown
    requires e.keyState.specialKey == Left || e.keyState.specialKey == Right
    ensures var r := HandleEvent(f, e, hasOnFinish);
      var step := if e.keyState.specialKey == Left then -1 else 1;
      r.info.consumed && r.field.text == f.text
      && r.field.cursor == Clamp(f.cursor + step, 0, |f.text|)
  {
  }

  /** DELETE pressed before the end of the text removes the character at the cursor; the cursor stays. */
  lemma DeleteRemovesAtCursor(f: Field, e: EventInfo, hasOnFinish: bool)
    requires CursorInRange(f) && e.eventType == SpecialKeyInput && e.keyState.isDown
    requires e.keyState.specialKey == Delete
    ensures var r := HandleEvent(f, e, hasOnFinish);
      f.cursor < |f.text| ==>
        r.info.consumed && r.field.cursor == f.cursor
        && r.field.text == f.text[..f.cursor] + f.text[f.cursor + 1..]
    ensures var r := HandleEvent(f, e, hasOnFinish);
      f.cursor == |f.text| ==> r.field == f && r.info == e
  {
  }

  /** Backspace after the first character removes the character before the cursor and moves the cursor back. */
  lemma BackspaceRemovesBeforeCursor(f: Field, e: EventInfo, hasOnFinish: bool)
    requires CursorInRange(f) && e.eventType == CharInput && e.keyState.ch == BACKSPACE
    ensures var r := HandleEvent(f, e, hasOnFinish);
      f.cursor > 0 ==>
        r.info.consumed && r.field.cursor == f.cursor - 1
        && r.field.text == f.text[..f.cursor - 1] + f.text[f.cursor..]
    ensures var r := HandleEvent(f, e, hasOnFinish);
      f.cursor == 0 ==> r.field == f && r.info == e
  {
  }

  /** Carriage return reports the text to OnFinish when it is set, and asks to lose focus; the text is kept. */
  lemma ReturnFinishes(f: Field, e: EventInfo, hasOnFinish: bool)
    requires CursorInRange(f) && e.eventType == CharInput && e.keyState.ch == RETURN
    ensures var r := HandleEvent(f, e, hasOnFinish);
      r.field == f && r.info.consumed && r.info.loseFocus
      && r.effects == (if hasOnFinish then [Finish(f.text)] else [])
  {
  }

  /** Any other character is inserted at the cursor, and the cursor moves past it. */
  lemma CharInserted(f: Field, e: EventInfo, hasOnFinish: bool)
    requires CursorInRange(f) && e.eventType == CharInput && e.keyState.ch != BACKSPACE && e.keyState.ch != RETURN
    ensures var r := HandleEvent(f, e, hasOnFinish);
      r.info.consumed && r.field.cursor == f.cursor + 1
      && r.field.text == f.text[..f.cursor] + [e.keyState.ch] + f.text[f.cursor..]
  {
  }

  /** Typing a character and then backspace gives back the same text and cursor. */
  lemma TypeThenBackspace(f: Field, c: char, k: KeyState, hasOnFinish: bool)
    requires CursorInRange(f) && c != BACKSPACE && c != RETURN && k.ch == BACKSPACE
    ensures var typed := HandleEvent(f, EventInfo(CharInput, k.(ch := c), false, false), hasOnFinish).field;
      var back := HandleEvent(typed, EventInfo(CharInput, k, false, false), hasOnFinish).field;
      back.text == f.text && back.cursor == f.cursor
  {
    EraseInserted(f.text, f.cursor, c);
  }

  /** SetText as written (lines 22-25): the text changes and the cursor stays where it was. */
  function SetTextAsWritten(f: Field, text: string): Field
  {
    f.(text := text)
  }

  /**
   * After typing "abcd" the cursor is at 4; the developer console then
   * sets the text to "": the cursor is past the end, and once "ab" is set
   * DELETE's guard lets an erase at index 4 of a 2-character text through.
   */
  lemma SetTextLeavesCursorOutside()
    ensures var f := SetTextAsWritten(Field("abcd", 4, true), "");
      !CursorInRange(f)
    ensures var g := SetTextAsWritten(Field("abcd", 4, true), "ab");
      |g.text| != 0 && g.cursor != |g.text| && g.cursor >= |g.text|
  {
  }

  /** SetText with the cursor kept inside the new text. */
  function SetText(f: Field, text: string): (r: Field)
    ensures r.text == text && r.cursorActive == f.cursorActive
    ensures CursorInRange(f) ==> CursorInRange(r)
    ensures CursorInRange(f) && f.cursor <= |text| ==> r.cursor == f.cursor
  {
    f.(text := text, cursor := if f.cursor <= |text| then f.cursor else |text|)
  }

  class UITextField {
    var text: string
    var cursor: int
    var cursorActive: bool
    /** Whether OnFinish is set. */
    var hasOnFinish: bool
    /** The keyboard requests and OnFinish calls made so far. */
    var effects: seq<Effect>

    function State(): Field
      reads this
    {
      Field(text, cursor, cursorActive)
    }

    ghost predicate Valid()
      reads this
    {
      0 <= cursor <= |text|
    }

    /** The constructor (lines 10-15): cursor at 0 and hidden. */
    constructor(text: string)
      ensures Valid() && this.text == text && cursor == 0 && !cursorActive
      ensures !hasOnFinish && effects == []
    {
      this.text := text;
      cursor := 0;
      cursorActive := false;
      hasOnFinish := false;
      effects := [];
    }

    /** SetCursorActive (lines 105-109). */
    method SetCursorActive(isActive: bool)
      modifies this
      ensures State() == old(State()).(cursorActive := isActive)
      ensures hasOnFinish == old(hasOnFinish) && effects == old(effects)
    {
      cursorActive := isActive;
    }

    /** LoseFocus (lines 100-103): the cursor is hidden; nothing else changes. */
    method LoseFocus()
      modifies this
      ensures State() == old(State()).(cursorActive := false)
      ensures hasOnFinish == old(hasOnFinish) && effects == old(effects)
    {
      SetCursorActive(false);
    }

    /** Done (lines 27-31): reports the text to OnFinish when it is set; the field itself is left as it is. */
    method Done()
      modifies this
      ensures State() == old(State()) && hasOnFinish == old(hasOnFinish)
      ensures effects == old(effects) + if hasOnFinish then [Finish(text)] else []
    {
      if hasOnFinish {
        effects := effects + [Finish(text)];
      }
    }

    /** MoveCursor (lines 111-116), on the field's state. */
    method MoveCursorBy(offset: int)
      modifies this
      ensures State() == MoveCursor(old(State()), offset)
      ensures hasOnFinish == old(hasOnFinish) && effects == old(effects)
    {
      if offset == 0 {
        return;
      }
      cursor := Clamp(cursor + offset, 0, |text|);
    }

    /** UpdateText (lines 124-131), on the field's state. */
    method UpdateTextTo(newText: string, cursorOffset: int)
      modifies this
      ensures State() == UpdateText(old(State()), newText, cursorOffset)
      ensures hasOnFinish == old(hasOnFinish) && effects == old(effects)
    {
      text := newText;
      MoveCursorBy(cursorOffset);
    }

    /** SetText, keeping the cursor inside the new text. */
    method SetTextTo(newText: string)
      requires Valid()
      modifies this
      ensures Valid() && State() == SetText(old(State()), newText)
      ensures hasOnFinish == old(hasOnFinish) && effects == old(effects)
    {
      text := newText;
      if cursor > |newText| {
        cursor := |newText|;
      }
    }

    /** HandleEvent (lines 33-98), step by step as the engine runs it. */
    method HandleEventInfo(e: EventInfo) returns (info: EventInfo)
      requires Valid()
      modifies this
      ensures Valid()
      ensures var r := HandleEvent(old(State()), e, hasOnFinish);
        State() == r.field && info == r.info && effects == old(effects) + r.effects
      ensures hasOnFinish == old(hasOnFinish)
    {
      info := e;
      if e.eventType == PointerDown || e.eventType == PointerUp {
        effects := effects + [ShowKeyboard];
        SetCursorActive(true);
        info := info.(consumed := true);
      }
      if e.eventType == SpecialKeyInput {
        info := HandleSpecialKey(e);
      }
      if e.eventType == CharInput {
        info := HandleChar(e);
      }
    }

    /** The special-key part of HandleEvent (lines 42-73). */
    method HandleSpecialKey(e: EventInfo) returns (info: EventInfo)
      requires Valid()
      modifies this
      ensures var r := SpecialKeyStep(old(State()), e);
        State() == r.field && info == r.info && effects == old(effects) + r.effects
      ensures hasOnFinish == old(hasOnFinish)
    {
      info := e;
      var key := e.keyState;
      match key.specialKey {
        case Left =>
          if key.isDown {
            MoveCursorBy(-1);
            info := info.(consumed := true);
          }
        case Right =>
          if key.isDown {
            MoveCursorBy(1);
            info := info.(consumed := true);
          }
        case Delete =>
          if key.isDown && |text| != 0 && cursor != |text| {
            UpdateTextTo(EraseAt(text, cursor), 0);
            info := info.(consumed := true);
          }
        case OtherKey =>
      }
    }

    /** The character part of HandleEvent (lines 75-97). */
    method HandleChar(e: EventInfo) returns (info: EventInfo)
      requires Valid()
      modifies this
      ensures var r := CharStep(old(State()), e, hasOnFinish);
        State() == r.field && info == r.info && effects == old(effects) + r.effects
      ensures hasOnFinish == old(hasOnFinish)
    {
      info := e;
      var c := e.keyState.ch;
      if c == BACKSPACE {
        if |text| != 0 && cursor != 0 {
          UpdateTextTo(EraseAt(text, cursor - 1), -1);
          info := info.(consumed := true);
        }
      } else if c == RETURN {
        if hasOnFinish {
          effects := effects + [Finish(text)];
        }
        info := info.(consumed := true, loseFocus := true);
      } else {
        UpdateTextTo(InsertAt(text, cursor, c), 1);
        info := info.(consumed := true);
      }
    }
  }
}
