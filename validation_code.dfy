/** The validation-code (pin code) molecule: how its value travels between
    the string the component keeps and the cells of the pin input.
    The kept value is the characters joined by commas; the cells are that
    string split on commas; the handlers store or report either the comma
    form or the cells joined with nothing. Only the uncontrolled case is
    modelled: the component owns its value. */
module ValidationCode {
  import opened Js

  /** A value prop as `normalizeValue` sees it: `undefined`, a string, or any
      other value, given by the text a template literal makes of it. */
  datatype JsValue = Undefined | Str(s: string) | NonString(text: string)

  /** `normalizeValue`: `undefined` stays `undefined`; a string becomes
      `${s.split('')}`, its characters joined by commas; anything else its text. */
  function NormalizeValue(v: JsValue): (r: Option<string>)
    ensures r.None? <==> v.Undefined?
    ensures v.NonString? ==> r == Some(v.text)
    ensures v == Str("") ==> r == Some("")
  {
    match v
    case Undefined => None
    case Str(s) => Some(Join(Chars(s), ","))
    case NonString(text) => Some(text)
  }

  /** A string's characters joined by commas: character i sits at position 2i,
      with a comma between each pair of neighbours. */
  lemma {:induction false} CommaJoinedChars(s: string)
    ensures var r := Join(Chars(s), ",");
      && |r| == (if |s| == 0 then 0 else 2 * |s| - 1)
      && (forall i :: 0 <= i < |s| ==> r[2 * i] == s[i])
      && (forall i :: 0 <= i < |s| - 1 ==> r[2 * i + 1] == ',')
  {
    if |s| > 1 {
      var t := s[1..];
      CommaJoinedChars(t);
      assert Chars(s) == [[s[0]]] + Chars(t);
      JoinCons([s[0]], Chars(t), ",");
      var r, r' := Join(Chars(s), ","), Join(Chars(t), ",");
      assert r == [s[0]] + "," + r';
      forall i | 1 <= i < |s| ensures r[2 * i] == s[i] {
        assert r[2 * i] == r'[2 * (i - 1)];
      }
      forall i | 1 <= i < |s| - 1 ensures r[2 * i + 1] == ',' {
        assert r[2 * i + 1] == r'[2 * (i - 1) + 1];
      }
    }
  }

  /** `normalizeValue` of a string interleaves its characters with commas. */
  lemma NormalizeInterleaves(s: string)
    ensures var r := NormalizeValue(Str(s)).value;
      && |r| == (if |s| == 0 then 0 else 2 * |s| - 1)
      && (forall i :: 0 <= i < |s| ==> r[2 * i] == s[i])
      && (forall i :: 0 <= i < |s| - 1 ==> r[2 * i + 1] == ',')
  {
    CommaJoinedChars(s);
  }

  /** Splitting the normalized form of a non-empty string without commas on
      commas gives back its characters, one per cell. */
  lemma NormalizeRoundTrip(s: string)
    requires s != "" && ',' !in s
    ensures Split(NormalizeValue(Str(s)).value, ',') == Chars(s)
  {
    SplitJoin(Chars(s), ',');
  }

  /** The inner value before any change: `defaultValue` defaults to '' and is
      normalized. */
  function InitialInnerValue(defaultValue: JsValue): (r: string)
    ensures defaultValue.Undefined? || defaultValue == Str("") ==> r == ""
    ensures !defaultValue.Undefined? ==> NormalizeValue(defaultValue) == Some(r)
  {
    match defaultValue
    case Undefined => NormalizeValue(Str("")).value
    case _ => NormalizeValue(defaultValue).value
  }

  /** `arrayInnerValue`: the cells handed to the pin input, or the empty
      string itself (not an empty array) when the inner value is empty. */
  datatype CellsValue = Cells(cells: seq<string>) | EmptyString

  function ArrayValue(inner: string): (r: CellsValue)
    ensures r.EmptyString? <==> inner == ""
    ensures r.Cells? ==> |r.cells| >= 1 && Join(r.cells, ",") == inner
    ensures r.Cells? ==> forall c :: c in r.cells ==> ',' !in c
  {
    if |inner| > 0 then JoinSplit(inner, ','); Cells(Split(inner, ',')) else EmptyString
  }

  /** A comma-joined list of comma-free cells splits back into those cells,
      unless it joined to the empty string. */
  lemma CellsRoundTrip(cells: seq<string>)
    requires forall c :: c in cells ==> ',' !in c
    requires Join(cells, ",") != ""
    ensures ArrayValue(Join(cells, ",")) == Cells(cells)
  {
    assert |cells| >= 1;
    SplitJoin(cells, ',');
  }

  /** A default value without commas is shown one character per cell. */
  lemma InitialCells(d: string)
    requires ',' !in d
    ensures ArrayValue(InitialInnerValue(Str(d))) == if d == "" then EmptyString else Cells(Chars(d))
  {
    if d != "" {
      NormalizeRoundTrip(d);
      CommaJoinedChars(d);
    }
  }

  /** What a handler reports as `value`: a string, or a list of cells. */
  datatype Reported = Text(text: string) | CellList(cells: seq<string>)

  /** The `value` `onChangeHandler` reports: the cells concatenated when
      the value type is 'string', the cells themselves otherwise. The text
      holds every character of the cells and nothing else. */
  function ChangeValue(cells: seq<string>, valueIsString: bool): (r: Reported)
    ensures r.Text? <==> valueIsString
    ensures r.Text? ==> |r.text| == TotalLength(cells)
    ensures r.Text? && |cells| >= 1 ==> |cells[0]| <= |r.text| && r.text[..|cells[0]|] == cells[0]
    ensures r.Text? && |cells| == 0 ==> r.text == ""
    ensures r.Text? && |cells| >= 1 ==> r.text == cells[0] + ChangeValue(cells[1..], true).text
    ensures r.CellList? ==> r.cells == cells
  {
    if !valueIsString then CellList(cells)
    else if |cells| == 0 then Text(Join(cells, ""))
    else
      JoinStartsWithFirst(cells, "");
      ConcatIsAppend(cells);
      Text(Join(cells, ""))
  }

  /** The outcome of calling a send/resend click handler as the source has it. */
  datatype Outcome = Reports(value: Reported) | ThrowsTypeError

  /** The click handler built by `onHandler`, as written: with value type
      'string' it calls `filter` on `arrayInnerValue`, which is the empty
      string, not an array, when the inner value is empty. */
  function SendValueAsWritten(v: CellsValue, valueIsString: bool): (r: Outcome)
    ensures r.ThrowsTypeError? <==> v.EmptyString? && valueIsString
    ensures v.Cells? && !valueIsString ==> r == Reports(CellList(v.cells))
  {
    match v
    case Cells(cells) =>
      Reports(if valueIsString then Text(Join(KeepNonEmpty(cells), "")) else CellList(cells))
    case EmptyString =>
      if valueIsString then ThrowsTypeError else Reports(Text(""))
  }

  /** The click handler's report with the empty inner value treated as no
      cells, which is what the 'string' branch evidently intends. It agrees
      with the code as written wherever that does not throw. */
  function SendValue(v: CellsValue, valueIsString: bool): (r: Reported)
    ensures valueIsString ==> r.Text? && r.text == (if v.Cells? then Join(v.cells, "") else "")
    ensures !valueIsString ==> r == (if v.Cells? then CellList(v.cells) else Text(""))
    ensures !(v.EmptyString? && valueIsString) ==> SendValueAsWritten(v, valueIsString) == Reports(r)
  {
    match v
    case Cells(cells) =>
      ConcatIgnoresEmpty(cells);
      if valueIsString then Text(Join(KeepNonEmpty(cells), "")) else CellList(cells)
    case EmptyString => Text("")
  }

  /** As written, pressing send on an empty code with value type 'string'
      throws; the corrected handler reports the empty string. */
  lemma SendOnEmptyCode()
    ensures SendValueAsWritten(ArrayValue(InitialInnerValue(Undefined)), true) == ThrowsTypeError
    ensures SendValue(ArrayValue(InitialInnerValue(Undefined)), true) == Text("")
  {
  }

  /** A comma-joined list that is empty came from no cells or one empty cell. */
  lemma EmptyCommaJoin(cells: seq<string>)
    requires Join(cells, ",") == ""
    ensures |cells| <= 1 && Join(cells, "") == ""
  {
  }

  /** For value type 'string', what send reports after a change is what the
      change itself reported, whatever the (comma-free) cells. */
  lemma SendAgreesWithChange(cells: seq<string>)
    requires forall c :: c in cells ==> ',' !in c
    ensures SendValue(ArrayValue(Join(cells, ",")), true) == ChangeValue(cells, true)
  {
    if Join(cells, ",") == "" {
      EmptyCommaJoin(cells);
    } else {
      CellsRoundTrip(cells);
    }
  }

  /** A call the component makes to one of its callback props. */
  datatype Callback = ClearCalled | ChangeCalled(value: Reported, innerValue: seq<string>)

  class ValidationCodeState {
    /** The inner value of `useControlledState`: the cells joined by commas. */
    var innerValue: string
    /** Whether `getPinInputValueType` says 'string' for this component's props. */
    const valueIsString: bool

    constructor(defaultValue: JsValue, valueIsString: bool)
      ensures innerValue == InitialInnerValue(defaultValue)
      ensures this.valueIsString == valueIsString
    {
      innerValue := InitialInnerValue(defaultValue);
      this.valueIsString := valueIsString;
    }

    /** `arrayInnerValue` for the current inner value. */
    function ArrayInnerValue(): (r: CellsValue)
      reads this
      ensures r.EmptyString? <==> innerValue == ""
    {
      ArrayValue(innerValue)
    }

    /** `onChangeHandler`: stores the pin input's cells joined by commas and
        calls `onChange`, when given, with the reported value. */
    method Change(cells: seq<string>, hasOnChange: bool) returns (calls: seq<Callback>)
      modifies this
      ensures innerValue == Join(cells, ",")
      ensures calls == if hasOnChange then [ChangeCalled(ChangeValue(cells, valueIsString), cells)] else []
    {
      innerValue := Join(cells, ",");
      calls := [];
      if hasOnChange {
        calls := [ChangeCalled(ChangeValue(cells, valueIsString), cells)];
      }
    }

    /** `onClearHandler`: empties the inner value, then calls `onClear` and
        `onChange` (with value '' and no cells), each when given. */
    method Clear(hasOnClear: bool, hasOnChange: bool) returns (calls: seq<Callback>)
      modifies this
      ensures innerValue == "" && ArrayInnerValue() == EmptyString
      ensures calls == (if hasOnClear then [ClearCalled] else [])
                     + (if hasOnChange then [ChangeCalled(Text(""), [])] else [])
    {
      innerValue := "";
      calls := [];
      if hasOnClear {
        calls := calls + [ClearCalled];
      }
      if hasOnChange {
        calls := calls + [ChangeCalled(Text(""), [])];
      }
    }

    /** `onHandler(handler)`: no click handler without a handler; otherwise
        the outcome of a click, as written. The click throws exactly when the
        value type is 'string' and the inner value is empty; everywhere else
        it reports what the corrected `SendValue` reports. */
    function OnHandler(hasHandler: bool): (r: Option<Outcome>)
      reads this
      ensures r.None? <==> !hasHandler
      ensures hasHandler ==> (r.value.ThrowsTypeError? <==> valueIsString && innerValue == "")
      ensures hasHandler && !(valueIsString && innerValue == "") ==>
        r == Some(Reports(SendValue(ArrayInnerValue(), valueIsString)))
      ensures hasHandler && valueIsString && innerValue != "" ==>
        r == Some(Reports(Text(Join(Split(innerValue, ','), ""))))
      ensures hasHandler && !valueIsString && innerValue == "" ==> r == Some(Reports(Text("")))
    {
      if hasHandler then Some(SendValueAsWritten(ArrayInnerValue(), valueIsString)) else None
    }
  }

  /** A component with value type 'string' that was typed into and then sent
      reports what it reported on the change, unless the cells joined to the
      empty string, where the click throws as written. */
  method TypeThenSend(cells: seq<string>) returns (changed: seq<Callback>, sent: Option<Outcome>)
    requires forall c :: c in cells ==> ',' !in c
    ensures changed == [ChangeCalled(Text(Join(cells, "")), cells)]
    ensures sent == Some(if Join(cells, ",") == "" then ThrowsTypeError else Reports(Text(Join(cells, ""))))
  {
    var code := new ValidationCodeState(Undefined, true);
    changed := code.Change(cells, true);
    sent := code.OnHandler(true);
    SendAgreesWithChange(cells);
  }

  /** After a clear, send throws for value type 'string' as written, and
      reports the string '' (not an empty list) for the other value type. */
  method ClearThenSend(defaultValue: JsValue, valueIsString: bool) returns (sent: Option<Outcome>)
    ensures sent == Some(if valueIsString then ThrowsTypeError else Reports(Text("")))
  {
    var code := new ValidationCodeState(defaultValue, valueIsString);
    var _ := code.Clear(false, false);
    sent := code.OnHandler(true);
  }
}
