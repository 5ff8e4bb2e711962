/** The layout grid: how its props become the grid's class list.
    `Transition` rewrites the deprecated `isGapless` prop into `gutter`,
    `GutterClassNames` turns a gutter configuration into responsive
    gutter classes, and `ClassName` composes the whole class attribute.
    The constants of the grid's settings module (GUTTER_VALUES, BREAKPOINTS,
    BASE_CLASS) are not fixed here: they are the `Settings` parameter. */
module LayoutGrid {
  import opened Js

  /** A primitive gutter value, as compared by `Array.prototype.includes`
      (a number and a string never compare equal) and as printed in a template. */
  datatype Token = Num(n: int) | Str(s: string)

  /** The grid's settings: GUTTER_VALUES as a set of tokens, BREAKPOINTS as its
      name-to-value object, BASE_CLASS as a string. */
  datatype Settings = Settings(gutterValues: set<Token>, breakpoints: map<string, string>, baseClass: string)

  /** The `gutter` prop. `Absent` is `undefined`; `Scalar` is a number or a
      string; `PerBreakpoint` is an object, listed in `Object.entries` order. */
  datatype GutterConfig =
    | Absent
    | Null
    | Scalar(token: Token)
    | PerBreakpoint(entries: seq<(string, Token)>)

  /** The grid's props as the component receives them. `gutter == None` means
      the key is missing; `Some(Absent)` means it is present and `undefined`.
      `isGapless` is the truthiness of that prop. */
  datatype GridProps = GridProps(
    alignItems: Option<string>,
    justifyContent: Option<string>,
    gutter: Option<GutterConfig>,
    isGapless: bool)

  /** The props after `transition`: there is no `isGapless`, and `gutter` is always set. */
  datatype LayoutProps = LayoutProps(
    alignItems: Option<string>,
    justifyContent: Option<string>,
    gutter: GutterConfig)

  function DigitValue(c: char): int
  {
    c as int - '0' as int
  }

  predicate IsDigits(text: string)
  {
    forall i :: 0 <= i < |text| ==> '0' <= text[i] <= '9'
  }

  /** The number a string of decimal digits denotes, most significant first. */
  function DecimalValue(digits: string): int
  {
    if |digits| == 0 then 0
    else 10 * DecimalValue(digits[..|digits| - 1]) + DigitValue(digits[|digits| - 1])
  }

  function DigitChar(d: nat): (c: char)
    requires d < 10
    ensures '0' <= c <= '9' && DigitValue(c) == d
  {
    ('0' as int + d) as char
  }

  /** The decimal text of a natural number: digits only, no leading zero,
      and reading it back gives the number. */
  function NatText(n: nat): (r: string)
    ensures r != "" && IsDigits(r)
    ensures r[0] == '0' ==> r == "0"
    ensures DecimalValue(r) == n
    decreases n
  {
    if n < 10 then [DigitChar(n)]
    else
      var front := NatText(n / 10);
      assert (front + [DigitChar(n % 10)])[..|front|] == front;
      front + [DigitChar(n % 10)]
  }

  /** How a token prints inside a template literal: a string as itself, an
      integer as its decimal text, with a leading `-` exactly when negative. */
  function TokenText(t: Token): (r: string)
    ensures t.Num? ==> r != "" && (r[0] == '-' <==> t.n < 0)
    ensures t.Num? && t.n >= 0 ==> IsDigits(r) && DecimalValue(r) == t.n
    ensures t.Num? && t.n < 0 ==> IsDigits(r[1..]) && DecimalValue(r[1..]) == -t.n
    ensures t.Num? && t.n >= 0 ==> (r[0] == '0' ==> r == "0")
    ensures t.Num? && t.n < 0 ==> |r| >= 2 && r[1] != '0'
    ensures t.Str? ==> r == t.s
  {
    match t
    case Num(n) =>
      if n < 0 then
        assert ("-" + NatText(-n))[1..] == NatText(-n);
        "-" + NatText(-n)
      else NatText(n)
    case Str(s) => s
  }

  predicate TokenTruthy(t: Token)
  {
    match t
    case Num(n) => n != 0
    case Str(s) => s != ""
  }

  /** JavaScript truthiness of a `gutter` value; every object is truthy. */
  predicate GutterTruthy(g: GutterConfig)
  {
    match g
    case Absent => false
    case Null => false
    case Scalar(t) => TokenTruthy(t)
    case PerBreakpoint(_) => true
  }

  predicate Truthy(v: Option<string>)
  {
    v.Some? && v.value != ""
  }

  /** The gutter the deprecated `isGapless` prop stands for. */
  const Gapless: GutterConfig := Scalar(Num(0))

  /** `transition`: `isGapless` is dropped and `gutter` derived. The derived
      value is `(oldProps.gutter || isGapless) ? 0 : undefined`, but a `gutter`
      key of the props is spread after it and so takes its place. */
  function Transition(p: GridProps): (r: LayoutProps)
    ensures r.alignItems == p.alignItems && r.justifyContent == p.justifyContent
    ensures p.gutter.Some? ==> r.gutter == p.gutter.value
    ensures p.gutter.None? && p.isGapless ==> r.gutter == Gapless
    ensures p.gutter.None? && !p.isGapless ==> r.gutter == Absent
  {
    var oldGutter := if p.gutter.Some? then p.gutter.value else Absent;
    var derived := if GutterTruthy(oldGutter) || p.isGapless then Gapless else Absent;
    LayoutProps(p.alignItems, p.justifyContent, if p.gutter.Some? then p.gutter.value else derived)
  }

  /** `BREAKPOINTS.XXS` in a template: "undefined" when the key is missing.
      When it is there, it is one of the breakpoint values. */
  function XxsBreakpoint(s: Settings): (r: string)
    ensures "XXS" in s.breakpoints ==> Recognised(s, r)
    ensures "XXS" !in s.breakpoints ==> r == "undefined"
  {
    if "XXS" in s.breakpoints then s.breakpoints["XXS"] else "undefined"
  }

  /** `Object.values(BREAKPOINTS).includes(key)`. */
  predicate Recognised(s: Settings, key: string)
    ensures Recognised(s, key) <==> exists name :: name in s.breakpoints && s.breakpoints[name] == key
  {
    key in s.breakpoints.Values
  }

  function GutterPrefix(s: Settings): string
  {
    s.baseClass + "--gutter-"
  }

  function GutterClass(s: Settings, breakpoint: string, value: string): string
  {
    GutterPrefix(s) + breakpoint + "-" + value
  }

  function EntryClass(s: Settings, e: (string, Token)): string
  {
    GutterClass(s, e.0, TokenText(e.1))
  }

  /** The `map`/`filter` pipeline over the entries of an object config: one
      class per entry with a recognised key, `null`s dropped. */
  function GutterClassList(s: Settings, entries: seq<(string, Token)>): (classes: seq<string>)
    ensures |classes| <= |entries|
    ensures classes == [] <==> forall e :: e in entries ==> !Recognised(s, e.0)
  {
    if |entries| == 0 then []
    else
      (if Recognised(s, entries[0].0) then [EntryClass(s, entries[0])] else [])
      + GutterClassList(s, entries[1..])
  }

  /** `getGutterClassNames`: `None` is the `null` it returns for a primitive
      that is not a gutter value. A `null` config makes the source throw in
      `Object.entries`, so callers must not pass it. */
  function GutterClassNames(s: Settings, config: GutterConfig): (r: Option<string>)
    requires !config.Null?
    ensures config.Absent? ==> r == Some("")
    ensures config.Scalar? ==> (r.Some? <==> config.token in s.gutterValues)
    ensures config.PerBreakpoint? ==> r.Some?
    ensures config.PerBreakpoint? && (forall e :: e in config.entries ==> !Recognised(s, e.0)) ==> r == Some("")
  {
    var c := if config.Absent? then PerBreakpoint([]) else config;
    if c.Scalar? && c.token in s.gutterValues then
      Some(GutterClass(s, XxsBreakpoint(s), TokenText(c.token)))
    else if c.PerBreakpoint? then
      NoRecognisedKeys(s, c.entries);
      Some(Join(GutterClassList(s, c.entries), " "))
    else
      None
  }

  /** A gutter value given as a scalar gives the same class as an object
      naming the XXS breakpoint with that value. */
  lemma ScalarIsXxsEntry(s: Settings, t: Token)
    requires t in s.gutterValues && "XXS" in s.breakpoints
    ensures GutterClassNames(s, Scalar(t)) == GutterClassNames(s, PerBreakpoint([(XxsBreakpoint(s), t)]))
  {
    var e := (XxsBreakpoint(s), t);
    assert [e][1..] == [];
    assert GutterClassList(s, [e]) == [EntryClass(s, e)];
  }

  /** Entries with unrecognised keys only contribute nothing. */
  lemma {:induction false} NoRecognisedKeys(s: Settings, entries: seq<(string, Token)>)
    ensures (forall e :: e in entries ==> !Recognised(s, e.0)) ==> GutterClassList(s, entries) == []
  {
    if |entries| > 0 {
      NoRecognisedKeys(s, entries[1..]);
      assert forall e :: e in entries[1..] ==> e in entries;
    }
  }

  function Shift(I: seq<nat>): (r: seq<nat>)
    ensures |r| == |I|
    ensures forall k :: 0 <= k < |I| ==> r[k] == I[k] + 1
  {
    seq(|I|, k requires 0 <= k < |I| => I[k] + 1)
  }

  /** The positions of the entries whose key is recognised, in increasing order. */
  function RecognisedIndices(s: Settings, entries: seq<(string, Token)>): seq<nat>
  {
    if |entries| == 0 then []
    else (if Recognised(s, entries[0].0) then [0] else []) + Shift(RecognisedIndices(s, entries[1..]))
  }

  /** Each class is the class of the entry at the matching recognised position. */
  lemma {:induction false} ClassesAtRecognisedIndices(s: Settings, entries: seq<(string, Token)>)
    ensures |GutterClassList(s, entries)| == |RecognisedIndices(s, entries)|
    ensures forall k :: 0 <= k < |RecognisedIndices(s, entries)| ==>
      RecognisedIndices(s, entries)[k] < |entries|
      && Recognised(s, entries[RecognisedIndices(s, entries)[k]].0)
      && GutterClassList(s, entries)[k] == EntryClass(s, entries[RecognisedIndices(s, entries)[k]])
  {
    if |entries| > 0 {
      var tail := entries[1..];
      ClassesAtRecognisedIndices(s, tail);
      var L', I' := GutterClassList(s, tail), RecognisedIndices(s, tail);
      var L, I := GutterClassList(s, entries), RecognisedIndices(s, entries);
      var pre: seq<string> := if Recognised(s, entries[0].0) then [EntryClass(s, entries[0])] else [];
      var preI: seq<nat> := if Recognised(s, entries[0].0) then [0] else [];
      assert L == pre + L';
      assert I == preI + Shift(I');
      var h := |preI|;
      assert |pre| == h;
      forall k | 0 <= k < |I|
        ensures I[k] < |entries| && Recognised(s, entries[I[k]].0) && L[k] == EntryClass(s, entries[I[k]])
      {
        if k < h {
          assert I[k] == 0 && L[k] == EntryClass(s, entries[0]);
        } else {
          var i' := I'[k - h];
          assert I[k] == i' + 1 && L[k] == L'[k - h];
          assert entries[i' + 1] == tail[i'];
        }
      }
    }
  }

  /** The recognised positions are strictly increasing. */
  lemma {:induction false} RecognisedIndicesIncrease(s: Settings, entries: seq<(string, Token)>)
    ensures forall k :: 0 <= k < |RecognisedIndices(s, entries)| ==> RecognisedIndices(s, entries)[k] < |entries|
    ensures forall k, m :: 0 <= k < m < |RecognisedIndices(s, entries)| ==>
      RecognisedIndices(s, entries)[k] < RecognisedIndices(s, entries)[m]
  {
    if |entries| > 0 {
      RecognisedIndicesIncrease(s, entries[1..]);
    }
  }

  /** Every entry with a recognised key has its position listed. */
  lemma {:induction false} RecognisedIndicesComplete(s: Settings, entries: seq<(string, Token)>)
    ensures forall j :: 0 <= j < |entries| && Recognised(s, entries[j].0) ==> j in RecognisedIndices(s, entries)
  {
    if |entries| > 0 {
      var tail := entries[1..];
      RecognisedIndicesComplete(s, tail);
      var I', I := RecognisedIndices(s, tail), RecognisedIndices(s, entries);
      var h := if Recognised(s, entries[0].0) then 1 else 0;
      forall j | 0 < j < |entries| && Recognised(s, entries[j].0) ensures j in I {
        assert tail[j - 1] == entries[j];
        var k :| 0 <= k < |I'| && I'[k] == j - 1;
        assert I[k + h] == j;
      }
    }
  }

  /** The classes of an object config are exactly the entries with a
      recognised key, one class each, in entry order; the values are printed
      as they are, without checking them against the gutter values. */
  lemma GutterClassesFollowEntries(s: Settings, entries: seq<(string, Token)>)
    ensures |GutterClassList(s, entries)| == |RecognisedIndices(s, entries)|
    ensures forall k :: 0 <= k < |RecognisedIndices(s, entries)| ==>
      RecognisedIndices(s, entries)[k] < |entries|
      && Recognised(s, entries[RecognisedIndices(s, entries)[k]].0)
      && GutterClassList(s, entries)[k] == EntryClass(s, entries[RecognisedIndices(s, entries)[k]])
    ensures forall k, m :: 0 <= k < m < |RecognisedIndices(s, entries)| ==>
      RecognisedIndices(s, entries)[k] < RecognisedIndices(s, entries)[m]
    ensures forall j :: 0 <= j < |entries| && Recognised(s, entries[j].0) ==>
      j in RecognisedIndices(s, entries)
  {
    ClassesAtRecognisedIndices(s, entries);
    RecognisedIndicesIncrease(s, entries);
    RecognisedIndicesComplete(s, entries);
  }

  /** An object config gives at most one class per entry, and exactly one
      per entry when every key is recognised. */
  lemma {:induction false} GutterClassCount(s: Settings, entries: seq<(string, Token)>)
    ensures |GutterClassList(s, entries)| <= |entries|
    ensures (forall e :: e in entries ==> Recognised(s, e.0)) ==> |GutterClassList(s, entries)| == |entries|
  {
    if |entries| > 0 {
      GutterClassCount(s, entries[1..]);
      assert forall e :: e in entries[1..] ==> e in entries;
    }
  }

  /** Appending entries appends their classes: the class order is the entry order. */
  lemma {:induction false} GutterClassesAppend(s: Settings, a: seq<(string, Token)>, b: seq<(string, Token)>)
    ensures GutterClassList(s, a + b) == GutterClassList(s, a) + GutterClassList(s, b)
  {
    if |a| > 0 {
      assert (a + b)[1..] == a[1..] + b;
      GutterClassesAppend(s, a[1..], b);
    } else {
      assert a + b == b;
    }
  }

  /** A scalar gutter value is one class anchored at the XXS breakpoint; when
      no part of it contains a space, splitting the string on spaces gives
      back that single class. */
  lemma ScalarGutterClass(s: Settings, t: Token)
    requires t in s.gutterValues
    ensures GutterClassNames(s, Scalar(t)) == Some(s.baseClass + "--gutter-" + XxsBreakpoint(s) + "-" + TokenText(t))
    ensures ' ' !in GutterClass(s, XxsBreakpoint(s), TokenText(t)) ==>
      Split(GutterClassNames(s, Scalar(t)).value, ' ') == [GutterClass(s, XxsBreakpoint(s), TokenText(t))]
  {
    var c := GutterClass(s, XxsBreakpoint(s), TokenText(t));
    if ' ' !in c {
      SplitWithoutSeparator(c, ' ');
    }
  }

  /** A primitive that is not a gutter value gives `null`. */
  lemma UnknownScalarIsNull(s: Settings, t: Token)
    requires t !in s.gutterValues
    ensures GutterClassNames(s, Scalar(t)).None?
  {
  }

  /** When no class contains a space, the string of an object config splits
      back into its classes. */
  lemma GutterClassesSplit(s: Settings, entries: seq<(string, Token)>)
    requires GutterClassList(s, entries) != []
    requires forall c :: c in GutterClassList(s, entries) ==> ' ' !in c
    ensures Split(GutterClassNames(s, PerBreakpoint(entries)).value, ' ') == GutterClassList(s, entries)
  {
    SplitJoin(GutterClassList(s, entries), ' ');
  }

  /** Every class of an object config starts with the gutter prefix. */
  lemma GutterClassesPrefixed(s: Settings, entries: seq<(string, Token)>)
    ensures forall c :: c in GutterClassList(s, entries) ==>
      |GutterPrefix(s)| < |c| && c[..|GutterPrefix(s)|] == GutterPrefix(s)
  {
    GutterClassesFollowEntries(s, entries);
  }

  /** A non-empty gutter string starts with the gutter prefix. */
  lemma GutterStringPrefixed(s: Settings, config: GutterConfig)
    requires !config.Null?
    requires GutterClassNames(s, config).Some? && GutterClassNames(s, config).value != ""
    ensures |GutterPrefix(s)| < |GutterClassNames(s, config).value|
    ensures GutterClassNames(s, config).value[..|GutterPrefix(s)|] == GutterPrefix(s)
  {
    if config.PerBreakpoint? {
      var L := GutterClassList(s, config.entries);
      GutterClassesPrefixed(s, config.entries);
      JoinStartsWithFirst(L, " ");
      assert L[0] in L;
    }
  }

  /** The `--ai-` class for an `alignItems` value. */
  function AlignClass(s: Settings, v: string): string
  {
    s.baseClass + "--ai-" + v
  }

  /** The `--jc-` class for a `justifyContent` value. */
  function JustifyClass(s: Settings, v: string): string
  {
    s.baseClass + "--jc-" + v
  }

  /** What `getGutterClassNames` hands to `cx`: its string, or a falsy `null`. */
  function GutterArg(s: Settings, g: GutterConfig): string
    requires !g.Null?
  {
    match GutterClassNames(s, g)
    case None => ""
    case Some(text) => text
  }

  predicate GutterNotNull(p: GridProps)
  {
    p.gutter != Some(Null)
  }

  /** The arguments `LayoutGrid` passes to `cx`, falsy ones written "". */
  function ClassArgs(s: Settings, p: GridProps): (args: seq<string>)
    requires GutterNotNull(p)
    ensures |args| == 4 && args[0] == s.baseClass
    ensures args[1] != "" <==> Truthy(p.alignItems)
    ensures args[2] != "" <==> Truthy(p.justifyContent)
    ensures args[3] == GutterArg(s, Transition(p).gutter)
  {
    var q := Transition(p);
    [ s.baseClass,
      if Truthy(q.alignItems) then AlignClass(s, q.alignItems.value) else "",
      if Truthy(q.justifyContent) then JustifyClass(s, q.justifyContent.value) else "",
      GutterArg(s, q.gutter) ]
  }

  /** The grid's class attribute. */
  function ClassName(s: Settings, p: GridProps): (r: string)
    requires GutterNotNull(p)
    ensures r == "" <==>
      s.baseClass == "" && !Truthy(p.alignItems) && !Truthy(p.justifyContent)
      && GutterArg(s, Transition(p).gutter) == ""
  {
    var args := ClassArgs(s, p);
    assert args == [args[0], args[1], args[2], args[3]];
    assert (forall x :: x in args ==> x == "") <==> args[0] == args[1] == args[2] == args[3] == "" by {
      assert args[0] in args && args[1] in args && args[2] in args && args[3] in args;
    }
    Cx(args)
  }

  /** The `cx` arguments with the falsy ones dropped. */
  lemma ClassListShape(s: Settings, p: GridProps)
    requires GutterNotNull(p)
    ensures var g := GutterArg(s, Transition(p).gutter);
      KeepNonEmpty(ClassArgs(s, p))
      == (if s.baseClass != "" then [s.baseClass] else [])
       + (if Truthy(p.alignItems) then [AlignClass(s, p.alignItems.value)] else [])
       + (if Truthy(p.justifyContent) then [JustifyClass(s, p.justifyContent.value)] else [])
       + (if g != "" then [g] else [])
  {
    var args := ClassArgs(s, p);
    KeepNonEmptyOfFour(args[0], args[1], args[2], args[3]);
    assert args == [args[0], args[1], args[2], args[3]];
  }

  /** The base class, an `--ai-` class, a `--jc-` class and a gutter string are pairwise different. */
  lemma ClassKindsDiffer(s: Settings, a: string, j: string, g: string)
    requires |GutterPrefix(s)| < |g| && g[..|GutterPrefix(s)|] == GutterPrefix(s)
    ensures AlignClass(s, a) != s.baseClass && AlignClass(s, a) != JustifyClass(s, j) && AlignClass(s, a) != g
    ensures JustifyClass(s, j) != s.baseClass && JustifyClass(s, j) != g
    ensures s.baseClass != g
  {
    var n := |s.baseClass|;
    assert AlignClass(s, a)[n + 2] == 'a';
    assert JustifyClass(s, j)[n + 2] == 'j';
    assert GutterPrefix(s)[n + 2] == 'g';
  }

  /** The composed class list: BASE_CLASS first, then the `--ai-` class exactly
      when `alignItems` is truthy, the `--jc-` class exactly when
      `justifyContent` is truthy, and the gutter classes last. */
  lemma ClassListOrder(s: Settings, p: GridProps)
    requires GutterNotNull(p)
    ensures var L := KeepNonEmpty(ClassArgs(s, p));
      var g := GutterArg(s, Transition(p).gutter);
      && |L| == (if s.baseClass != "" then 1 else 0) + (if Truthy(p.alignItems) then 1 else 0)
                + (if Truthy(p.justifyContent) then 1 else 0) + (if g != "" then 1 else 0)
      && (s.baseClass != "" ==> L[0] == s.baseClass)
      && (g != "" ==> L[|L| - 1] == g)
      && (p.alignItems.Some? ==> (AlignClass(s, p.alignItems.value) in L <==> Truthy(p.alignItems)))
      && (p.justifyContent.Some? ==> (JustifyClass(s, p.justifyContent.value) in L <==> Truthy(p.justifyContent)))
  {
    ClassListShape(s, p);
    var g := GutterArg(s, Transition(p).gutter);
    var a := if p.alignItems.Some? then p.alignItems.value else "";
    var j := if p.justifyContent.Some? then p.justifyContent.value else "";
    if g != "" {
      GutterStringPrefixed(s, Transition(p).gutter);
      ClassKindsDiffer(s, a, j, g);
    } else {
      ClassKindsDiffer(s, a, j, GutterPrefix(s) + " ");
    }
  }

  /** The class attribute always starts with BASE_CLASS and ends with the gutter classes. */
  lemma ClassNameBounds(s: Settings, p: GridProps)
    requires GutterNotNull(p)
    ensures var c := ClassName(s, p);
      && |s.baseClass| <= |c| && c[..|s.baseClass|] == s.baseClass
      && var g := GutterArg(s, Transition(p).gutter);
         |g| <= |c| && c[|c| - |g|..] == g
  {
    ClassListOrder(s, p);
    var L := KeepNonEmpty(ClassArgs(s, p));
    var g := GutterArg(s, Transition(p).gutter);
    if s.baseClass != "" {
      JoinStartsWithFirst(L, " ");
    }
    if g != "" {
      JoinEndsWithLast(L, " ");
    }
  }

  /** A grid without `gutter` and without `isGapless` gets no gutter class. */
  lemma NoGutterNoGutterClass(s: Settings, p: GridProps)
    requires p.gutter.None? && !p.isGapless
    ensures GutterArg(s, Transition(p).gutter) == ""
    ensures KeepNonEmpty(ClassArgs(s, p)) == KeepNonEmpty(ClassArgs(s, p)[..3])
  {
    var args := ClassArgs(s, p);
    assert args == args[..3] + [args[3]];
    KeepNonEmptyAppend(args[..3], [args[3]]);
  }
}
