/** The few JavaScript built-ins the components rely on, as functions on
    strings and sequences of strings: Array.prototype.join, String.prototype.split
    on a one-character separator, split('') and filter(Boolean), plus the
    classnames helper `cx`. The lemmas relate join and split to each other. */
module Js {

  datatype Option<T> = None | Some(value: T)

  /** The number of characters in all the parts together. */
  function TotalLength(parts: seq<string>): nat
  {
    if |parts| == 0 then 0 else |parts[0]| + TotalLength(parts[1..])
  }

  /** `parts.join(sep)`: the parts with `sep` between neighbours; `[]` joins to "".
      Its length is that of the parts plus one separator between each pair. */
  function Join(parts: seq<string>, sep: string): (r: string)
    ensures |parts| == 0 ==> r == ""
    ensures |parts| >= 1 ==> |r| == TotalLength(parts) + (|parts| - 1) * |sep|
  {
    if |parts| == 0 then ""
    else if |parts| == 1 then parts[0]
    else parts[0] + sep + Join(parts[1..], sep)
  }

  /** `s.split(c)` for a one-character separator `c`: always at least one piece,
      and no piece contains the separator. */
  function Split(s: string, c: char): (pieces: seq<string>)
    ensures |pieces| >= 1
    ensures forall p :: p in pieces ==> c !in p
    decreases |s|
  {
    if |s| == 0 then [""]
    else
      var rest := Split(s[1..], c);
      if s[0] == c then [""] + rest
      else [[s[0]] + rest[0]] + rest[1..]
  }

  /** `s.split('')`: every character of `s` as a string of its own. */
  function Chars(s: string): (cells: seq<string>)
    ensures |cells| == |s|
    ensures forall i :: 0 <= i < |s| ==> cells[i] == [s[i]]
  {
    seq(|s|, i requires 0 <= i < |s| => [s[i]])
  }

  /** `parts.filter(Boolean)` on strings: the empty string is the only falsy one. */
  function KeepNonEmpty(parts: seq<string>): (kept: seq<string>)
    ensures |kept| <= |parts|
    ensures forall p :: p in kept ==> p != ""
  {
    if |parts| == 0 then []
    else (if parts[0] != "" then [parts[0]] else []) + KeepNonEmpty(parts[1..])
  }

  /** The classnames helper `cx`, for arguments that are strings or falsy
      values (written ""): the non-empty ones, in order, separated by one space. */
  function Cx(parts: seq<string>): (r: string)
    ensures r == "" <==> forall p :: p in parts ==> p == ""
  {
    var kept := KeepNonEmpty(parts);
    KeepNonEmptyShape(parts);
    assert |kept| > 0 ==> kept[0] in kept;
    Join(kept, " ")
  }

  lemma {:induction false} KeepNonEmptyShape(parts: seq<string>)
    ensures |KeepNonEmpty(parts)| <= |parts|
    ensures forall p :: p in KeepNonEmpty(parts) <==> p in parts && p != ""
  {
    if |parts| > 0 {
      KeepNonEmptyShape(parts[1..]);
      assert parts == [parts[0]] + parts[1..];
    }
  }

  lemma {:induction false} KeepNonEmptyAppend(a: seq<string>, b: seq<string>)
    ensures KeepNonEmpty(a + b) == KeepNonEmpty(a) + KeepNonEmpty(b)
  {
    if |a| > 0 {
      assert (a + b)[1..] == a[1..] + b;
      KeepNonEmptyAppend(a[1..], b);
    } else {
      assert a + b == b;
    }
  }

  /** filter(Boolean) on four arguments, the shape `cx` sees. */
  lemma KeepNonEmptyOfFour(a: string, b: string, c: string, d: string)
    ensures KeepNonEmpty([a, b, c, d])
      == (if a != "" then [a] else []) + (if b != "" then [b] else [])
       + (if c != "" then [c] else []) + (if d != "" then [d] else [])
  {
    assert [a, b, c, d][1..] == [b, c, d];
    assert [b, c, d][1..] == [c, d];
    assert [c, d][1..] == [d];
    assert [d][1..] == [];
    assert KeepNonEmpty([d]) == (if d != "" then [d] else []);
    assert KeepNonEmpty([c, d]) == (if c != "" then [c] else []) + KeepNonEmpty([d]);
    assert KeepNonEmpty([b, c, d]) == (if b != "" then [b] else []) + KeepNonEmpty([c, d]);
  }

  /** Joining with a separator is the head, the separator, then the rest. */
  lemma JoinCons(p: string, tail: seq<string>, sep: string)
    requires |tail| >= 1
    ensures Join([p] + tail, sep) == p + sep + Join(tail, sep)
  {
  }

  /** Prepending text to the first part prepends it to the joined string. */
  lemma JoinPrependFirst(x: string, parts: seq<string>, sep: string)
    requires |parts| >= 1
    ensures Join([x + parts[0]] + parts[1..], sep) == x + Join(parts, sep)
  {
    if |parts| > 1 {
      JoinCons(x + parts[0], parts[1..], sep);
    }
  }

  /** The first part is a prefix of the joined string. */
  lemma JoinStartsWithFirst(parts: seq<string>, sep: string)
    requires |parts| >= 1
    ensures |parts[0]| <= |Join(parts, sep)|
    ensures Join(parts, sep)[..|parts[0]|] == parts[0]
  {
  }

  /** The last part is a suffix of the joined string. */
  lemma {:induction false} JoinEndsWithLast(parts: seq<string>, sep: string)
    requires |parts| >= 1
    ensures |parts[|parts| - 1]| <= |Join(parts, sep)|
    ensures Join(parts, sep)[|Join(parts, sep)| - |parts[|parts| - 1]|..] == parts[|parts| - 1]
  {
    if |parts| > 1 {
      JoinEndsWithLast(parts[1..], sep);
      var j := Join(parts[1..], sep);
      var last := parts[|parts| - 1];
      assert Join(parts, sep) == parts[0] + sep + j;
      assert (parts[0] + sep + j)[|parts[0] + sep + j| - |last|..] == j[|j| - |last|..];
    }
  }

  /** Splitting a string that does not contain the separator yields that string. */
  lemma {:induction false} SplitWithoutSeparator(a: string, c: char)
    requires c !in a
    ensures Split(a, c) == [a]
    decreases |a|
  {
    if |a| > 0 {
      SplitWithoutSeparator(a[1..], c);
      assert [a[0]] + a[1..] == a;
    }
  }

  /** A piece free of the separator, then the separator, is split off as one piece. */
  lemma {:induction false} SplitAtFirstSeparator(a: string, c: char, b: string)
    requires c !in a
    ensures Split(a + [c] + b, c) == [a] + Split(b, c)
    decreases |a|
  {
    if |a| == 0 {
      assert a + [c] + b == [c] + b;
      assert ([c] + b)[1..] == b;
    } else {
      var s := a + [c] + b;
      assert s[0] == a[0] && s[1..] == a[1..] + [c] + b;
      SplitAtFirstSeparator(a[1..], c, b);
      assert [a[0]] + a[1..] == a;
    }
  }

  /** Split undoes Join when no part contains the separator. */
  lemma {:induction false} SplitJoin(parts: seq<string>, c: char)
    requires |parts| >= 1
    requires forall p :: p in parts ==> c !in p
    ensures Split(Join(parts, [c]), c) == parts
  {
    if |parts| == 1 {
      SplitWithoutSeparator(parts[0], c);
    } else {
      SplitJoin(parts[1..], c);
      SplitAtFirstSeparator(parts[0], c, Join(parts[1..], [c]));
      assert [parts[0]] + parts[1..] == parts;
    }
  }

  /** Join undoes Split, for every string. */
  lemma {:induction false} JoinSplit(s: string, c: char)
    ensures Join(Split(s, c), [c]) == s
    decreases |s|
  {
    if |s| > 0 {
      var rest := Split(s[1..], c);
      JoinSplit(s[1..], c);
      if s[0] == c {
        JoinCons("", rest, [c]);
      } else {
        JoinPrependFirst([s[0]], rest, [c]);
      }
      assert [s[0]] + s[1..] == s;
    }
  }

  /** Joining with "" ignores empty parts, so filter(Boolean) does not change it. */
  lemma {:induction false} ConcatIgnoresEmpty(parts: seq<string>)
    ensures Join(KeepNonEmpty(parts), "") == Join(parts, "")
  {
    if |parts| > 0 {
      ConcatIgnoresEmpty(parts[1..]);
      ConcatIsAppend(parts);
      if parts[0] != "" {
        ConcatIsAppend(KeepNonEmpty(parts));
        assert KeepNonEmpty(parts)[1..] == KeepNonEmpty(parts[1..]);
      } else {
        assert KeepNonEmpty(parts) == KeepNonEmpty(parts[1..]);
      }
    }
  }

  /** With the empty separator, Join is plain concatenation. */
  lemma ConcatIsAppend(parts: seq<string>)
    requires |parts| >= 1
    ensures Join(parts, "") == parts[0] + Join(parts[1..], "")
  {
  }
}
