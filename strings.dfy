/**
 * Text helpers with the semantics of the Python built-ins the source uses:
 * `str.lower` (ASCII letters only), `str.strip`, `sep.join`, `str.split(sep)`,
 * `'%d' % n`, and Python's code-point ordering of strings.
 */
module Strings {

  import opened Wrappers

  /** `c.lower()` restricted to ASCII letters. */
  function LowerChar(c: char): (r: char)
    ensures 'A' <= c <= 'Z' ==> r as int == c as int + 32
    ensures !('A' <= c <= 'Z') ==> r == c
  {
    if 'A' <= c <= 'Z' then (c as int + 32) as char else c
  }

  function Lower(s: string): (r: string)
    ensures |r| == |s|
    ensures forall i :: 0 <= i < |s| ==> r[i] == LowerChar(s[i])
  {
    if s == [] then [] else [LowerChar(s[0])] + Lower(s[1..])
  }

  /** The characters `str.isspace()` accepts. */
  predicate IsSpace(c: char)
  {
    c == ' ' || '\t' <= c <= '\r' || '\U{1C}' <= c <= '\U{1F}' || c == '\U{85}' || c == '\U{A0}'
    || c == '\U{1680}' || '\U{2000}' <= c <= '\U{200A}' || c == '\U{2028}' || c == '\U{2029}'
    || c == '\U{202F}' || c == '\U{205F}' || c == '\U{3000}'
  }

  /** Lower-casing neither makes nor unmakes whitespace. */
  lemma LowerCharSpace(c: char)
    ensures IsSpace(LowerChar(c)) <==> IsSpace(c)
  {
  }

  /** `s.strip()`: drop leading and trailing whitespace. */
  function Strip(s: string): (r: string)
    ensures |r| <= |s|
  {
    if s != [] && IsSpace(s[0]) then Strip(s[1..])
    else if s != [] && IsSpace(s[|s| - 1]) then Strip(s[..|s| - 1])
    else s
  }

  /** Text that neither starts nor ends with whitespace keeps its length when lower-cased and stripped. */
  lemma StripLowerLength(t: string)
    requires t != [] && !IsSpace(t[0]) && !IsSpace(t[|t| - 1])
    ensures |Strip(Lower(t))| == |t|
  {
    LowerCharSpace(t[0]);
    LowerCharSpace(t[|t| - 1]);
  }

  /** Text with one leading space before a word loses exactly that space when lower-cased and stripped. */
  lemma StripLowerLeadingSpace(y: string)
    requires |y| >= 2 && IsSpace(y[0]) && !IsSpace(y[1]) && !IsSpace(y[|y| - 1])
    ensures |Strip(Lower(y))| == |y| - 1
  {
    var t := y[1..];
    LowerCharSpace(y[0]);
    assert Lower(y)[1..] == Lower(t);
    StripLowerLength(t);
  }

  /** Whitespace around text that neither starts nor ends with whitespace is all `strip` removes. */
  lemma {:induction false} StripSurrounded(lead: string, t: string, trail: string)
    requires forall i :: 0 <= i < |lead| ==> IsSpace(lead[i])
    requires forall i :: 0 <= i < |trail| ==> IsSpace(trail[i])
    requires t != [] && !IsSpace(t[0]) && !IsSpace(t[|t| - 1])
    ensures Strip(lead + t + trail) == t
    decreases |lead| + |trail|
  {
    var s := lead + t + trail;
    if lead != [] {
      assert s[0] == lead[0] && s[1..] == lead[1..] + t + trail;
      StripSurrounded(lead[1..], t, trail);
    } else if trail != [] {
      assert s == t + trail && s[0] == t[0] && s[|s| - 1] == trail[|trail| - 1];
      assert s[..|s| - 1] == lead + t + trail[..|trail| - 1];
      StripSurrounded(lead, t, trail[..|trail| - 1]);
    } else {
      assert s == t;
    }
  }

  /** `sep.join(parts)`. */
  function Join(sep: string, parts: seq<string>): (r: string)
    ensures parts == [] ==> r == ""
    ensures |parts| == 1 ==> r == parts[0]
  {
    if parts == [] then "" else if |parts| == 1 then parts[0] else parts[0] + sep + Join(sep, parts[1..])
  }

  lemma {:induction false} JoinLength(sep: string, parts: seq<string>)
    requires parts != []
    ensures |Join(sep, parts)| == (|parts| - 1) * |sep| + SumLengths(parts)
  {
    if |parts| > 1 {
      JoinLength(sep, parts[1..]);
    }
  }

  /** A part holding the separator joins to the same text as its two halves would as separate parts. */
  lemma {:induction false} JoinInnerSeparator(sep: string, a: seq<string>, x: string, y: string, b: seq<string>)
    ensures Join(sep, a + [x + sep + y] + b) == Join(sep, a + [x, y] + b)
  {
    if a == [] {
      assert a + [x + sep + y] + b == [x + sep + y] + b;
      assert a + [x, y] + b == [x, y] + b;
      assert ([x, y] + b)[1..] == [y] + b;
      if b != [] {
        assert ([x + sep + y] + b)[1..] == b;
        assert ([y] + b)[1..] == b;
        ConcatAssociative(x + sep, y, sep + Join(sep, b));
      }
    } else {
      JoinInnerSeparator(sep, a[1..], x, y, b);
      assert (a + [x + sep + y] + b)[1..] == a[1..] + [x + sep + y] + b;
      assert (a + [x, y] + b)[1..] == a[1..] + [x, y] + b;
    }
  }

  function SumLengths(parts: seq<string>): nat
  {
    if parts == [] then 0 else |parts[0]| + SumLengths(parts[1..])
  }

  /** True iff `sub` occurs in `s` at position `i`. */
  predicate OccursAt(s: string, sub: string, i: nat)
  {
    i + |sub| <= |s| && s[i..i + |sub|] == sub
  }

  /** `sub in s`. */
  predicate Contains(s: string, sub: string)
  {
    exists i: nat :: i <= |s| && OccursAt(s, sub, i)
  }

  /** Position of the first occurrence of a non-empty `sep` in `s`, if any. */
  function Find(s: string, sep: string): (r: Option<nat>)
    requires sep != []
    ensures r.Some? ==> OccursAt(s, sep, r.value)
    ensures r.Some? ==> forall j: nat :: j < r.value ==> !OccursAt(s, sep, j)
    ensures r.None? ==> forall j: nat :: j <= |s| ==> !OccursAt(s, sep, j)
    decreases |s|
  {
    if |s| < |sep| then
      assert forall j: nat :: j <= |s| ==> !OccursAt(s, sep, j);
      None
    else if s[..|sep|] == sep then Some(0)
    else
      match Find(s[1..], sep)
      case None =>
        assert forall j: nat :: 1 <= j <= |s| ==> (OccursAt(s, sep, j) <==> OccursAt(s[1..], sep, j - 1));
        None
      case Some(k) =>
        assert forall j: nat :: 1 <= j <= |s| ==> (OccursAt(s, sep, j) <==> OccursAt(s[1..], sep, j - 1));
        Some(k + 1)
  }

  lemma FindContains(s: string, sep: string)
    requires sep != []
    ensures Find(s, sep).Some? <==> Contains(s, sep)
  {
  }

  /** `s.split(sep)` for a non-empty separator: left to right, non-overlapping. */
  function Split(s: string, sep: string): (r: seq<string>)
    requires sep != []
    ensures |r| >= 1
    ensures Join(sep, r) == s
    decreases |s|
  {
    match Find(s, sep)
    case None => [s]
    case Some(i) =>
      var rest := Split(s[i + |sep|..], sep);
      assert s == s[..i] + sep + s[i + |sep|..];
      [s[..i]] + rest
  }

  lemma SplitWithoutSeparator(s: string, sep: string)
    requires sep != [] && !Contains(s, sep)
    ensures Split(s, sep) == [s]
  {
    FindContains(s, sep);
  }

  /** `str.replace(old, new)` for a single character. */
  function ReplaceChar(s: string, from: char, to: char): (r: string)
    ensures |r| == |s|
    ensures forall i :: 0 <= i < |s| ==> r[i] == (if s[i] == from then to else s[i])
  {
    if s == [] then [] else [if s[0] == from then to else s[0]] + ReplaceChar(s[1..], from, to)
  }

  /** `s.replace(c, '')` for a single character: every other character is kept. */
  function RemoveChar(s: string, c: char): (r: string)
    ensures forall x :: x in r <==> x in s && x != c
    ensures c !in s ==> r == s
    ensures |r| <= |s|
  {
    if s == [] then [] else (if s[0] == c then [] else [s[0]]) + RemoveChar(s[1..], c)
  }

  /** One step of the removal: the first character is dropped or kept, then the rest. */
  lemma RemoveCharStep(s: string, c: char)
    requires s != []
    ensures RemoveChar(s, c) == (if s[0] == c then [] else [s[0]]) + RemoveChar(s[1..], c)
  {
  }

  /** Removal works piece by piece, so what remains keeps its order. */
  lemma {:induction false} RemoveCharAppend(a: string, b: string, c: char)
    ensures RemoveChar(a + b, c) == RemoveChar(a, c) + RemoveChar(b, c)
  {
    if a == [] {
      assert a + b == b;
    } else {
      RemoveCharAppend(a[1..], b, c);
      RemoveCharAppendStep(a, b, c);
    }
  }

  /** The inductive step of `RemoveCharAppend`: a first character of `a` stays first. */
  lemma RemoveCharAppendStep(a: string, b: string, c: char)
    requires a != []
    requires RemoveChar(a[1..] + b, c) == RemoveChar(a[1..], c) + RemoveChar(b, c)
    ensures RemoveChar(a + b, c) == RemoveChar(a, c) + RemoveChar(b, c)
  {
    var head, x, y := if a[0] == c then [] else [a[0]], RemoveChar(a[1..], c), RemoveChar(b, c);
    assert RemoveChar(a + b, c) == head + (x + y) by {
      var ab := a + b;
      assert ab[0] == a[0] && ab[1..] == a[1..] + b;
      RemoveCharStep(ab, c);
    }
    assert RemoveChar(a, c) == head + x by {
      RemoveCharStep(a, c);
    }
    ConcatAssociative(head, x, y);
  }

  /** Regrouping a concatenation, stated on its own so that no removal is in sight. */
  lemma ConcatAssociative(h: string, x: string, y: string)
    ensures h + (x + y) == (h + x) + y
  {
  }

  predicate IsDigit(c: char) { '0' <= c <= '9' }

  function DigitChar(d: nat): (c: char)
    requires d < 10
    ensures IsDigit(c)
  {
    ('0' as int + d) as char
  }

  function DigitValue(c: char): (d: nat)
    requires IsDigit(c)
    ensures d < 10 && DigitChar(d) == c
  {
    (c as int - '0' as int)
  }

  /** `'%d' % n` for a natural number. */
  function NatStr(n: nat): (r: string)
    ensures |r| >= 1
    ensures forall i :: 0 <= i < |r| ==> IsDigit(r[i])
    decreases n
  {
    if n < 10 then [DigitChar(n)] else NatStr(n / 10) + [DigitChar(n % 10)]
  }

  /** `'%d' % i` for any integer. */
  function IntStr(i: int): (r: string)
    ensures i >= 0 ==> r == NatStr(i)
    ensures i < 0 ==> r == "-" + NatStr(-i)
  {
    if i >= 0 then NatStr(i) else "-" + NatStr(-i)
  }

  /** The value of a non-empty run of decimal digits. */
  function DigitsValue(s: string): nat
    requires forall i :: 0 <= i < |s| ==> IsDigit(s[i])
  {
    if s == [] then 0 else DigitsValue(s[..|s| - 1]) * 10 + DigitValue(s[|s| - 1])
  }

  lemma {:induction false} NatStrValue(n: nat)
    ensures DigitsValue(NatStr(n)) == n
    decreases n
  {
    if n >= 10 {
      NatStrValue(n / 10);
      var s := NatStr(n / 10) + [DigitChar(n % 10)];
      assert s[..|s| - 1] == NatStr(n / 10);
    }
  }

  /** Python's `a <= b` on strings: code-point lexicographic order, a prefix sorts first. */
  predicate LexLe(a: string, b: string)
  {
    if a == [] then true
    else if b == [] then false
    else if a[0] < b[0] then true
    else if a[0] > b[0] then false
    else LexLe(a[1..], b[1..])
  }

  /** Python's `a < b` on strings. */
  predicate LexLess(a: string, b: string)
  {
    LexLe(a, b) && a != b
  }

  lemma {:induction false} LexLeReflexive(a: string)
    ensures LexLe(a, a)
  {
    if a != [] {
      LexLeReflexive(a[1..]);
    }
  }

  lemma {:induction false} LexLeTotal(a: string, b: string)
    ensures LexLe(a, b) || LexLe(b, a)
  {
    if a != [] && b != [] && a[0] == b[0] {
      LexLeTotal(a[1..], b[1..]);
    }
  }

  lemma {:induction false} LexLeAntisymmetric(a: string, b: string)
    requires LexLe(a, b) && LexLe(b, a)
    ensures a == b
  {
    if a != [] && b != [] {
      LexLeAntisymmetric(a[1..], b[1..]);
      assert a == [a[0]] + a[1..] && b == [b[0]] + b[1..];
    }
  }

  lemma {:induction false} LexLeTransitive(a: string, b: string, c: string)
    requires LexLe(a, b) && LexLe(b, c)
    ensures LexLe(a, c)
  {
    if a != [] && b != [] && c != [] && a[0] == b[0] && b[0] == c[0] {
      LexLeTransitive(a[1..], b[1..], c[1..]);
    }
  }

  /** Python's `a >= b` is `not (a < b)`: exactly `b <= a`. */
  lemma NotLessIsGe(a: string, b: string)
    ensures !LexLess(a, b) <==> LexLe(b, a)
  {
    LexLeTotal(a, b);
    if LexLe(a, b) && LexLe(b, a) {
      LexLeAntisymmetric(a, b);
    }
    if a == b {
      LexLeReflexive(a);
    }
  }

  /** Strings whose first characters differ are ordered by those characters. */
  lemma LexFirstChar(a: string, b: string)
    requires a != [] && b != [] && a[0] < b[0]
    ensures LexLess(a, b) && !LexLe(b, a)
  {
  }

  lemma FindAfterFree(a: string, c: char, b: string)
    requires c !in a
    ensures Find(a + [c] + b, [c]) == Some(|a|)
  {
    var s := a + [c] + b;
    assert OccursAt(s, [c], |a|);
    forall j: nat | j < |a| ensures !OccursAt(s, [c], j) {
      assert s[j] == a[j];
    }
  }

  lemma FindNone(a: string, c: char)
    requires c !in a
    ensures Find(a, [c]).None?
  {
    forall j: nat | j <= |a|
      ensures !OccursAt(a, [c], j)
    {
      if j < |a| {
        assert a[j..j + 1] == [a[j]];
      }
    }
  }

  /** Joining on a character no part contains, then splitting on it, gives the parts back. */
  lemma {:induction false} SplitJoin(parts: seq<string>, c: char)
    requires parts != []
    requires forall i :: 0 <= i < |parts| ==> c !in parts[i]
    ensures Split(Join([c], parts), [c]) == parts
  {
    if |parts| == 1 {
      FindNone(parts[0], c);
    } else {
      var rest := Join([c], parts[1..]);
      assert Join([c], parts) == parts[0] + [c] + rest;
      FindAfterFree(parts[0], c, rest);
      var s := parts[0] + [c] + rest;
      assert s[|parts[0]| + 1..] == rest;
      assert s[..|parts[0]|] == parts[0];
      SplitAtFirst(s, [c], |parts[0]|);
      SplitJoin(parts[1..], c);
      assert parts == [parts[0]] + parts[1..];
    }
  }

  lemma SplitAtFirst(s: string, sep: string, i: nat)
    requires sep != [] && Find(s, sep) == Some(i)
    ensures i + |sep| <= |s|
    ensures Split(s, sep) == [s[..i]] + Split(s[i + |sep|..], sep)
  {
  }
}
