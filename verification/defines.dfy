/**
 * Shader define lists (shader_compiler/defines.h): splitting a comma
 * separated list into wide strings, and the FNV-1a 64 hash of the sorted
 * list that names a compiled shader variant.
 */
module Defines {
  import opened Bytes

  const COMMA: byte := 0x2C
  const FNV_PRIME: nat := 1099511628211
  const FNV_OFFSET_BASIS: nat := 14695981039346656037

  /** A std::string as its bytes. */
  type NarrowString = seq<byte>
  /** A std::wstring as its wchar_t values (a signed 32-bit wchar_t). */
  type WideString = seq<int>

  /** The value of a `char`, which is signed. */
  function CharValue(b: byte): (v: int)
    ensures -128 <= v < 128
    ensures v % TWO_8 == b
  {
    if b < 0x80 then b else b - TWO_8
  }

  /** `std::wstring(d.c_str(), d.c_str() + d.size())`: each char keeps its (signed) value. */
  function Widen(s: NarrowString): (w: WideString)
    ensures |w| == |s|
    ensures forall i :: 0 <= i < |s| ==> w[i] == CharValue(s[i])
  {
    if |s| == 0 then [] else [CharValue(s[0])] + Widen(s[1..])
  }

  /** `std::string(define.begin(), define.end())`: each wchar_t is truncated to a char. */
  function Narrow(w: WideString): (s: NarrowString)
    ensures |s| == |w|
    ensures forall i :: 0 <= i < |w| ==> s[i] == w[i] % TWO_8
  {
    if |w| == 0 then [] else [w[0] % TWO_8] + Narrow(w[1..])
  }

  /** Widening then narrowing gives back the original bytes. */
  lemma NarrowWiden(s: NarrowString)
    ensures Narrow(Widen(s)) == s
  {
  }

  // StringSplit::Split(s, ','), whose definition is not part of this model:
  // the pieces between separators, empty pieces included.

  function Split(s: NarrowString, sep: byte): (pieces: seq<NarrowString>)
    ensures |pieces| >= 1
    ensures forall i :: 0 <= i < |pieces| ==> sep !in pieces[i]
  {
    if |s| == 0 then [[]]
    else
      var rest := Split(s[1..], sep);
      if s[0] == sep then [[]] + rest else [[s[0]] + rest[0]] + rest[1..]
  }

  /** The pieces with `sep` between consecutive ones. */
  function JoinWith(pieces: seq<NarrowString>, sep: byte): NarrowString
    requires |pieces| >= 1
  {
    if |pieces| == 1 then pieces[0] else pieces[0] + [sep] + JoinWith(pieces[1..], sep)
  }

  /** Splitting loses nothing: joining the pieces with the separator gives the input back. */
  lemma {:induction false} JoinSplit(s: NarrowString, sep: byte)
    ensures JoinWith(Split(s, sep), sep) == s
  {
    if |s| > 0 {
      var rest := Split(s[1..], sep);
      JoinSplit(s[1..], sep);
      if s[0] != sep {
        if |rest| == 1 {
          assert JoinWith(rest, sep) == rest[0];
        } else {
          assert rest == [rest[0]] + rest[1..];
          assert JoinWith(rest, sep) == rest[0] + [sep] + JoinWith(rest[1..], sep);
          assert ([[s[0]] + rest[0]] + rest[1..])[1..] == rest[1..];
        }
      } else {
        assert ([[]] + rest)[1..] == rest;
      }
    }
  }

  /** GetDefines (lines 9-20): one wide string per comma separated piece. */
  method GetDefines(commaSeparatedDefines: NarrowString) returns (wideDefines: seq<WideString>)
    ensures var pieces := Split(commaSeparatedDefines, COMMA);
      |wideDefines| == |pieces| && forall i :: 0 <= i < |pieces| ==> wideDefines[i] == Widen(pieces[i])
  {
    var defines := Split(commaSeparatedDefines, COMMA);
    wideDefines := [];
    for i := 0 to |defines|
      invariant |wideDefines| == i
      invariant forall j :: 0 <= j < i ==> wideDefines[j] == Widen(defines[j])
    {
      wideDefines := wideDefines + [Widen(defines[i])];
    }
  }

  /** Narrowing the defines back and joining them with ',' recovers the input list. */
  lemma GetDefinesRoundTrip(s: NarrowString, wide: seq<WideString>)
    requires var pieces := Split(s, COMMA);
      |wide| == |pieces| && forall i :: 0 <= i < |pieces| ==> wide[i] == Widen(pieces[i])
    ensures |wide| >= 1
    ensures JoinWith(NarrowAll(wide), COMMA) == s
  {
    var pieces := Split(s, COMMA);
    forall i | 0 <= i < |pieces|
      ensures NarrowAll(wide)[i] == pieces[i]
    {
      NarrowWiden(pieces[i]);
    }
    assert NarrowAll(wide) == pieces;
    JoinSplit(s, COMMA);
  }

  function NarrowAll(ws: seq<WideString>): (r: seq<NarrowString>)
    ensures |r| == |ws| && forall i :: 0 <= i < |ws| ==> r[i] == Narrow(ws[i])
  {
    if |ws| == 0 then [] else [Narrow(ws[0])] + NarrowAll(ws[1..])
  }

  // std::sort on std::wstring: lexicographic order of wchar_t values.

  predicate Less(a: WideString, b: WideString)
  {
    if |a| == 0 then |b| > 0
    else if |b| == 0 then false
    else a[0] < b[0] || (a[0] == b[0] && Less(a[1..], b[1..]))
  }

  predicate LessEq(a: WideString, b: WideString)
  {
    a == b || Less(a, b)
  }

  lemma {:induction false} LessTotal(a: WideString, b: WideString)
    ensures a == b || Less(a, b) || Less(b, a)
  {
    if |a| > 0 && |b| > 0 && a[0] == b[0] {
      LessTotal(a[1..], b[1..]);
      if a[1..] == b[1..] {
        assert a == [a[0]] + a[1..] && b == [b[0]] + b[1..];
      }
    }
  }

  lemma {:induction false} LessAsymmetric(a: WideString, b: WideString)
    ensures !(Less(a, b) && Less(b, a))
  {
    if |a| > 0 && |b| > 0 && a[0] == b[0] {
      LessAsymmetric(a[1..], b[1..]);
    }
  }

  lemma {:induction false} LessTransitive(a: WideString, b: WideString, c: WideString)
    requires Less(a, b) && Less(b, c)
    ensures Less(a, c)
  {
    if |a| > 0 && a[0] == b[0] && b[0] == c[0] {
      LessTransitive(a[1..], b[1..], c[1..]);
    }
  }

  lemma LessEqTransitive(a: WideString, b: WideString, c: WideString)
    requires LessEq(a, b) && LessEq(b, c)
    ensures LessEq(a, c)
  {
    if a != b && b != c {
      LessTransitive(a, b, c);
    }
  }

  predicate Sorted(s: seq<WideString>)
  {
    forall i, j :: 0 <= i < j < |s| ==> LessEq(s[i], s[j])
  }

  /** Inserts x before the first element not below it. */
  function Insert(x: WideString, s: seq<WideString>): (r: seq<WideString>)
    requires Sorted(s)
    ensures Sorted(r)
    ensures multiset(r) == multiset(s) + multiset{x}
  {
    if |s| == 0 then [x]
    else if LessEq(x, s[0]) then
      SortedCons(x, s);
      [x] + s
    else
      SortedTail(s);
      var rest := Insert(x, s[1..]);
      LessTotal(x, s[0]);
      HeadBelowInserted(x, s, rest);
      SortedCons(s[0], rest);
      assert s == [s[0]] + s[1..];
      [s[0]] + rest
  }

  /** Putting an element no greater than the head in front keeps a list sorted. */
  lemma SortedCons(x: WideString, s: seq<WideString>)
    requires Sorted(s) && (|s| > 0 ==> LessEq(x, s[0]))
    ensures Sorted([x] + s)
  {
    var t := [x] + s;
    forall i, j | 0 <= i < j < |t| ensures LessEq(t[i], t[j]) {
      if i == 0 && j > 1 {
        LessEqTransitive(x, s[0], s[j - 1]);
      }
    }
  }

  /** The head of s is below everything inserting a larger x into its tail produces. */
  lemma HeadBelowInserted(x: WideString, s: seq<WideString>, rest: seq<WideString>)
    requires Sorted(s) && |s| > 0 && LessEq(s[0], x)
    requires multiset(rest) == multiset(s[1..]) + multiset{x}
    ensures |rest| > 0 ==> LessEq(s[0], rest[0])
  {
    if |rest| > 0 && rest[0] != x {
      assert rest[0] in multiset(rest);
      assert rest[0] in multiset(s[1..]);
      var j :| 0 <= j < |s[1..]| && s[1..][j] == rest[0];
      assert s[j + 1] == rest[0];
    }
  }

  /** std::sort (line 39): a sorted permutation. */
  function Sort(s: seq<WideString>): (r: seq<WideString>)
    ensures Sorted(r)
    ensures multiset(r) == multiset(s)
  {
    if |s| == 0 then []
    else
      assert s == [s[0]] + s[1..];
      Insert(s[0], Sort(s[1..]))
  }

  lemma MultisetTail(s: seq<WideString>)
    requires |s| > 0
    ensures multiset(s[1..]) == multiset(s) - multiset{s[0]}
  {
    assert s == [s[0]] + s[1..];
  }

  /** The head of a sorted list is below every element. */
  lemma HeadIsLeast(s: seq<WideString>, x: WideString)
    requires Sorted(s) && x in multiset(s)
    ensures LessEq(s[0], x)
  {
    var i :| 0 <= i < |s| && s[i] == x;
    if i > 0 {
      assert LessEq(s[0], s[i]);
    }
  }

  lemma SortedTail(s: seq<WideString>)
    requires Sorted(s) && |s| > 0
    ensures Sorted(s[1..])
  {
  }

  /** A sorted list is determined by its multiset of elements. */
  lemma {:induction false} SortedUnique(a: seq<WideString>, b: seq<WideString>)
    requires Sorted(a) && Sorted(b) && multiset(a) == multiset(b)
    ensures a == b
    decreases |a|
  {
    assert |a| == |multiset(a)|;
    assert |b| == |multiset(b)|;
    if |a| > 0 {
      HeadIsLeast(b, a[0]);
      HeadIsLeast(a, b[0]);
      LessAsymmetric(a[0], b[0]);
      MultisetTail(a);
      MultisetTail(b);
      SortedTail(a);
      SortedTail(b);
      SortedUnique(a[1..], b[1..]);
      assert a == [a[0]] + a[1..] && b == [b[0]] + b[1..];
    }
  }

  /** The hashed string (lines 41-46): each define, narrowed, followed by ','. */
  function Combined(defines: seq<WideString>): NarrowString
  {
    if |defines| == 0 then []
    else Combined(defines[..|defines| - 1]) + Narrow(defines[|defines| - 1]) + [COMMA]
  }

  /** The combined string ends in ',' and has one ',' per define more than the defines hold. */
  lemma {:induction false} CombinedLength(defines: seq<WideString>)
    ensures |Combined(defines)| == SumLengths(defines) + |defines|
    ensures |defines| > 0 ==> Combined(defines)[|Combined(defines)| - 1] == COMMA
  {
    if |defines| > 0 {
      CombinedLength(defines[..|defines| - 1]);
    }
  }

  function SumLengths(defines: seq<WideString>): nat
  {
    if |defines| == 0 then 0 else SumLengths(defines[..|defines| - 1]) + |defines[|defines| - 1]|
  }

  // FNV-1a 64 over the bytes of the combined string.

  /** Bitwise exclusive or of two naturals. */
  function Xor(a: nat, b: nat): nat
    decreases a + b
  {
    if a == 0 then b
    else if b == 0 then a
    else 2 * Xor(a / 2, b / 2) + (if a % 2 == b % 2 then 0 else 1)
  }

  /** `hash ^= c` promotes the signed char to uint64_t, which sign-extends it. */
  function XorOperand(b: byte): (v: u64)
    ensures v % TWO_8 == b
    ensures b < 0x80 ==> v == b
  {
    CharValue(b) % TWO_64
  }

  /** One round of the loop at lines 31-34. */
  function FnvStep(hash: u64, b: byte): u64
  {
    (Xor(hash, XorOperand(b)) * FNV_PRIME) % TWO_64
  }

  /** The hash of `s` (lines 24-37). */
  function Fnv(s: NarrowString): u64
  {
    if |s| == 0 then FNV_OFFSET_BASIS else FnvStep(Fnv(s[..|s| - 1]), s[|s| - 1])
  }

  /** Textbook FNV-1a 64, which xors the unsigned byte. */
  function FnvReference(s: NarrowString): u64
  {
    if |s| == 0 then FNV_OFFSET_BASIS
    else (Xor(FnvReference(s[..|s| - 1]), s[|s| - 1]) * FNV_PRIME) % TWO_64
  }

  /** On bytes below 0x80 (ASCII define names) the hash is textbook FNV-1a 64. */
  lemma {:induction false} FnvAscii(s: NarrowString)
    requires forall i :: 0 <= i < |s| ==> s[i] < 0x80
    ensures Fnv(s) == FnvReference(s)
  {
    if |s| > 0 {
      FnvAscii(s[..|s| - 1]);
    }
  }

  // std::to_string of a uint64_t.

  function DigitChar(d: nat): (c: char)
    requires d < 10
    ensures '0' <= c <= '9'
  {
    ('0' as int + d) as char
  }

  function ToDecimal(n: nat): (s: string)
    ensures |s| >= 1
    ensures forall i :: 0 <= i < |s| ==> '0' <= s[i] <= '9'
    ensures |s| > 1 ==> s[0] != '0'
  {
    if n < 10 then [DigitChar(n)] else ToDecimal(n / 10) + [DigitChar(n % 10)]
  }

  /** Reading decimal digits back. */
  function ParseDecimal(s: string): nat
    requires forall i :: 0 <= i < |s| ==> '0' <= s[i] <= '9'
  {
    if |s| == 0 then 0 else 10 * ParseDecimal(s[..|s| - 1]) + (s[|s| - 1] as int - '0' as int)
  }

  /** The decimal string names the number exactly. */
  lemma {:induction false} DecimalRoundTrip(n: nat)
    ensures ParseDecimal(ToDecimal(n)) == n
  {
    if n >= 10 {
      DecimalRoundTrip(n / 10);
      var s := ToDecimal(n);
      assert s[..|s| - 1] == ToDecimal(n / 10);
    }
  }

  /** What GetDefinesHash returns. */
  function DefinesHash(defines: seq<WideString>): string
  {
    ToDecimal(Fnv(Combined(Sort(defines))))
  }

  /** GetDefinesHash (lines 22-49). */
  method GetDefinesHash(defines: seq<WideString>) returns (hash: string)
    ensures hash == DefinesHash(defines)
  {
    var sorted := Sort(defines);
    var combinedDefines: NarrowString := [];
    for i := 0 to |sorted|
      invariant combinedDefines == Combined(sorted[..i])
    {
      assert sorted[..i + 1][..i] == sorted[..i];
      combinedDefines := combinedDefines + Narrow(sorted[i]) + [COMMA];
    }
    assert sorted[..|sorted|] == sorted;
    var h: u64 := FNV_OFFSET_BASIS;
    for i := 0 to |combinedDefines|
      invariant h == Fnv(combinedDefines[..i])
    {
      assert combinedDefines[..i + 1][..i] == combinedDefines[..i];
      h := (Xor(h, XorOperand(combinedDefines[i])) * FNV_PRIME) % TWO_64;
    }
    assert combinedDefines[..|combinedDefines|] == combinedDefines;
    hash := ToDecimal(h);
  }

  /** The hash does not depend on the order the defines are given in. */
  lemma DefinesHashPermutation(a: seq<WideString>, b: seq<WideString>)
    requires multiset(a) == multiset(b)
    ensures DefinesHash(a) == DefinesHash(b)
  {
    SortedUnique(Sort(a), Sort(b));
  }
}
