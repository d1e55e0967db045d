/**
 * The string operations the source uses: `includes`, `startsWith`,
 * `split` with a one-character separator, and the decimal text of integers
 * (template literals such as `${id}`).
 */
module Text {

  /** `s.includes(sub)` (and `%sub%` under ILIKE once both sides are case-folded). */
  predicate IsInfix(sub: string, s: string) {
    exists i {:trigger s[i..]} :: 0 <= i <= |s| - |sub| && s[i..i + |sub|] == sub
  }

  predicate StartsWith(s: string, prefix: string) {
    |prefix| <= |s| && s[..|prefix|] == prefix
  }

  lemma InfixOfConcat(a: string, sub: string, b: string)
    ensures IsInfix(sub, a + sub + b)
  {
    var s := a + sub + b;
    assert s[|a|..|a| + |sub|] == sub;
    assert s[|a|..][..|sub|] == sub;
  }

  /** A text found at a known position is found. */
  lemma InfixAt(sub: string, s: string, k: nat)
    requires k + |sub| <= |s| && s[k..k + |sub|] == sub
    ensures IsInfix(sub, s)
  {
    assert s[k..][..|sub|] == sub;
  }

  /** `parts.join(sep)` for a separator of any length. */
  function JoinWith(parts: seq<string>, sep: string): string
    requires |parts| >= 1
  {
    if |parts| == 1 then parts[0] else parts[0] + sep + JoinWith(parts[1..], sep)
  }

  /** Where the `i`-th part starts in the joined text. */
  function PartOffset(parts: seq<string>, sep: string, i: nat): nat
    requires i < |parts|
  {
    if i == 0 then 0 else |parts[0]| + |sep| + PartOffset(parts[1..], sep, i - 1)
  }

  lemma {:induction false} JoinWithAt(parts: seq<string>, sep: string, i: nat)
    requires i < |parts|
    ensures PartOffset(parts, sep, i) + |parts[i]| <= |JoinWith(parts, sep)|
    ensures JoinWith(parts, sep)[PartOffset(parts, sep, i)..PartOffset(parts, sep, i) + |parts[i]|] == parts[i]
  {
    var m := JoinWith(parts, sep);
    if |parts| == 1 {
      assert m == parts[0];
    } else if i == 0 {
      assert m == parts[0] + (sep + JoinWith(parts[1..], sep));
      assert m[..|parts[0]|] == parts[0];
    } else {
      var pre := parts[0] + sep;
      var rest := JoinWith(parts[1..], sep);
      JoinWithAt(parts[1..], sep, i - 1);
      assert parts[1..][i - 1] == parts[i];
      var off := PartOffset(parts[1..], sep, i - 1);
      assert m == pre + rest;
      assert m[|pre| + off..|pre| + off + |parts[i]|] == rest[off..off + |parts[i]|];
    }
  }

  /** The joined text starts with the first part and contains every part. */
  lemma JoinWithContains(parts: seq<string>, sep: string)
    requires |parts| >= 1
    ensures StartsWith(JoinWith(parts, sep), parts[0])
    ensures forall i :: 0 <= i < |parts| ==> IsInfix(parts[i], JoinWith(parts, sep))
  {
    JoinWithAt(parts, sep, 0);
    forall i | 0 <= i < |parts| ensures IsInfix(parts[i], JoinWith(parts, sep)) {
      JoinWithAt(parts, sep, i);
      InfixAt(parts[i], JoinWith(parts, sep), PartOffset(parts, sep, i));
    }
  }

  /** Index of the first `c` in `s`, or `|s|` when there is none. */
  function IndexOf(s: string, c: char): (i: nat)
    ensures i <= |s|
    ensures i < |s| ==> s[i] == c
    ensures forall j :: 0 <= j < i ==> s[j] != c
  {
    if |s| == 0 then 0
    else if s[0] == c then 0
    else 1 + IndexOf(s[1..], c)
  }

  /** The first occurrence is where `IndexOf` stops. */
  lemma {:induction false} IndexOfAt(s: string, c: char, k: nat)
    requires k <= |s|
    requires k < |s| ==> s[k] == c
    requires forall j :: 0 <= j < k ==> s[j] != c
    ensures IndexOf(s, c) == k
  {
    if |s| > 0 && s[0] != c {
      IndexOfAt(s[1..], c, k - 1);
    }
  }

  /**
   * `s.split(sep)` for a one-character separator, as JavaScript does it:
   * the pieces between separators, in order; `''.split(sep)` is `['']`.
   */
  function Split(s: string, sep: char): (parts: seq<string>)
    ensures |parts| >= 1
    decreases |s|
  {
    var i := IndexOf(s, sep);
    if i == |s| then [s] else [s[..i]] + Split(s[i + 1..], sep)
  }

  /** `parts.join(sep)`. */
  function Join(parts: seq<string>, sep: char): string
    requires |parts| >= 1
  {
    if |parts| == 1 then parts[0] else parts[0] + [sep] + Join(parts[1..], sep)
  }

  predicate Free(s: string, c: char) {
    forall j :: 0 <= j < |s| ==> s[j] != c
  }

  /** Splitting and joining on the same separator give back the input. */
  lemma {:induction false} JoinSplit(s: string, sep: char)
    ensures Join(Split(s, sep), sep) == s
    decreases |s|
  {
    var i := IndexOf(s, sep);
    if i < |s| {
      var rest := s[i + 1..];
      var parts := Split(s, sep);
      assert parts == [s[..i]] + Split(rest, sep);
      assert parts[0] == s[..i] && parts[1..] == Split(rest, sep);
      JoinSplit(rest, sep);
      assert Join(parts, sep) == s[..i] + [sep] + rest;
      assert s == s[..i] + [sep] + rest;
    }
  }

  /** No piece of a split contains the separator. */
  lemma {:induction false} SplitPiecesFree(s: string, sep: char)
    ensures forall k :: 0 <= k < |Split(s, sep)| ==> Free(Split(s, sep)[k], sep)
    decreases |s|
  {
    var i := IndexOf(s, sep);
    if i < |s| {
      SplitPiecesFree(s[i + 1..], sep);
    }
  }

  /** A string without the separator splits into itself. */
  lemma {:induction false} SplitFree(s: string, sep: char)
    requires Free(s, sep)
    ensures Split(s, sep) == [s]
  {
    IndexOfAt(s, sep, |s|);
  }

  /** Splitting `a + sep + b`, where `a` has no separator, peels off `a`. */
  lemma {:induction false} SplitCons(a: string, sep: char, b: string)
    requires Free(a, sep)
    ensures Split(a + [sep] + b, sep) == [a] + Split(b, sep)
  {
    var s := a + [sep] + b;
    assert forall j :: 0 <= j < |a| ==> s[j] == a[j];
    IndexOfAt(s, sep, |a|);
    assert s[..|a|] == a;
    assert s[|a| + 1..] == b;
  }

  /** Joining pieces that hold no separator and splitting again gives back the pieces. */
  lemma {:induction false} SplitJoin(parts: seq<string>, sep: char)
    requires |parts| >= 1
    requires forall k :: 0 <= k < |parts| ==> Free(parts[k], sep)
    ensures Split(Join(parts, sep), sep) == parts
    decreases |parts|
  {
    if |parts| == 1 {
      SplitFree(parts[0], sep);
    } else {
      SplitJoin(parts[1..], sep);
      SplitCons(parts[0], sep, Join(parts[1..], sep));
      assert parts == [parts[0]] + parts[1..];
    }
  }

  function DigitChar(d: nat): (c: char)
    requires d < 10
    ensures '0' <= c <= '9'
  {
    ('0' as int + d) as char
  }

  predicate IsDigit(c: char) {
    '0' <= c <= '9'
  }

  predicate AllDigits(s: string) {
    forall j :: 0 <= j < |s| ==> IsDigit(s[j])
  }

  /** Decimal text of a natural number, as `String(n)` prints it. */
  function NatToString(n: nat): (s: string)
    ensures |s| >= 1 && AllDigits(s)
  {
    if n < 10 then [DigitChar(n)] else NatToString(n / 10) + [DigitChar(n % 10)]
  }

  /** Decimal text of an integer, with a leading `-` when negative. */
  function IntToString(i: int): (s: string)
    ensures |s| >= 1
    ensures i >= 0 <==> AllDigits(s)
  {
    if i < 0 then
      var s := "-" + NatToString(-i);
      assert !IsDigit(s[0]);
      s
    else NatToString(i)
  }

  function DigitValue(c: char): (d: nat)
    requires IsDigit(c)
    ensures d < 10 && DigitChar(d) == c
  {
    (c as int - '0' as int)
  }

  /** The value of a string of decimal digits (the part of `Number(s)` the model covers). */
  function ParseNat(s: string): nat
    requires AllDigits(s)
  {
    if |s| == 0 then 0 else 10 * ParseNat(s[..|s| - 1]) + DigitValue(s[|s| - 1])
  }

  /** Printing a natural number and reading it back gives the number. */
  lemma {:induction false} ParsePrint(n: nat)
    ensures ParseNat(NatToString(n)) == n
  {
    var s := NatToString(n);
    if n < 10 {
      assert s == [DigitChar(n)];
      assert DigitValue(s[0]) == n;
    } else {
      ParsePrint(n / 10);
      assert s == NatToString(n / 10) + [DigitChar(n % 10)];
      assert s[..|s| - 1] == NatToString(n / 10);
      assert DigitValue(s[|s| - 1]) == n % 10;
    }
  }

  /** Distinct naturals have distinct texts. */
  lemma NatToStringInjective(a: nat, b: nat)
    requires NatToString(a) == NatToString(b)
    ensures a == b
  {
    ParsePrint(a);
    ParsePrint(b);
  }

  /** Distinct integers have distinct texts (so a message naming an id determines it). */
  lemma IntToStringInjective(i: int, j: int)
    requires IntToString(i) == IntToString(j)
    ensures i == j
  {
    if i >= 0 && j >= 0 {
      NatToStringInjective(i, j);
    } else if i < 0 && j < 0 {
      assert IntToString(i) == "-" + NatToString(-i);
      assert IntToString(j) == "-" + NatToString(-j);
      assert NatToString(-i) == IntToString(i)[1..];
      assert NatToString(-j) == IntToString(j)[1..];
      NatToStringInjective(-i, -j);
    }
  }
}
