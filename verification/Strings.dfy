/** Splitting, joining and decimal numerals. */
module Strings {

  /** The pieces of `s` between occurrences of `sep`; never empty. */
  function Split(s: string, sep: char): (parts: seq<string>)
    ensures parts != []
  {
    if s == "" then [""]
    else
      var rest := Split(s[1..], sep);
      if s[0] == sep then [""] + rest else [[s[0]] + rest[0]] + rest[1..]
  }

  lemma {:induction false} SplitPieces(s: string, sep: char)
    ensures forall p | p in Split(s, sep) :: sep !in p
  {
    if s != "" {
      var rest := Split(s[1..], sep);
      SplitPieces(s[1..], sep);
      assert rest[0] in rest;
    }
  }

  function Join(parts: seq<string>, sep: char): string {
    if parts == [] then ""
    else if |parts| == 1 then parts[0]
    else parts[0] + [sep] + Join(parts[1..], sep)
  }

  lemma JoinCons(p: string, rest: seq<string>, sep: char)
    requires rest != []
    ensures Join([p] + rest, sep) == p + [sep] + Join(rest, sep)
  {
    assert ([p] + rest)[1..] == rest;
  }

  lemma JoinGrowFirst(c: char, parts: seq<string>, sep: char)
    requires parts != []
    ensures Join([[c] + parts[0]] + parts[1..], sep) == [c] + Join(parts, sep)
  {
  }

  lemma {:induction false} JoinSplit(s: string, sep: char)
    ensures Join(Split(s, sep), sep) == s
  {
    if s != "" {
      var rest := Split(s[1..], sep);
      JoinSplit(s[1..], sep);
      JoinCons("", rest, sep);
      JoinGrowFirst(s[0], rest, sep);
      assert s == [s[0]] + s[1..];
    }
  }

  lemma {:induction false} SplitNoSep(p: string, sep: char)
    requires sep !in p
    ensures Split(p, sep) == [p]
  {
    if p != "" {
      assert sep !in p[1..] && p[0] in p;
      SplitNoSep(p[1..], sep);
      assert [p[0]] + p[1..] == p;
    }
  }

  lemma SplitSep(b: string, sep: char)
    ensures Split([sep] + b, sep) == [""] + Split(b, sep)
  {
    assert ([sep] + b)[1..] == b;
  }

  lemma SplitOther(c: char, s: string, sep: char)
    requires c != sep
    ensures Split([c] + s, sep) == [[c] + Split(s, sep)[0]] + Split(s, sep)[1..]
  {
    assert ([c] + s)[1..] == s;
  }

  /** Splitting distributes over a separator. */
  lemma {:induction false} SplitConcat(a: string, b: string, sep: char)
    ensures Split(a + [sep] + b, sep) == Split(a, sep) + Split(b, sep)
  {
    if a == "" {
      assert a + [sep] + b == [sep] + b;
      SplitSep(b, sep);
    } else {
      var c, a' := a[0], a[1..];
      assert a == [c] + a';
      assert a + [sep] + b == [c] + (a' + [sep] + b);
      SplitConcat(a', b, sep);
      SplitPush(c, a', b, sep);
    }
  }

  lemma SplitPush(c: char, a: string, b: string, sep: char)
    requires Split(a + [sep] + b, sep) == Split(a, sep) + Split(b, sep)
    ensures Split([c] + (a + [sep] + b), sep) == Split([c] + a, sep) + Split(b, sep)
  {
    if c == sep {
      SplitSep(a + [sep] + b, sep);
      SplitSep(a, sep);
      assert [""] + (Split(a, sep) + Split(b, sep)) == ([""] + Split(a, sep)) + Split(b, sep);
    } else {
      SplitOther(c, a + [sep] + b, sep);
      SplitOther(c, a, sep);
      PushFirst(c, Split(a, sep), Split(b, sep));
    }
  }

  lemma PushFirst(c: char, x: seq<string>, y: seq<string>)
    requires x != []
    ensures [[c] + (x + y)[0]] + (x + y)[1..] == ([[c] + x[0]] + x[1..]) + y
  {
  }

  lemma {:induction false} SplitJoin(parts: seq<string>, sep: char)
    requires parts != []
    requires forall p | p in parts :: sep !in p
    ensures Split(Join(parts, sep), sep) == parts
  {
    if |parts| == 1 {
      SplitNoSep(parts[0], sep);
    } else {
      SplitJoin(parts[1..], sep);
      SplitNoSep(parts[0], sep);
      SplitConcat(parts[0], Join(parts[1..], sep), sep);
    }
  }

  /** The first piece ends at the first separator. */
  lemma {:induction false} SplitFirst(s: string, sep: char) returns (n: nat)
    ensures n <= |s| && Split(s, sep)[0] == s[..n]
    ensures (forall k | 0 <= k < n :: s[k] != sep) && (n < |s| ==> s[n] == sep)
  {
    if s == "" || s[0] == sep {
      n := 0;
    } else {
      SplitOther(s[0], s[1..], sep);
      hide Split;
      assert s == [s[0]] + s[1..];
      n := SplitFirst(s[1..], sep);
      n := n + 1;
    }
  }

  // ----- last separator -----

  /** The index of the last `sep` in `s`, or -1. */
  function LastIndex(s: string, sep: char): (i: int)
    ensures -1 <= i < |s|
    ensures i >= 0 ==> s[i] == sep
    ensures forall k | i < k < |s| :: s[k] != sep
  {
    if s == "" then -1
    else if s[|s| - 1] == sep then |s| - 1
    else LastIndex(s[..|s| - 1], sep)
  }

  lemma TailIndex(p: string, q: string, c: char)
    requires c !in q && p != "" && p[|p| - 1] == c
    ensures (p + q)[|p| - 1] == c && forall k | |p| <= k < |p + q| :: (p + q)[k] != c
  {
    forall k | |p| <= k < |p + q|
      ensures (p + q)[k] != c
    {
      assert (p + q)[k] == q[k - |p|];
    }
  }

  lemma LastIndexIs(s: string, sep: char, i: nat)
    requires i < |s| && s[i] == sep && forall k | i < k < |s| :: s[k] != sep
    ensures LastIndex(s, sep) == i
  {
    hide LastIndex;
  }

  // ----- decimal numerals -----

  function Digit(d: nat): char
    requires d < 10
  {
    '0' + d as char
  }

  function Decimal(n: nat): (s: string)
    ensures s != ""
    ensures forall k | 0 <= k < |s| :: '0' <= s[k] <= '9'
  {
    if n < 10 then [Digit(n)] else Decimal(n / 10) + [Digit(n % 10)]
  }

  function DecimalValue(s: string): int {
    if s == "" then 0
    else 10 * DecimalValue(s[..|s| - 1]) + (s[|s| - 1] as int - '0' as int)
  }

  /** A numeral reads back as the number it was printed from. */
  lemma {:induction false} DecimalRoundTrip(n: nat)
    ensures DecimalValue(Decimal(n)) == n
  {
    if n >= 10 {
      DecimalRoundTrip(n / 10);
      assert Decimal(n)[..|Decimal(n)| - 1] == Decimal(n / 10);
    }
  }

  lemma DecimalInjective(m: nat, n: nat)
    requires Decimal(m) == Decimal(n)
    ensures m == n
  {
    DecimalRoundTrip(m);
    DecimalRoundTrip(n);
  }
}
