/** Case-insensitive collision resolution over one write set. */
module Collisions {
  import opened Hashing
  import opened Strings
  import opened Paths
  import opened PathSafety

  /** Exclusive end of the numbered search. */
  const SEARCH_END: nat := 0xFFFF_FFFF

  // ----- case folding -----

  /** The lower-case expansion of characters outside ASCII: any function at all. */
  const LowerOther: char -> string

  function LowerChar(c: char): string {
    if 'A' <= c <= 'Z' then [(c as int + 32) as char]
    else if c as int < 0x80 then [c]
    else LowerOther(c)
  }

  function FlatMap(s: string, f: char -> string): string {
    if s == "" then "" else FlatMap(s[..|s| - 1], f) + f(s[|s| - 1])
  }

  lemma {:induction false} FlatMapAppend(a: string, b: string, f: char -> string)
    ensures FlatMap(a + b, f) == FlatMap(a, f) + FlatMap(b, f)
  {
    if b == "" {
      assert a + b == a;
    } else {
      var b', c := b[..|b| - 1], b[|b| - 1];
      FlatMapSnoc(b', c, f);
      FlatMapSnoc(a + b', c, f);
      hide FlatMap;
      FlatMapAppend(a, b', f);
      assert b == b' + [c] && a + b == (a + b') + [c];
    }
  }

  lemma FlatMapSnoc(s: string, c: char, f: char -> string)
    ensures FlatMap(s + [c], f) == FlatMap(s, f) + f(c)
  {
    assert (s + [c])[..|s|] == s;
  }

  function Lower(s: string): string {
    FlatMap(s, LowerChar)
  }

  lemma LowerAppend(a: string, b: string)
    ensures Lower(a + b) == Lower(a) + Lower(b)
  {
    FlatMapAppend(a, b, LowerChar);
  }

  lemma {:induction false} LowerDigits(s: string)
    requires forall k | 0 <= k < |s| :: '0' <= s[k] <= '9'
    ensures Lower(s) == s
  {
    if s != "" {
      LowerDigits(s[..|s| - 1]);
    }
  }

  /** The same letter in either case, or the same character. */
  ghost predicate SameLetter(a: char, b: char) {
    || a == b
    || ('A' <= a <= 'Z' && b as int == a as int + 32)
    || ('A' <= b <= 'Z' && a as int == b as int + 32)
  }

  ghost predicate Ascii(s: string) {
    forall k | 0 <= k < |s| :: s[k] as int < 0x80
  }

  lemma {:induction false} AsciiLower(s: string)
    requires Ascii(s)
    ensures |Lower(s)| == |s| && forall k | 0 <= k < |s| :: [Lower(s)[k]] == LowerChar(s[k])
  {
    if s != "" {
      AsciiLower(s[..|s| - 1]);
    }
  }

  /** Two ASCII names collide exactly if they differ in nothing but the case of letters. */
  lemma CollidesIff(a: string, b: string)
    requires Ascii(a) && Ascii(b)
    ensures Lower(a) == Lower(b) <==> |a| == |b| && forall k | 0 <= k < |a| :: SameLetter(a[k], b[k])
  {
    AsciiLower(a);
    AsciiLower(b);
    hide Lower;
    if Lower(a) == Lower(b) {
      forall k | 0 <= k < |a|
        ensures SameLetter(a[k], b[k])
      {
        assert [Lower(a)[k]] == [Lower(b)[k]];
      }
    }
    if |a| == |b| && forall k | 0 <= k < |a| :: SameLetter(a[k], b[k]) {
      forall k | 0 <= k < |a|
        ensures Lower(a)[k] == Lower(b)[k]
      {
        assert LowerChar(a[k]) == LowerChar(b[k]);
      }
    }
  }

  // ----- numbered names -----

  /** Where the last component of a path begins. */
  function NameStart(candidate: string): (i: nat)
    ensures i <= |candidate|
  {
    LastIndex(candidate, '/') + 1
  }

  /** Everything of `candidate` before the inserted number. */
  function Head(candidate: string): string {
    candidate[..NameStart(candidate) + Dot(candidate[NameStart(candidate)..])]
  }

  /** Everything of `candidate` after the inserted number. */
  function Tail(candidate: string): string {
    candidate[NameStart(candidate) + Dot(candidate[NameStart(candidate)..])..]
  }

  /** Where a file name splits into stem and extension; a leading dot is part of the stem. */
  function Dot(name: string): (i: nat)
    ensures i <= |name|
  {
    var dot := LastIndex(name, '.');
    if dot > 0 then dot else |name|
  }

  function Numbered(candidate: string, n: nat): string {
    Head(candidate) + " (" + Decimal(n) + ")" + Tail(candidate)
  }

  lemma LowerNumbered(candidate: string, n: nat)
    ensures Lower(Numbered(candidate, n)) == Lower(Head(candidate) + " (") + Decimal(n) + Lower(")" + Tail(candidate))
  {
    var h, d, t := Head(candidate) + " (", Decimal(n), ")" + Tail(candidate);
    assert Numbered(candidate, n) == (h + d) + t;
    LowerAppend(h + d, t);
    LowerAppend(h, d);
    LowerDigits(d);
  }

  /** Different numbers give names that still differ after case folding. */
  lemma NumberedInjective(candidate: string, m: nat, n: nat)
    requires Lower(Numbered(candidate, m)) == Lower(Numbered(candidate, n))
    ensures m == n
  {
    LowerNumbered(candidate, m);
    LowerNumbered(candidate, n);
    var h, t := Lower(Head(candidate) + " ("), Lower(")" + Tail(candidate));
    var x, y := h + Decimal(m) + t, h + Decimal(n) + t;
    assert |Decimal(m)| == |Decimal(n)|;
    assert Decimal(m) == x[|h|..|h| + |Decimal(m)|] == y[|h|..|h| + |Decimal(n)|] == Decimal(n);
    DecimalInjective(m, n);
  }

  lemma {:induction false} ImageHas(f: nat -> string, lo: nat, k: nat, n: nat)
    requires lo <= n < lo + k
    ensures f(n) in Image(f, lo, k)
  {
    if n < lo + k - 1 {
      ImageHas(f, lo, k - 1, n);
    }
  }

  /** The values of `f` at the `k` numbers from `lo` on. */
  ghost function Image(f: nat -> string, lo: nat, k: nat): set<string> {
    if k == 0 then {} else Image(f, lo, k - 1) + {f(lo + k - 1)}
  }

  lemma {:induction false} ImageMembers(f: nat -> string, lo: nat, k: nat, name: string)
    requires name in Image(f, lo, k)
    ensures exists n: nat :: lo <= n < lo + k && name == f(n)
  {
    if name != f(lo + k - 1) {
      ImageMembers(f, lo, k - 1, name);
    }
  }

  lemma {:induction false} ImageCount(f: nat -> string, lo: nat, k: nat)
    requires forall m: nat, n: nat | lo <= m < n < lo + k :: f(m) != f(n)
    ensures |Image(f, lo, k)| == k
  {
    if k > 0 {
      ImageCount(f, lo, k - 1);
      var last := f(lo + k - 1);
      if last in Image(f, lo, k - 1) {
        ImageMembers(f, lo, k - 1, last);
        assert false;
      }
      assert Image(f, lo, k) == Image(f, lo, k - 1) + {last};
    }
  }

  function FoldedName(candidate: string): nat -> string {
    (n: nat) => Lower(Numbered(candidate, n))
  }

  /** The folded forms of numbers `2 .. k + 1`. */
  ghost function FoldedNames(candidate: string, k: nat): set<string> {
    Image(FoldedName(candidate), 2, k)
  }

  /** The first `k` numbered names are `k` different names. */
  lemma FoldedNamesCount(candidate: string, k: nat)
    ensures |FoldedNames(candidate, k)| == k
  {
    var f := FoldedName(candidate);
    forall m: nat, n: nat | 2 <= m < n < 2 + k
      ensures f(m) != f(n)
    {
      if f(m) == f(n) {
        NumberedInjective(candidate, m, n);
      }
    }
    ImageCount(f, 2, k);
  }

  /** Pigeonhole: a search that found its first `k` names taken needs at least `k` taken names. */
  lemma TakenNamesBound(candidate: string, k: nat, used: set<string>)
    requires FoldedNames(candidate, k) <= used
    ensures k <= |used|
  {
    FoldedNamesCount(candidate, k);
    assert used == FoldedNames(candidate, k) + (used - FoldedNames(candidate, k));
  }

  lemma OneMoreTaken(candidate: string, n: nat, used: set<string>)
    requires n >= 2 && FoldedNames(candidate, n - 2) <= used
    requires Lower(Numbered(candidate, n)) in used
    ensures FoldedNames(candidate, n - 1) <= used && n - 1 <= |used|
  {
    assert FoldedName(candidate)(n) == Lower(Numbered(candidate, n));
    TakenNamesBound(candidate, n - 1, used);
  }

  /** The candidate is variant 1; variants 2, 3, ... carry their number. */
  function Variant(candidate: string, n: nat): string {
    if n <= 1 then candidate else Numbered(candidate, n)
  }

  ghost predicate LesserVariantsTaken(candidate: string, n: nat, used: set<string>) {
    n >= 2 ==> Lower(candidate) in used && FoldedNames(candidate, n - 2) <= used
  }

  /** The candidate and all its numbered variants are taken. */
  ghost predicate Exhausted(candidate: string, used: set<string>) {
    Lower(candidate) in used && FoldedNames(candidate, SEARCH_END - 2) <= used
  }

  lemma FreeVariant(candidate: string, n: nat, used: set<string>)
    requires 2 <= n < SEARCH_END && Lower(Numbered(candidate, n)) !in used
    ensures !Exhausted(candidate, used)
  {
    assert FoldedName(candidate)(n) == Lower(Numbered(candidate, n));
    ImageHas(FoldedName(candidate), 2, SEARCH_END - 2, n);
  }

  /** That takes more than four billion names. */
  lemma ExhaustedIsLarge(candidate: string, used: set<string>)
    requires Exhausted(candidate, used)
    ensures |used| >= SEARCH_END - 2
  {
    TakenNamesBound(candidate, SEARCH_END - 2, used);
  }

  ghost function Folded(paths: seq<string>): set<string> {
    if paths == [] then {} else Folded(paths[..|paths| - 1]) + {Lower(paths[|paths| - 1])}
  }

  lemma {:induction false} FoldedContains(paths: seq<string>, i: nat)
    requires i < |paths|
    ensures Lower(paths[i]) in Folded(paths)
  {
    if i < |paths| - 1 {
      FoldedContains(paths[..|paths| - 1], i);
    }
  }

  class WriteSet {
    /** The folded paths already taken. */
    var used: set<string>

    constructor ()
      ensures used == {}
    {
      used := {};
    }

    /**
     Takes the first variant of the candidate whose folded form is free: the candidate itself,
     then numbers 2, 3, ... The search succeeds within `|used| + 1` numbers unless all 32-bit
     numbers are taken; only then the candidate comes back although it is not free.
     */
    method Resolve(candidate: string) returns (path: string, ghost n: nat)
      modifies this
      ensures used == old(used) + {Lower(path)}
      ensures path == Variant(candidate, n)
      ensures Lower(path) in old(used) <==> Exhausted(candidate, old(used))
      ensures if Exhausted(candidate, old(used)) then path == candidate
              else LesserVariantsTaken(candidate, n, old(used)) && n <= |old(used)| + 2
    {
      ghost var taken := used;
      var key := Lower(candidate);
      if key !in used {
        used := used + {key};
        return candidate, 1;
      }
      var k := 2;
      while k < SEARCH_END
        invariant 2 <= k <= SEARCH_END
        invariant used == taken
        invariant FoldedNames(candidate, k - 2) <= taken && k - 2 <= |taken|
      {
        path := Numbered(candidate, k);
        key := Lower(path);
        if key !in used {
          FreeVariant(candidate, k, taken);
          used := used + {key};
          return path, k;
        }
        OneMoreTaken(candidate, k, taken);
        k := k + 1;
      }
      return candidate, 1;
    }

    /**
     Resolving a whole list over one set. Each returned path differs from all taken and returned
     before it exactly unless its candidate was exhausted, which takes more names than 32 bits count.
     */
    method ResolveAll(candidates: seq<string>) returns (paths: seq<string>)
      modifies this
      ensures |paths| == |candidates|
      ensures used == old(used) + Folded(paths)
      ensures NewUnlessExhausted(candidates, paths, old(used))
      ensures |old(used)| + |candidates| < SEARCH_END - 1 ==> AllNew(old(used), paths)
    {
      hide *;
      ghost var start := used;
      paths := [];
      NoneResolved(candidates, start);
      for i := 0 to |candidates|
        invariant |paths| == i
        invariant used == start + Folded(paths) && |used| <= |start| + i
        invariant NewUnlessExhausted(candidates[..i], paths, start)
        invariant |start| + |candidates| < SEARCH_END - 1 ==> AllNew(start, paths)
      {
        var p, _ := Resolve(candidates[i]);
        OneMoreResolved(candidates, paths, start, p);
        paths := paths + [p];
      }
      assert candidates[..|candidates|] == candidates;
    }
  }

  ghost predicate NewUnlessExhausted(candidates: seq<string>, paths: seq<string>, used: set<string>)
    requires |paths| == |candidates|
  {
    forall i | 0 <= i < |paths| :: var taken := used + Folded(paths[..i]);
      Lower(paths[i]) in taken <==> Exhausted(candidates[i], taken)
  }

  lemma NoneResolved(candidates: seq<string>, used: set<string>)
    ensures Folded([]) == {} && AllNew(used, []) && NewUnlessExhausted(candidates[..0], [], used)
  {
  }

  lemma OneMoreResolved(candidates: seq<string>, paths: seq<string>, used: set<string>, p: string)
    requires var i := |paths|;
            && i < |candidates| && NewUnlessExhausted(candidates[..i], paths, used)
            && (Lower(p) in used + Folded(paths) <==> Exhausted(candidates[i], used + Folded(paths)))
    ensures NewUnlessExhausted(candidates[..|paths| + 1], paths + [p], used)
    ensures Folded(paths + [p]) == Folded(paths) + {Lower(p)}
    ensures |used + Folded(paths)| < SEARCH_END - 2 && AllNew(used, paths) ==> AllNew(used, paths + [p])
    ensures |used + Folded(paths) + {Lower(p)}| <= |used + Folded(paths)| + 1
  {
    hide *;
    FoldedStep(paths, p);
    PrefixesStay(candidates, paths, used, p);
    if Exhausted(candidates[|paths|], used + Folded(paths)) {
      ExhaustedIsLarge(candidates[|paths|], used + Folded(paths));
    } else {
      OneMoreNew(used, paths, p);
    }
  }

  lemma FoldedStep(paths: seq<string>, p: string)
    ensures Folded(paths + [p]) == Folded(paths) + {Lower(p)}
  {
    hide Lower;
    assert (paths + [p])[..|paths|] == paths;
  }

  lemma PrefixesStay(candidates: seq<string>, paths: seq<string>, used: set<string>, p: string)
    requires var i := |paths|;
            && i < |candidates| && NewUnlessExhausted(candidates[..i], paths, used)
            && (Lower(p) in used + Folded(paths) <==> Exhausted(candidates[i], used + Folded(paths)))
    ensures NewUnlessExhausted(candidates[..|paths| + 1], paths + [p], used)
  {
    hide Exhausted, Lower, Folded;
    assert (paths + [p])[..|paths|] == paths;
    assert forall k | 0 <= k < |paths| :: (paths + [p])[..k] == paths[..k];
  }

  ghost predicate AllNew(used: set<string>, paths: seq<string>) {
    && (forall i | 0 <= i < |paths| :: Lower(paths[i]) !in used)
    && (forall i, j | 0 <= i < j < |paths| :: Lower(paths[i]) != Lower(paths[j]))
  }

  lemma OneMoreNew(used: set<string>, paths: seq<string>, p: string)
    requires Lower(p) !in used + Folded(paths)
    ensures AllNew(used, paths) ==> AllNew(used, paths + [p])
  {
    hide Lower;
    forall k | 0 <= k < |paths|
      ensures Lower(paths[k]) != Lower(p)
    {
      FoldedContains(paths, k);
    }
  }

  // ----- resolved paths still join -----

  /** The numbered variant of a plain name is plain. */
  lemma NumberedNameIsPlain(name: string, n: nat)
    requires '/' !in name && !Hostile(name)
    ensures Plain(Numbered(name, n))
  {
    var v := Numbered(name, n);
    assert |v| >= 4;
    assert Head(name) == name[..Dot(name)] && Tail(name) == name[Dot(name)..] by {
      assert LastIndex(name, '/') < 0;
      assert name[0..] == name;
    }
    forall k | 0 <= k < |v|
      ensures v[k] != '/' && v[k] != '\\' && v[k] != ':'
    {
      NumberedChar(Head(name), Decimal(n), Tail(name), k);
    }
  }

  lemma NumberedChar(h: string, d: string, t: string, k: nat)
    requires k < |h + " (" + d + ")" + t|
    ensures var c := (h + " (" + d + ")" + t)[k]; c in h || c in d || c in t || c == ' ' || c == '(' || c == ')'
  {
  }

  lemma LastIndexInDirectory(dir: string, name: string)
    requires '/' !in name
    ensures LastIndex(dir + ['/'] + name, '/') == |dir|
    ensures LastIndex(name, '/') < 0
  {
    assert (dir + ['/'] + name)[|dir|] == '/';
  }

  lemma NumberedKeepsDirectory(dir: string, name: string, n: nat)
    requires '/' !in name
    ensures Numbered(dir + ['/'] + name, n) == dir + ['/'] + Numbered(name, n)
  {
    HeadAndTail(dir, name);
    hide Head, Tail, Decimal;
    Regroup(dir + ['/'], Head(name), Decimal(n), Tail(name));
  }

  /** In a name with an extension the number goes before the last dot, unless the name begins with it. */
  lemma NumberBeforeExtension(stem: string, ext: string, n: nat)
    requires stem != "" && '.' !in ext && '/' !in stem + "." + ext
    ensures Numbered(stem + "." + ext, n) == stem + " (" + Decimal(n) + ")." + ext
  {
    var name := stem + "." + ext;
    TailIndex(stem + ".", ext, '.');
    LastIndexIs(name, '.', |stem|);
    NoSlash(name);
    hide NameStart, LastIndex, Decimal;
    assert name[0..] == name && name[..|stem|] == stem && name[|stem|..] == "." + ext;
    assert ")" + ("." + ext) == ")." + ext;
    assert Numbered(name, n) == stem + " (" + Decimal(n) + ")" + ("." + ext);
    Reassociate(stem + " (" + Decimal(n), ")", "." + ext);
    Reassociate(stem + " (" + Decimal(n), ").", ext);
  }

  lemma Reassociate(a: string, b: string, c: string)
    ensures (a + b) + c == a + (b + c)
  {
  }

  /** In a name without an extension the number goes to the end; a dot in front is no extension. */
  lemma NumberAtEnd(name: string, n: nat)
    requires '/' !in name && forall k | 0 < k < |name| :: name[k] != '.'
    ensures Numbered(name, n) == name + " (" + Decimal(n) + ")"
  {
    NoSlash(name);
    hide NameStart, LastIndex, Decimal;
    assert LastIndex(name, '.') <= 0;
    assert name[0..] == name && name[..|name|] == name && name[|name|..] == "";
    assert Numbered(name, n) == name + " (" + Decimal(n) + ")" + "";
  }

  lemma NoSlash(name: string)
    requires '/' !in name
    ensures NameStart(name) == 0
  {
    hide LastIndex;
  }

  lemma HeadAndTail(dir: string, name: string)
    requires '/' !in name
    ensures Head(dir + ['/'] + name) == dir + ['/'] + Head(name) && Tail(dir + ['/'] + name) == Tail(name)
  {
    NameStarts(dir, name);
    hide *;
    var p := dir + ['/'];
    HeadTailAt(p, name);
    HeadTailOf(name);
    CutAfter(p, name, Dot(name));
  }

  lemma NameStarts(dir: string, name: string)
    requires '/' !in name
    ensures NameStart(dir + ['/'] + name) == |dir + ['/']| && NameStart(name) == 0
  {
    LastIndexInDirectory(dir, name);
    hide LastIndex;
  }

  lemma HeadTailOf(name: string)
    requires NameStart(name) == 0
    ensures Head(name) == name[..Dot(name)] && Tail(name) == name[Dot(name)..]
  {
    hide NameStart, Dot;
    assert name[0..] == name;
  }

  lemma HeadTailAt(dir: string, name: string)
    requires NameStart(dir + name) == |dir|
    ensures Head(dir + name) == (dir + name)[..|dir| + Dot(name)]
    ensures Tail(dir + name) == (dir + name)[|dir| + Dot(name)..]
  {
    hide NameStart, Dot;
    assert (dir + name)[|dir|..] == name;
  }

  lemma CutAfter(a: string, b: string, k: nat)
    requires k <= |b|
    ensures (a + b)[..|a| + k] == a + b[..k] && (a + b)[|a| + k..] == b[k..]
  {
  }

  lemma Regroup(dir: string, h: string, d: string, t: string)
    ensures (dir + h) + " (" + d + ")" + t == dir + (h + " (" + d + ")" + t)
  {
  }

  /**
   A sanitised path is still joined below the root after it has been numbered, and only its last
   component has changed.
   */
  lemma NumberedPathJoins(raw: string, n: nat)
    requires SanitizedRelPath(raw).Ok?
    ensures var comps := Split(SanitizedRelPath(raw).value, '/');
            var last := |comps| - 1;
            SafeJoin(Numbered(SanitizedRelPath(raw).value, n)) == Some(comps[last := Numbered(comps[last], n)])
  {
    AcceptedPathIsPortable(raw);
    var p := SanitizedRelPath(raw).value;
    var comps := Split(p, '/');
    forall c | c in comps
      ensures Plain(c)
    {
      PortableIsPlain(c);
    }
    JoinSplit(p, '/');
    NumberedJoin(comps, n);
    RenamedLastJoins(comps, n);
  }

  lemma RenamedLastJoins(comps: seq<string>, n: nat)
    requires comps != []
    requires forall c | c in comps :: Plain(c)
    ensures var last := |comps| - 1;
            var renamed := comps[last := Numbered(comps[last], n)];
            SafeJoin(Join(renamed, '/')) == Some(renamed)
  {
    var last := |comps| - 1;
    var v := Numbered(comps[last], n);
    assert Plain(v) by {
      assert comps[last] in comps;
      NumberedNameIsPlain(comps[last], n);
    }
    PlainUpdate(comps, last, v);
    SafeJoinPlain(comps[last := v]);
  }

  lemma PlainUpdate(comps: seq<string>, i: nat, v: string)
    requires i < |comps| && Plain(v)
    requires forall c | c in comps :: Plain(c)
    ensures forall c | c in comps[i := v] :: Plain(c)
  {
  }

  lemma {:induction false} NumberedJoin(comps: seq<string>, n: nat)
    requires comps != []
    requires forall c | c in comps :: '/' !in c
    ensures var last := |comps| - 1;
            Numbered(Join(comps, '/'), n) == Join(comps[last := Numbered(comps[last], n)], '/')
  {
    var last := |comps| - 1;
    var renamed := comps[last := Numbered(comps[last], n)];
    if last > 0 {
      JoinInitLast(comps, '/');
      JoinInitLast(renamed, '/');
      assert renamed[..last] == comps[..last];
      NumberedKeepsDirectory(Join(comps[..last], '/'), comps[last], n);
    }
  }

  lemma {:induction false} JoinInitLast(parts: seq<string>, sep: char)
    requires |parts| > 1
    ensures Join(parts, sep) == Join(parts[..|parts| - 1], sep) + [sep] + parts[|parts| - 1]
  {
    var n := |parts| - 1;
    if n > 1 {
      JoinInitLast(parts[1..], sep);
      assert parts[1..][..n - 1] == parts[..n][1..];
      var front := parts[0] + [sep];
      assert front + (Join(parts[..n][1..], sep) + [sep] + parts[n]) == (front + Join(parts[..n][1..], sep)) +
          [sep] + parts[n];
    }
  }
}
