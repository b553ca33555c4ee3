/** Joining a manifest path under a destination root. */
module Paths {
  import opened Hashing
  import opened Ordering
  import opened Strings

  /** A location strictly below the root, as the list of its components. */
  type Path = seq<string>

  /** Components the join skips. */
  predicate Skipped(comp: string) {
    comp == "" || comp == "."
  }

  /** Components that make the whole path unsafe. */
  predicate Hostile(comp: string) {
    comp == ".." || '\\' in comp || ':' in comp
  }

  lemma SkippedIsNotHostile(comp: string)
    requires Skipped(comp)
    ensures !Hostile(comp)
  {
  }

  /** Components that are kept as they stand. */
  predicate Plain(comp: string) {
    !Skipped(comp) && !Hostile(comp) && '/' !in comp
  }

  function Kept(comps: seq<string>): (kept: seq<string>)
    ensures forall c | c in kept :: c in comps && !Skipped(c)
  {
    if comps == [] then []
    else
      var n := |comps| - 1;
      Kept(comps[..n]) + if Skipped(comps[n]) then [] else [comps[n]]
  }

  /** An accepted location is strictly below the root and has no component that could leave it. */
  lemma SafeJoinStaysBelow(rel: string)
    requires SafeJoin(rel).Some?
    ensures SafeJoin(rel).value != []
    ensures forall c | c in SafeJoin(rel).value :: Plain(c) && c != ".."
  {
    SplitPieces(rel, '/');
  }

  lemma KeptStep(comps: seq<string>, i: nat)
    requires i < |comps|
    ensures Kept(comps[..i + 1]) == Kept(comps[..i]) + if Skipped(comps[i]) then [] else [comps[i]]
    ensures AnyHostile(comps[..i + 1]) == (AnyHostile(comps[..i]) || Hostile(comps[i]))
  {
    assert comps[..i + 1][..i] == comps[..i];
  }

  predicate AnyHostile(comps: seq<string>): (r: bool)
    ensures !r ==> forall c | c in comps :: !Hostile(c)
    ensures r ==> exists c :: c in comps && Hostile(c)
  {
    if comps == [] then false
    else
      var n := |comps| - 1;
      assert comps == comps[..n] + [comps[n]];
      AnyHostile(comps[..n]) || Hostile(comps[n])
  }

  /** The safe location a `/`-separated path names, or `None` when it is refused. */
  function SafeJoin(rel: string): (r: Option<Path>)
    ensures r.Some? ==> r.value != []
  {
    var comps := Split(rel, '/');
    if AnyHostile(comps) then None
    else if Kept(comps) == [] then None
    else Some(Kept(comps))
  }

  /** A piece that refers to the parent, or carries a separator or a drive of another system. */
  ghost predicate LeadsAstray(piece: string) {
    piece == ".." || '\\' in piece || ':' in piece
  }

  ghost function NamedPieces(pieces: seq<string>): seq<string> {
    Keep(pieces, set p | p in pieces && p != "" && p != ".")
  }

  /**
   Exactly when a path is refused, and what is left of it otherwise: its pieces apart from the empty
   ones and `.`, in order.
   */
  lemma SafeJoinIff(rel: string)
    ensures var pieces := Split(rel, '/');
            SafeJoin(rel) ==
              if (exists p :: p in pieces && LeadsAstray(p)) || (forall p | p in pieces :: p == "" || p == ".")
              then None else Some(NamedPieces(pieces))
  {
    var pieces := Split(rel, '/');
    var named := set p | p in pieces && p != "" && p != ".";
    KeptIsNamed(pieces, named);
    KeepElements(pieces, named);
    hide Split, Kept, Keep, AnyHostile;
    assert Kept(pieces) != [] ==> Kept(pieces)[0] in named;
    if exists p :: p in pieces && p != "" && p != "." {
      var p :| p in pieces && p != "" && p != ".";
      assert p in Kept(pieces);
    }
  }

  lemma {:induction false} KeptIsNamed(pieces: seq<string>, named: set<string>)
    requires forall p | p in pieces :: p in named <==> p != "" && p != "."
    ensures Kept(pieces) == Keep(pieces, named)
  {
    if pieces != [] {
      var n := |pieces| - 1;
      assert pieces == pieces[..n] + [pieces[n]];
      KeptIsNamed(pieces[..n], named);
      KeepLast(pieces[..n], pieces[n], named);
    }
  }

  /** The join loop: skip empty and `.` components, refuse hostile ones, refuse the root itself. */
  method JoinUnderRoot(rel: string) returns (r: Option<Path>)
    ensures r == SafeJoin(rel)
  {
    var comps := Split(rel, '/');
    var out: Path := [];
    for i := 0 to |comps|
      invariant out == Kept(comps[..i])
      invariant !AnyHostile(comps[..i])
    {
      KeptStep(comps, i);
      if Skipped(comps[i]) {
        SkippedIsNotHostile(comps[i]);
        continue;
      }
      if Hostile(comps[i]) {
        assert comps[i] in comps;
        assert AnyHostile(comps);
        return None;
      }
      out := out + [comps[i]];
    }
    assert comps[..|comps|] == comps;
    if out == [] {
      return None;
    }
    return Some(out);
  }

  lemma {:induction false} KeptAll(comps: seq<string>)
    requires forall c | c in comps :: !Skipped(c)
    ensures Kept(comps) == comps
  {
    if comps != [] {
      var n := |comps| - 1;
      assert comps == comps[..n] + [comps[n]];
      assert forall c | c in comps[..n] :: c in comps;
      KeptAll(comps[..n]);
    }
  }

  /** A path that already consists of plain components is joined component for component. */
  lemma SafeJoinPlain(comps: seq<string>)
    requires comps != []
    requires forall c | c in comps :: Plain(c)
    ensures SafeJoin(Join(comps, '/')) == Some(comps)
  {
    SplitJoin(comps, '/');
    KeptAll(comps);
  }

  /**
   A normal form: joining the kept components again gives the same location, so two manifest
   paths clash on disk exactly when their kept components agree.
   */
  lemma SafeJoinNormalises(rel: string)
    requires SafeJoin(rel).Some?
    ensures SafeJoin(Join(SafeJoin(rel).value, '/')) == SafeJoin(rel)
  {
    SafeJoinStaysBelow(rel);
    SafeJoinPlain(SafeJoin(rel).value);
  }
}
