/** The two orderings of queued jukebox items. */
module UpNext {
  import opened Ordering

  datatype QueueItem = QueueItem(id: nat, contributor: string, votes: nat, addedAt: int)

  datatype OrderMode = Fair | Votes

  /** More votes, then the earlier addition, then the lower id. */
  predicate Stronger(a: QueueItem, b: QueueItem) {
    || a.votes > b.votes
    || (a.votes == b.votes && (a.addedAt < b.addedAt || (a.addedAt == b.addedAt && a.id < b.id)))
  }

  ghost predicate UniqueIds(all: set<QueueItem>) {
    forall a, b | a in all && b in all :: a.id == b.id ==> a == b
  }

  lemma StrongerTotal(all: set<QueueItem>)
    requires UniqueIds(all)
    ensures StrictTotal(all, Stronger)
  {
  }

  function Ids(q: seq<QueueItem>): (ids: seq<nat>)
    ensures |ids| == |q| && forall i | 0 <= i < |q| :: ids[i] == q[i].id
  {
    seq(|q|, i requires 0 <= i < |q| => q[i].id)
  }

  // ----- the fair order -----

  /** The contributor's own items that go before `x`. */
  ghost function Ahead(all: set<QueueItem>, x: QueueItem): set<QueueItem> {
    set y | y in all && y.contributor == x.contributor && Stronger(y, x)
  }

  /** The turn of its contributor in which an item is played. */
  ghost function Round(all: set<QueueItem>, x: QueueItem): nat {
    |Ahead(all, x)|
  }

  /** The contributor's strongest item beats everything the other contributor has. */
  ghost predicate Leads(all: set<QueueItem>, c: string, d: string) {
    exists x :: x in all && x.contributor == c && forall y | y in all && y.contributor == d :: Stronger(x, y)
  }

  /** Round by round, and within a round by the contributors' strongest items. */
  ghost predicate FairBefore(all: set<QueueItem>, a: QueueItem, b: QueueItem) {
    || Round(all, a) < Round(all, b)
    || (Round(all, a) == Round(all, b) && Leads(all, a.contributor, b.contributor))
  }

  ghost function FairOrder(all: set<QueueItem>): (QueueItem, QueueItem) -> bool {
    (a, b) => FairBefore(all, a, b)
  }

  lemma StrongerIsEarlier(all: set<QueueItem>, a: QueueItem, b: QueueItem)
    requires a in all && a.contributor == b.contributor && Stronger(a, b)
    ensures Round(all, a) < Round(all, b)
  {
    var before, after := Ahead(all, a), Ahead(all, b);
    assert before <= after && a in after - before;
    assert after == before + (after - before);
  }

  /** The strongest item of a contributor. */
  ghost predicate Head(all: set<QueueItem>, x: QueueItem) {
    x in all && forall y | y in all && y.contributor == x.contributor && y != x :: Stronger(x, y)
  }

  lemma {:induction false} HeadExists(all: set<QueueItem>, x: QueueItem) returns (h: QueueItem)
    requires UniqueIds(all) && x in all
    ensures Head(all, h) && h.contributor == x.contributor
    decreases Round(all, x)
  {
    if Ahead(all, x) == {} {
      h := x;
      assert forall y | y in all && y.contributor == x.contributor :: y !in Ahead(all, x);
    } else {
      var y :| y in Ahead(all, x);
      StrongerIsEarlier(all, y, x);
      h := HeadExists(all, y);
    }
  }

  lemma LeadsByHeads(all: set<QueueItem>, g: QueueItem, h: QueueItem)
    requires UniqueIds(all) && Head(all, g) && Head(all, h)
    ensures Leads(all, g.contributor, h.contributor) <==> Stronger(g, h)
  {
  }

  lemma LeadsTotal(all: set<QueueItem>, a: QueueItem, b: QueueItem)
    requires UniqueIds(all) && a in all && b in all
    ensures a.contributor != b.contributor ==>
              Leads(all, a.contributor, b.contributor) || Leads(all, b.contributor, a.contributor)
    ensures !(Leads(all, a.contributor, b.contributor) && Leads(all, b.contributor, a.contributor))
  {
    var g := HeadExists(all, a);
    var h := HeadExists(all, b);
    LeadsByHeads(all, g, h);
    LeadsByHeads(all, h, g);
  }

  lemma LeadsTransitive(all: set<QueueItem>, a: QueueItem, b: QueueItem, c: QueueItem)
    requires UniqueIds(all) && a in all && b in all && c in all
    requires Leads(all, a.contributor, b.contributor) && Leads(all, b.contributor, c.contributor)
    ensures Leads(all, a.contributor, c.contributor)
  {
  }

  /** The fair order decides between any two items. */
  lemma FairTotal(all: set<QueueItem>)
    requires UniqueIds(all)
    ensures StrictTotal(all, FairOrder(all))
  {
    hide Leads, Round;
    forall a, b | a in all && b in all
      ensures !FairBefore(all, a, a)
      ensures a != b ==> FairBefore(all, a, b) || FairBefore(all, b, a)
    {
      LeadsTotal(all, a, b);
      LeadsTotal(all, a, a);
      if a != b && a.contributor == b.contributor {
        if Stronger(a, b) {
          StrongerIsEarlier(all, a, b);
        } else {
          StrongerIsEarlier(all, b, a);
        }
      }
    }
    forall a, b, c | a in all && b in all && c in all && FairBefore(all, a, b) && FairBefore(all, b, c)
      ensures FairBefore(all, a, c)
    {
      if Round(all, a) == Round(all, c) {
        LeadsTransitive(all, a, b, c);
      }
    }
  }

  /** The play order of a set of items; nothing else about how they are stored matters. */
  ghost function PlayOrder(all: set<QueueItem>, mode: OrderMode): (q: seq<QueueItem>)
    requires UniqueIds(all)
    ensures Elements(q) == all && |q| == |all| && Distinct(q)
  {
    FairTotal(all);
    StrongerTotal(all);
    match mode
    case Fair => Ascending(all, FairOrder(all))
    case Votes => Ascending(all, Stronger)
  }

  // ----- what a fair order gives -----

  ghost predicate IsFair(q: seq<QueueItem>, all: set<QueueItem>) {
    UniqueIds(all) && Lists(q, all, FairOrder(all))
  }

  /** How many of the entries belong to a contributor. */
  function Turns(q: seq<QueueItem>, c: string): nat {
    if q == [] then 0 else Turns(q[..|q| - 1], c) + if q[|q| - 1].contributor == c then 1 else 0
  }

  lemma {:induction false} TurnsCount(q: seq<QueueItem>, c: string)
    requires Distinct(q)
    ensures Turns(q, c) == |set x | x in q && x.contributor == c|
  {
    if q != [] {
      var n := |q| - 1;
      TurnsCount(q[..n], c);
      LastNotBefore(q);
      CountOneMore(q[..n], q[n], q, c);
    } else {
      assert (set x | x in q && x.contributor == c) == {};
    }
  }

  lemma CountOneMore(front: seq<QueueItem>, x: QueueItem, q: seq<QueueItem>, c: string)
    requires x !in front && forall y :: y in q <==> y in front || y == x
    ensures |set y | y in q && y.contributor == c| == |set y | y in front &&
              y.contributor == c| + if x.contributor == c then 1 else 0
  {
    var before := set y | y in front && y.contributor == c;
    assert (set y | y in q && y.contributor == c) == if x.contributor == c then before + {x} else before;
  }

  lemma LastNotBefore<T>(q: seq<T>)
    requires q != [] && Distinct(q)
    ensures q[|q| - 1] !in q[..|q| - 1] && Distinct(q[..|q| - 1])
    ensures forall x :: x in q <==> x in q[..|q| - 1] || x == q[|q| - 1]
  {
    assert q == q[..|q| - 1] + [q[|q| - 1]];
  }

  /** What being earlier in a fair order means. */
  lemma InOrder(q: seq<QueueItem>, all: set<QueueItem>, i: nat, k: nat)
    requires IsFair(q, all) && i < k < |q|
    ensures q[i] in all && q[k] in all && UniqueIds(all) && q[i] != q[k]
    ensures Round(all, q[i]) <= Round(all, q[k])
    ensures Round(all, q[i]) == Round(all, q[k]) ==> Leads(all, q[i].contributor, q[k].contributor)
  {
  }

  lemma Placed(q: seq<QueueItem>, all: set<QueueItem>, x: QueueItem) returns (i: nat)
    requires IsFair(q, all) && x in all
    ensures i < |q| && q[i] == x
  {
    assert x in Elements(q);
    i :| 0 <= i < |q| && q[i] == x;
  }

  /** Each contributor's items are played strongest first. */
  lemma SiblingsInOrder(q: seq<QueueItem>, all: set<QueueItem>, i: nat, k: nat)
    requires IsFair(q, all) && i < |q| && k < |q| && q[i].contributor == q[k].contributor
    ensures i < k <==> Stronger(q[i], q[k])
  {
    if i != k {
      var a, b := if i < k then i else k, if i < k then k else i;
      InOrder(q, all, a, b);
      hide IsFair, Round, Leads;
      if Stronger(q[b], q[a]) {
        StrongerIsEarlier(all, q[b], q[a]);
      }
    }
  }

  /** An item is played in the turn its number of stronger siblings says. */
  lemma TurnIsRound(q: seq<QueueItem>, all: set<QueueItem>, k: nat)
    requires IsFair(q, all) && k < |q|
    ensures Turns(q[..k], q[k].contributor) == Round(all, q[k])
  {
    hide Turns, IsFair, Stronger;
    var x := q[k];
    FairIsDistinct(q, all);
    TurnsCount(q[..k], x.contributor);
    var mine := set y | y in q[..k] && y.contributor == x.contributor;
    forall y
      ensures y in Ahead(all, x) <==> y in mine
    {
      if y in Ahead(all, x) {
        var i := Placed(q, all, y);
        SiblingsInOrder(q, all, i, k);
        assert q[..k][i] == y;
      }
      if y in mine {
        var i :| 0 <= i < k && q[..k][i] == y;
        SiblingsInOrder(q, all, i, k);
        InOrder(q, all, i, k);
      }
    }
    assert Ahead(all, x) == mine;
  }

  lemma FairIsDistinct(q: seq<QueueItem>, all: set<QueueItem>)
    requires IsFair(q, all)
    ensures Distinct(q)
  {
  }

  lemma {:induction false} NextTurn(q: seq<QueueItem>, k: nat, i: nat) returns (n: nat)
    requires k <= i < |q|
    ensures k <= n <= i && q[n].contributor == q[i].contributor
    ensures Turns(q[..n], q[i].contributor) == Turns(q[..k], q[i].contributor)
    decreases i - k
  {
    if q[k].contributor == q[i].contributor {
      n := k;
    } else {
      assert q[..k + 1][..k] == q[..k];
      n := NextTurn(q, k + 1, i);
    }
  }

  lemma {:induction false} LastTurn(q: seq<QueueItem>, k: nat, c: string) returns (n: nat)
    requires k <= |q| && Turns(q[..k], c) > 0
    ensures n < k && q[n].contributor == c && Turns(q[..n], c) == Turns(q[..k], c) - 1
  {
    assert q[..k][..k - 1] == q[..k - 1];
    if q[k - 1].contributor == c {
      n := k - 1;
    } else {
      n := LastTurn(q, k - 1, c);
    }
  }

  /** While a contributor still has items, nobody else has had two turns more. */
  lemma TurnsStayClose(q: seq<QueueItem>, all: set<QueueItem>, k: nat, i: nat, d: string)
    requires IsFair(q, all) && k <= i < |q|
    ensures Turns(q[..k], d) <= Turns(q[..k], q[i].contributor) + 1
  {
    hide IsFair, Round, Leads, Turns;
    if Turns(q[..k], d) > 0 {
      var n := NextTurn(q, k, i);
      var l := LastTurn(q, k, d);
      TurnIsRound(q, all, n);
      TurnIsRound(q, all, l);
      InOrder(q, all, l, n);
    }
  }

  lemma TwoTurns(q: seq<QueueItem>, i: nat, d: string)
    requires i + 1 < |q|
    ensures q[i].contributor == q[i + 1].contributor ==>
              Turns(q[..i + 1], q[i].contributor) == Turns(q[..i], q[i].contributor) + 1
    ensures q[i].contributor != d && q[i + 1].contributor != d ==> Turns(q[..i + 2], d) == Turns(q[..i], d)
  {
    assert q[..i + 1][..i] == q[..i] && q[..i + 2][..i + 1] == q[..i + 1];
  }

  /** Nobody plays twice in a row while somebody else still has items. */
  lemma NoHogging(q: seq<QueueItem>, all: set<QueueItem>, i: nat, j: nat)
    requires IsFair(q, all) && i + 1 < j < |q|
    requires q[i].contributor == q[i + 1].contributor
    ensures q[j].contributor == q[i].contributor
  {
    hide IsFair, Round, Leads, Turns;
    var d := q[j].contributor;
    if q[i].contributor != d {
      TwoTurns(q, i, d);
      var n := NextTurn(q, i + 2, j);
      TurnIsRound(q, all, i);
      TurnIsRound(q, all, i + 1);
      TurnIsRound(q, all, n);
      InOrder(q, all, i + 1, n);
      var l := LastTurn(q, i, d);
      TurnIsRound(q, all, l);
      InOrder(q, all, l, i);
      LeadsTotal(all, q[i], q[n]);
    }
  }
}
