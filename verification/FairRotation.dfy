/** Computing the up-next order: grouping, sorting lanes, and cycling through them. */
module FairRotation {
  import opened Ordering
  import opened UpNext

  /** The items of one contributor, strongest first. */
  datatype Lane = Lane(contributor: string, items: seq<QueueItem>)

  predicate LaneBefore(a: Lane, b: Lane) {
    a.items != [] && b.items != [] && Stronger(a.items[0], b.items[0])
  }

  ghost function ItemsOf(all: set<QueueItem>, c: string): set<QueueItem> {
    set x | x in all && x.contributor == c
  }

  ghost function Contributors(all: set<QueueItem>): set<string> {
    set x | x in all :: x.contributor
  }

  ghost predicate LaneOk(all: set<QueueItem>, lane: Lane) {
    lane.items != [] && Lists(lane.items, ItemsOf(all, lane.contributor), Stronger)
  }

  // ----- building the lanes -----

  ghost predicate Grouped(groups: map<string, seq<QueueItem>>, all: set<QueueItem>) {
    && groups.Keys == Contributors(all)
    && forall c | c in groups :: groups[c] != [] && Distinct(groups[c]) && Elements(groups[c]) == ItemsOf(all, c)
  }

  lemma GroupedOneMore(groups: map<string, seq<QueueItem>>, all: set<QueueItem>, x: QueueItem)
    requires Grouped(groups, all) && x !in all
    ensures var c := x.contributor;
            Grouped(groups[c := (if c in groups then groups[c] else []) + [x]], all + {x})
  {
    var c := x.contributor;
    var more := groups[c := (if c in groups then groups[c] else []) + [x]];
    assert Contributors(all + {x}) == Contributors(all) + {c};
    forall d | d in more
      ensures Distinct(more[d]) && Elements(more[d]) == ItemsOf(all + {x}, d)
    {
      if d == c {
        if c in groups {
          assert x !in Elements(groups[c]);
          assert Elements(more[c]) == Elements(groups[c]) + {x};
        } else {
          forall y | y in all
            ensures y.contributor != c
          {
            assert y.contributor in Contributors(all);
          }
          assert Elements(more[c]) == {x};
        }
        assert ItemsOf(all + {x}, c) == ItemsOf(all, c) + {x};
      } else {
        assert ItemsOf(all + {x}, d) == ItemsOf(all, d);
      }
    }
  }

  method Group(items: seq<QueueItem>) returns (groups: map<string, seq<QueueItem>>)
    requires Distinct(items)
    ensures Grouped(groups, Elements(items))
  {
    groups := map[];
    for i := 0 to |items|
      invariant Grouped(groups, Elements(items[..i]))
    {
      var it := items[i];
      assert it !in items[..i];
      GroupedOneMore(groups, Elements(items[..i]), it);
      assert Elements(items[..i + 1]) == Elements(items[..i]) + {it};
      groups := groups[it.contributor := (if it.contributor in groups then groups[it.contributor] else []) + [it]];
    }
    assert items[..|items|] == items;
  }

  /** One lane for each contributor, strongest first. */
  ghost predicate LanesOk(all: set<QueueItem>, lanes: seq<Lane>) {
    && (forall k | 0 <= k < |lanes| :: LaneOk(all, lanes[k]))
    && (forall x | x in all :: exists k | 0 <= k < |lanes| :: lanes[k].contributor == x.contributor)
    && (forall i, k | 0 <= i < k < |lanes| :: LaneBefore(lanes[i], lanes[k]))
  }

  /** Lanes in whatever order the hash map yields the contributors. */
  ghost predicate LanesFor(all: set<QueueItem>, lanes: seq<Lane>, keys: set<string>) {
    && (forall k | 0 <= k < |lanes| :: LaneOk(all, lanes[k]) && lanes[k].contributor !in keys)
    && (forall c | c in Contributors(all) && c !in keys :: exists k | 0 <= k < |lanes| :: lanes[k].contributor == c)
    && (forall i, k | 0 <= i < k < |lanes| :: lanes[i].contributor != lanes[k].contributor)
  }

  lemma LanesForOneMore(all: set<QueueItem>, lanes: seq<Lane>, keys: set<string>, lane: Lane)
    requires LanesFor(all, lanes, keys) && LaneOk(all, lane) && lane.contributor in keys
    ensures LanesFor(all, lanes + [lane], keys - {lane.contributor})
  {
    hide LaneOk;
    var more := lanes + [lane];
    forall c | c in Contributors(all) && c !in keys - {lane.contributor}
      ensures exists k | 0 <= k < |more| :: more[k].contributor == c
    {
      if c in keys {
        assert more[|lanes|].contributor == c;
      } else {
        var k :| 0 <= k < |lanes| && lanes[k].contributor == c;
        assert more[k].contributor == c;
      }
    }
  }

  lemma SortedLane(all: set<QueueItem>, groups: map<string, seq<QueueItem>>, c: string)
    requires UniqueIds(all) && Grouped(groups, all) && c in groups
    ensures LaneOk(all, Lane(c, SortBy(groups[c], Stronger)))
  {
    StrongerTotal(ItemsOf(all, c));
    SortByLists(groups[c], Stronger);
    assert groups[c][0] in Elements(groups[c]);
  }

  lemma LanesTotal(all: set<QueueItem>, lanes: seq<Lane>)
    requires UniqueIds(all) && LanesFor(all, lanes, {})
    ensures Distinct(lanes) && StrictTotal(Elements(lanes), LaneBefore)
  {
    forall i, k | 0 <= i < |lanes| && 0 <= k < |lanes| && i != k
      ensures lanes[i] != lanes[k] && (LaneBefore(lanes[i], lanes[k]) || LaneBefore(lanes[k], lanes[i]))
    {
      assert LaneOk(all, lanes[i]) && LaneOk(all, lanes[k]);
      assert lanes[i].items[0] in Elements(lanes[i].items) && lanes[k].items[0] in Elements(lanes[k].items);
    }
  }

  lemma SortedLanes(all: set<QueueItem>, lanes: seq<Lane>)
    requires UniqueIds(all) && LanesFor(all, lanes, {})
    ensures LanesOk(all, SortBy(lanes, LaneBefore))
  {
    hide LaneOk, LaneBefore;
    LanesTotal(all, lanes);
    SortByLists(lanes, LaneBefore);
    var sorted := SortBy(lanes, LaneBefore);
    forall k | 0 <= k < |sorted|
      ensures LaneOk(all, sorted[k])
    {
      assert sorted[k] in Elements(sorted);
    }
    forall x | x in all
      ensures exists k | 0 <= k < |sorted| :: sorted[k].contributor == x.contributor
    {
      assert x.contributor in Contributors(all);
      var k :| 0 <= k < |lanes| && lanes[k].contributor == x.contributor;
      assert lanes[k] in Elements(lanes);
      assert lanes[k] in Elements(sorted);
    }
  }

  method BuildLanes(items: seq<QueueItem>) returns (lanes: seq<Lane>)
    requires Distinct(items) && UniqueIds(Elements(items))
    ensures LanesOk(Elements(items), lanes)
  {
    hide LaneOk, Grouped, LaneBefore, LanesOk, LanesFor;
    var groups := Group(items);
    lanes := [];
    var keys := groups.Keys;
    NoLanes(Elements(items), groups);
    while keys != {}
      invariant keys <= groups.Keys
      invariant LanesFor(Elements(items), lanes, keys)
      decreases |keys|
    {
      var c :| c in keys;
      SortedLane(Elements(items), groups, c);
      LanesForOneMore(Elements(items), lanes, keys, Lane(c, SortBy(groups[c], Stronger)));
      lanes := lanes + [Lane(c, SortBy(groups[c], Stronger))];
      keys := keys - {c};
    }
    SortedLanes(Elements(items), lanes);
    lanes := SortBy(lanes, LaneBefore);
  }

  lemma NoLanes(all: set<QueueItem>, groups: map<string, seq<QueueItem>>)
    requires Grouped(groups, all)
    ensures LanesFor(all, [], groups.Keys)
  {
  }

  // ----- cycling through the lanes -----

  /** A lane's entries are its contributor's turns. */
  lemma LaneRound(all: set<QueueItem>, lane: Lane, j: nat)
    requires UniqueIds(all) && LaneOk(all, lane) && j < |lane.items|
    ensures lane.items[j] in all && lane.items[j].contributor == lane.contributor
    ensures Round(all, lane.items[j]) == j
  {
    var x := lane.items[j];
    assert x in Elements(lane.items);
    StrongerTotal(all);
    ListingDistinct(lane.items, ItemsOf(all, lane.contributor), Stronger);
    PrefixSize(lane.items, j);
    forall y
      ensures y in Ahead(all, x) <==> y in Elements(lane.items[..j])
    {
      if y in Ahead(all, x) {
        assert y in Elements(lane.items);
        var i :| 0 <= i < |lane.items| && lane.items[i] == y;
        assert lane.items[..j][i] == y;
      }
      if y in lane.items[..j] {
        var i :| 0 <= i < j && lane.items[..j][i] == y;
        assert lane.items[i] in Elements(lane.items);
      }
    }
    assert Ahead(all, x) == Elements(lane.items[..j]);
  }

  lemma {:induction false} PrefixSize<T>(q: seq<T>, j: nat)
    requires Distinct(q) && j <= |q|
    ensures |Elements(q[..j])| == j
  {
    if j > 0 {
      PrefixSize(q, j - 1);
      OneMoreElement(q[..j], q[..j - 1], q[j - 1]);
    }
  }

  lemma OneMoreElement<T>(q: seq<T>, front: seq<T>, x: T)
    requires q == front + [x]
    ensures Elements(q) == Elements(front) + {x}
  {
  }

  lemma LaneLeads(all: set<QueueItem>, lanes: seq<Lane>, i: nat, k: nat)
    requires UniqueIds(all) && LanesOk(all, lanes) && i < k < |lanes|
    ensures Leads(all, lanes[i].contributor, lanes[k].contributor)
  {
    var g, h := lanes[i].items[0], lanes[k].items[0];
    assert LaneBefore(lanes[i], lanes[k]) && LaneOk(all, lanes[i]) && LaneOk(all, lanes[k]);
    LaneHead(all, lanes[i]);
    LaneHead(all, lanes[k]);
    LeadsByHeads(all, g, h);
  }

  lemma LaneHead(all: set<QueueItem>, lane: Lane)
    requires LaneOk(all, lane)
    ensures Head(all, lane.items[0]) && lane.items[0].contributor == lane.contributor
  {
    var g := lane.items[0];
    assert g in Elements(lane.items);
    forall y | y in all && y.contributor == g.contributor && y != g
      ensures Stronger(g, y)
    {
      assert y in Elements(lane.items);
    }
  }

  /** Entry `b` of lane `k` comes after entry `a` of lane `i`. */
  lemma LaneEntriesInOrder(all: set<QueueItem>, lanes: seq<Lane>, i: nat, a: nat, k: nat, b: nat)
    requires UniqueIds(all) && LanesOk(all, lanes)
    requires i < |lanes| && a < |lanes[i].items| && k < |lanes| && b < |lanes[k].items|
    requires a < b || (a == b && i < k)
    ensures FairBefore(all, lanes[i].items[a], lanes[k].items[b])
  {
    hide Round, Leads, LaneOk;
    LaneRound(all, lanes[i], a);
    LaneRound(all, lanes[k], b);
    if a == b {
      LaneLeads(all, lanes, i, k);
    }
  }

  /** Exactly the entries before the cursors have been taken, in fair order. */
  ghost predicate Taken(all: set<QueueItem>, lanes: seq<Lane>, cursor: seq<nat>, out: seq<QueueItem>)
    requires |cursor| == |lanes|
  {
    && (forall k | 0 <= k < |lanes| :: cursor[k] <= |lanes[k].items|)
    && (forall k, j | 0 <= k < |lanes| && 0 <= j < cursor[k] :: lanes[k].items[j] in out)
    && (forall n | 0 <= n < |out| :: exists k, j | 0 <= k < |lanes| &&
        0 <= j < cursor[k] :: out[n] == lanes[k].items[j])
    && Increasing(out, FairOrder(all))
  }

  /** Before lane `i` of round `r`. */
  ghost predicate At(lanes: seq<Lane>, cursor: seq<nat>, r: nat, i: nat)
    requires |cursor| == |lanes|
  {
    forall k | 0 <= k < |lanes| ::
      var reach := if k < i then r + 1 else r;
      cursor[k] == if reach < |lanes[k].items| then reach else |lanes[k].items|
  }

  lemma TakeNext(all: set<QueueItem>, lanes: seq<Lane>, cursor: seq<nat>, out: seq<QueueItem>, r: nat, i: nat)
    requires UniqueIds(all) && LanesOk(all, lanes) && |cursor| == |lanes| && i < |lanes|
    requires Taken(all, lanes, cursor, out) && At(lanes, cursor, r, i) && cursor[i] < |lanes[i].items|
    ensures Taken(all, lanes, cursor[i := cursor[i] + 1], out + [lanes[i].items[cursor[i]]])
    ensures cursor[i] == r && At(lanes, cursor[i := cursor[i] + 1], r, i + 1)
  {
    hide LanesOk, FairBefore;
    var x := lanes[i].items[cursor[i]];
    var moved, more := cursor[i := cursor[i] + 1], out + [x];
    forall n | 0 <= n < |out|
      ensures FairOrder(all)(out[n], x)
      ensures exists k, j | 0 <= k < |lanes| && 0 <= j < moved[k] :: more[n] == lanes[k].items[j]
    {
      var k, j :| 0 <= k < |lanes| && 0 <= j < cursor[k] && out[n] == lanes[k].items[j];
      LaneEntriesInOrder(all, lanes, k, j, i, cursor[i]);
      assert 0 <= j < moved[k] && more[n] == lanes[k].items[j];
    }
    assert more[|out|] == lanes[i].items[moved[i] - 1];
    forall k, j | 0 <= k < |lanes| && 0 <= j < moved[k]
      ensures lanes[k].items[j] in more
    {
      if j < cursor[k] {
        assert lanes[k].items[j] in out;
      }
    }
  }

  /** With every lane exhausted the output is the fair order of all items. */
  lemma AllTaken(all: set<QueueItem>, lanes: seq<Lane>, cursor: seq<nat>, out: seq<QueueItem>)
    requires UniqueIds(all) && LanesOk(all, lanes) && |cursor| == |lanes| && Taken(all, lanes, cursor, out)
    requires forall k | 0 <= k < |lanes| :: cursor[k] == |lanes[k].items|
    ensures out == PlayOrder(all, Fair)
  {
    forall x
      ensures x in Elements(out) <==> x in all
    {
      if x in all {
        var k :| 0 <= k < |lanes| && lanes[k].contributor == x.contributor;
        assert LaneOk(all, lanes[k]);
        assert x in Elements(lanes[k].items);
        var j :| 0 <= j < |lanes[k].items| && lanes[k].items[j] == x;
      }
      if x in out {
        var n :| 0 <= n < |out| && out[n] == x;
        var k, j :| 0 <= k < |lanes| && 0 <= j < cursor[k] && out[n] == lanes[k].items[j];
        assert LaneOk(all, lanes[k]);
        LaneRound(all, lanes[k], j);
      }
    }
    FairTotal(all);
    IsAscending(out, all, FairOrder(all));
  }

  lemma RoundBound(all: set<QueueItem>, lane: Lane)
    requires UniqueIds(all) && LaneOk(all, lane)
    ensures |lane.items| <= |all|
  {
    var n := |lane.items| - 1;
    LaneRound(all, lane, n);
    var before := Ahead(all, lane.items[n]);
    assert lane.items[n] !in before && before + {lane.items[n]} <= all;
    SubsetSize(before + {lane.items[n]}, all);
  }

  lemma SubsetSize<T>(a: set<T>, b: set<T>)
    requires a <= b
    ensures |a| <= |b|
  {
    assert b == a + (b - a);
  }

  /** One turn for every lane that has items left. */
  method OneRound(ghost all: set<QueueItem>, lanes: seq<Lane>, cursor: array<nat>, out: seq<QueueItem>, ghost r: nat)
    returns (more: seq<QueueItem>, tookAny: bool)
    requires UniqueIds(all) && LanesOk(all, lanes) && cursor.Length == |lanes|
    requires Taken(all, lanes, cursor[..], out) && At(lanes, cursor[..], r, 0)
    modifies cursor
    ensures Taken(all, lanes, cursor[..], more) && At(lanes, cursor[..], r + 1, 0)
    ensures tookAny <==> exists k | 0 <= k < |lanes| :: r < |lanes[k].items|
    ensures !tookAny ==> more == out && cursor[..] == old(cursor[..])
  {
    hide LanesOk, Taken;
    more, tookAny := out, false;
    for i := 0 to |lanes|
      invariant Taken(all, lanes, cursor[..], more) && At(lanes, cursor[..], r, i)
      invariant tookAny <==> exists k | 0 <= k < i :: r < |lanes[k].items|
      invariant !tookAny ==> more == out && cursor[..] == old(cursor[..])
    {
      if cursor[i] < |lanes[i].items| {
        TakeNext(all, lanes, cursor[..], more, r, i);
        more := more + [lanes[i].items[cursor[i]]];
        ghost var was := cursor[..];
        cursor[i] := cursor[i] + 1;
        assert cursor[..] == was[i := was[i] + 1];
        tookAny := true;
      }
    }
  }

  /** The fair order does not depend on the order of the items or of the groups. */
  method FairRotation(items: seq<QueueItem>) returns (order: seq<nat>)
    requires Distinct(items) && UniqueIds(Elements(items))
    ensures order == Ids(PlayOrder(Elements(items), Fair))
  {
    hide LanesOk, Taken, PlayOrder;
    ghost var all := Elements(items);
    var lanes := BuildLanes(items);
    var out: seq<QueueItem> := [];
    var cursor := new nat[|lanes|](_ => 0);
    ghost var r := 0;
    NothingTaken(all, lanes, cursor[..]);
    var tookAny := true;
    while tookAny
      invariant Taken(all, lanes, cursor[..], out)
      invariant tookAny ==> At(lanes, cursor[..], r, 0)
      invariant !tookAny ==> forall k | 0 <= k < |lanes| :: cursor[k] == |lanes[k].items|
      invariant r <= |all|
      decreases tookAny, |all| - r
    {
      out, tookAny := OneRound(all, lanes, cursor, out, r);
      if tookAny {
        LaneLongerThan(all, lanes, r);
        r := r + 1;
      }
    }
    AllTaken(all, lanes, cursor[..], out);
    order := Ids(out);
  }

  lemma NothingTaken(all: set<QueueItem>, lanes: seq<Lane>, cursor: seq<nat>)
    requires |cursor| == |lanes| && forall k | 0 <= k < |lanes| :: cursor[k] == 0
    ensures Taken(all, lanes, cursor, []) && At(lanes, cursor, 0, 0)
  {
  }

  lemma LaneLongerThan(all: set<QueueItem>, lanes: seq<Lane>, r: nat)
    requires UniqueIds(all) && LanesOk(all, lanes) && exists k | 0 <= k < |lanes| :: r < |lanes[k].items|
    ensures r < |all|
  {
    var k :| 0 <= k < |lanes| && r < |lanes[k].items|;
    RoundBound(all, lanes[k]);
  }

  /** Votes first, then the earlier addition, then the lower id, across all contributors. */
  method VoteRanked(items: seq<QueueItem>) returns (order: seq<nat>)
    requires Distinct(items) && UniqueIds(Elements(items))
    ensures order == Ids(PlayOrder(Elements(items), Votes))
  {
    StrongerTotal(Elements(items));
    SortByLists(items, Stronger);
    IsAscending(SortBy(items, Stronger), Elements(items), Stronger);
    order := Ids(SortBy(items, Stronger));
  }

  method OrderUpNext(items: seq<QueueItem>, mode: OrderMode) returns (order: seq<nat>)
    requires Distinct(items) && UniqueIds(Elements(items))
    ensures order == Ids(PlayOrder(Elements(items), mode))
  {
    match mode {
      case Votes => order := VoteRanked(items);
      case Fair => order := FairRotation(items);
    }
  }
}
