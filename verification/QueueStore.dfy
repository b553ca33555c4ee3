/**
 The jukebox tables. Each method is one SQL statement, which either happens or does not; the store
 records the tables after every statement, so that a process stop is a stop at one of them.
 */
module QueueStore {
  import opened Hashing
  import opened Ordering
  import opened UpNext

  datatype ItemType = SharedFile | DirectUrl | Youtube | External

  datatype RowState = Queued | Playing | Played

  datatype Row = Row(itemType: ItemType, ref: string, addedById: string, addedAt: int, state: RowState,
      sortOverride: Option<int>)

  datatype Vote = Vote(item: nat, voter: string)

  datatype Db = Db(rows: map<nat, Row>, votes: set<Vote>)

  /** An admin override: its rank and the item it pins. */
  datatype Pin = Pin(rank: int, id: nat)

  predicate PinBefore(a: Pin, b: Pin) {
    a.rank < b.rank || (a.rank == b.rank && a.id < b.id)
  }

  lemma PinsTotal(pins: set<Pin>)
    ensures StrictTotal(pins, PinBefore)
  {
  }

  // ----- the up-next order as a function of the tables -----

  predicate Waiting(rows: map<nat, Row>, id: nat) {
    id in rows && rows[id].state == Queued
  }

  function QueuedIds(rows: map<nat, Row>): set<nat> {
    set id | id in rows && rows[id].state == Queued
  }

  function PinOf(id: nat, row: Row): set<Pin> {
    if row.state == Queued && row.sortOverride.Some? then {Pin(row.sortOverride.value, id)} else {}
  }

  function Pins(rows: map<nat, Row>): set<Pin> {
    set id | id in rows && rows[id].state == Queued &&
        rows[id].sortOverride.Some? :: Pin(rows[id].sortOverride.value, id)
  }

  function VoteCount(votes: set<Vote>, id: nat): nat {
    |set v | v in votes && v.item == id|
  }

  ghost function VotesOn(votes: set<Vote>, id: nat): set<Vote> {
    set v | v in votes && v.item == id
  }

  function ItemAt(votes: set<Vote>, id: nat, row: Row): QueueItem {
    QueueItem(id, row.addedById, VoteCount(votes, id), row.addedAt)
  }

  function ItemOf(votes: set<Vote>, id: nat, row: Row): set<QueueItem> {
    if row.state == Queued && row.sortOverride.None? then {ItemAt(votes, id, row)} else {}
  }

  /** The queued items that follow the mode. */
  function Items(db: Db): set<QueueItem> {
    set id | id in db.rows && db.rows[id].state == Queued &&
        db.rows[id].sortOverride.None? :: ItemAt(db.votes, id, db.rows[id])
  }

  lemma ItemsUnique(db: Db)
    ensures UniqueIds(Items(db))
  {
  }

  function PinIds(q: seq<Pin>): (ids: seq<nat>)
    ensures |ids| == |q| && forall i | 0 <= i < |q| :: ids[i] == q[i].id
  {
    seq(|q|, i requires 0 <= i < |q| => q[i].id)
  }

  ghost function PinnedOrder(rows: map<nat, Row>): seq<nat> {
    PinsTotal(Pins(rows));
    PinIds(Ascending(Pins(rows), PinBefore))
  }

  ghost function ModeOrder(db: Db, mode: OrderMode): seq<nat> {
    ItemsUnique(db);
    Ids(PlayOrder(Items(db), mode))
  }

  /** Overridden items in override order, then the rest as the mode says. */
  ghost function UpNextOf(db: Db, mode: OrderMode): seq<nat> {
    PinnedOrder(db.rows) + ModeOrder(db, mode)
  }

  lemma PinnedOrderIds(rows: map<nat, Row>)
    ensures Distinct(PinnedOrder(rows))
    ensures forall id :: id in PinnedOrder(rows) <==> Waiting(rows, id) && rows[id].sortOverride.Some?
  {
    PinsTotal(Pins(rows));
    var q := Ascending(Pins(rows), PinBefore);
    forall i | 0 <= i < |q|
      ensures q[i] in Pins(rows)
    {
      assert q[i] in Elements(q);
    }
    forall id | Waiting(rows, id) && rows[id].sortOverride.Some?
      ensures id in PinIds(q)
    {
      assert Pin(rows[id].sortOverride.value, id) in Elements(q);
      var i :| 0 <= i < |q| && q[i].id == id;
      assert PinIds(q)[i] == id;
    }
  }

  lemma ModeOrderIds(db: Db, mode: OrderMode)
    ensures Distinct(ModeOrder(db, mode))
    ensures forall id :: id in ModeOrder(db, mode) <==> Waiting(db.rows, id) && db.rows[id].sortOverride.None?
  {
    hide Stronger, FairOrder, VoteCount;
    ItemsUnique(db);
    var q := PlayOrder(Items(db), mode);
    forall i | 0 <= i < |q|
      ensures q[i] in Items(db)
    {
      assert q[i] in Elements(q);
    }
    forall id | Waiting(db.rows, id) && db.rows[id].sortOverride.None?
      ensures id in Ids(q)
    {
      assert ItemAt(db.votes, id, db.rows[id]) in Elements(q);
      var i :| 0 <= i < |q| && q[i].id == id;
      assert Ids(q)[i] == id;
    }
  }

  /** The up-next order lists exactly the queued rows, each once. */
  lemma UpNextListsQueued(db: Db, mode: OrderMode)
    ensures Distinct(UpNextOf(db, mode)) && Elements(UpNextOf(db, mode)) == QueuedIds(db.rows)
  {
    PinnedOrderIds(db.rows);
    ModeOrderIds(db, mode);
    hide PinnedOrder, ModeOrder;
    forall i, j | 0 <= i < |PinnedOrder(db.rows)| && 0 <= j < |ModeOrder(db, mode)|
      ensures PinnedOrder(db.rows)[i] != ModeOrder(db, mode)[j]
    {
      assert PinnedOrder(db.rows)[i] in PinnedOrder(db.rows) && ModeOrder(db, mode)[j] in ModeOrder(db, mode);
    }
    forall id
      ensures id in UpNextOf(db, mode) <==> Waiting(db.rows, id)
    {
      assert id in UpNextOf(db, mode) <==> id in PinnedOrder(db.rows) || id in ModeOrder(db, mode);
    }
  }

  /** The lowest override among the queued rows; zero if there is none. */
  ghost function Lowest(rows: map<nat, Row>): (m: int)
    ensures forall p | p in Pins(rows) :: m <= p.rank
    ensures Pins(rows) == {} ==> m == 0
    ensures Pins(rows) != {} ==> exists p :: p in Pins(rows) && p.rank == m
  {
    PinsTotal(Pins(rows));
    var q := Ascending(Pins(rows), PinBefore);
    assert forall p | p in Pins(rows) :: p in Elements(q);
    if q == [] then 0 else assert q[0] in Elements(q); q[0].rank
  }

  // ----- what a change of one row does to the order -----

  lemma PinIn(rows: map<nat, Row>, p: Pin)
    ensures p in Pins(rows) <==> Waiting(rows, p.id) && rows[p.id].sortOverride == Some(p.rank)
  {
  }

  lemma ItemIn(db: Db, x: QueueItem)
    ensures x in Items(db) <==>
              Waiting(db.rows, x.id) && db.rows[x.id].sortOverride.None? && x == ItemAt(db.votes, x.id, db.rows[x.id])
  {
    hide VoteCount;
  }

  lemma PinsUpdate(rows: map<nat, Row>, id: nat, row: Row)
    ensures Pins(rows[id := row]) == (set p | p in Pins(rows) && p.id != id) + PinOf(id, row)
  {
    forall p
      ensures p in Pins(rows[id := row]) <==> (p in Pins(rows) && p.id != id) || p in PinOf(id, row)
    {
      PinIn(rows, p);
      PinIn(rows[id := row], p);
    }
  }

  lemma ItemsUpdate(db: Db, id: nat, row: Row)
    ensures Items(db.(rows := db.rows[id := row])) == (set x | x in Items(db) && x.id != id) + ItemOf(db.votes, id, row)
  {
    hide VoteCount;
    var other := db.(rows := db.rows[id := row]);
    forall x
      ensures x in Items(other) <==> (x in Items(db) && x.id != id) || x in ItemOf(db.votes, id, row)
    {
      ItemIn(db, x);
      ItemIn(other, x);
    }
  }

  lemma {:induction false} PinIdsWithout(q: seq<Pin>, p: Pin)
    requires forall i | 0 <= i < |q| :: q[i].id == p.id ==> q[i] == p
    ensures PinIds(Without(q, p)) == Without(PinIds(q), p.id)
  {
    if q != [] {
      PinIdsWithout(q[1..], p);
      assert PinIds(q)[1..] == PinIds(q[1..]);
      assert PinIds([q[0]] + Without(q[1..], p)) == [q[0].id] + PinIds(Without(q[1..], p));
    }
  }

  lemma {:induction false} IdsWithout(q: seq<QueueItem>, x: QueueItem)
    requires forall i | 0 <= i < |q| :: q[i].id == x.id ==> q[i] == x
    ensures Ids(Without(q, x)) == Without(Ids(q), x.id)
  {
    if q != [] {
      IdsWithout(q[1..], x);
      assert Ids(q)[1..] == Ids(q[1..]);
      assert Ids([q[0]] + Without(q[1..], x)) == [q[0].id] + Ids(Without(q[1..], x));
    }
  }

  /** Dropping a row's pin keeps the order of the other pins. */
  lemma PinnedWithout(rows: map<nat, Row>, others: map<nat, Row>, id: nat)
    requires Pins(others) == set p | p in Pins(rows) && p.id != id
    ensures PinnedOrder(others) == Without(PinnedOrder(rows), id)
  {
    PinsTotal(Pins(rows));
    PinsTotal(Pins(others));
    var q := Ascending(Pins(rows), PinBefore);
    if id in rows && PinOf(id, rows[id]) != {} {
      var p := Pin(rows[id].sortOverride.value, id);
      assert Pins(others) == Pins(rows) - {p};
      AscendingWithout(Pins(rows), p, PinBefore);
      forall i | 0 <= i < |q| && q[i].id == id
        ensures q[i] == p
      {
        assert q[i] in Elements(q);
      }
      PinIdsWithout(q, p);
    } else {
      assert Pins(others) == Pins(rows);
      PinnedOrderIds(rows);
      WithoutAbsent(PinnedOrder(rows), id);
    }
  }

  /** A pin below all others goes to the front. */
  lemma PinnedFirst(rows: map<nat, Row>, more: map<nat, Row>, p: Pin)
    requires Pins(more) == Pins(rows) + {p} && p !in Pins(rows) && forall o | o in Pins(rows) :: p.rank < o.rank
    ensures PinnedOrder(more) == [p.id] + PinnedOrder(rows)
  {
    PinsTotal(Pins(rows));
    PinsTotal(Pins(more));
    hide Pins, StrictTotal;
    AscendingFirst(p, Pins(rows), PinBefore);
    var q := Ascending(Pins(rows), PinBefore);
    assert Ascending(Pins(more), PinBefore) == [p] + q;
    PinIdsCons(p, q);
  }

  lemma PinIdsCons(p: Pin, q: seq<Pin>)
    ensures PinIds([p] + q) == [p.id] + PinIds(q)
  {
  }

  /** In votes mode dropping an item keeps the order of the others. */
  lemma VotesWithout(db: Db, other: Db, id: nat)
    requires Items(other) == set x | x in Items(db) && x.id != id
    ensures ModeOrder(other, Votes) == Without(ModeOrder(db, Votes), id)
  {
    hide VoteCount, Stronger, StrictTotal, Items, UniqueIds;
    ItemsUnique(db);
    ItemsUnique(other);
    StrongerTotal(Items(db));
    var q := Ascending(Items(db), Stronger);
    var x := ItemWith(db, id);
    ListedItems(db, q, id, x);
    if x in Items(db) {
      AscendingWithout(Items(db), x, Stronger);
      assert Items(other) == Items(db) - {x};
      IdsWithout(q, x);
    } else {
      assert Items(other) == Items(db);
      WithoutAbsent(Ids(q), id);
    }
  }

  /** The item with this id, if there is one. */
  lemma ItemWith(db: Db, id: nat) returns (x: QueueItem)
    ensures x.id == id
    ensures forall y | y in Items(db) && y.id == id :: y == x
  {
    hide VoteCount;
    x := if id in db.rows then ItemAt(db.votes, id, db.rows[id]) else QueueItem(id, "", 0, 0);
  }

  lemma ListedItems(db: Db, q: seq<QueueItem>, id: nat, x: QueueItem)
    requires Elements(q) == Items(db) && forall y | y in Items(db) && y.id == id :: y == x
    ensures forall i | 0 <= i < |q| && q[i].id == id :: q[i] == x
    ensures x.id == id && x !in Items(db) ==> id !in Ids(q)
  {
    hide Items;
    assert forall i | 0 <= i < |q| :: q[i] in Elements(q);
  }

  /** In the fair order, too, nothing goes before the strongest item of all. */
  lemma StrongestGoesFirst(all: set<QueueItem>, h: QueueItem, y: QueueItem)
    requires h in all && y in all && forall z | z in all && z != h :: Stronger(h, z)
    ensures !FairBefore(all, y, h)
  {
    assert Ahead(all, h) == {};
  }

  /** Both modes play the same item first: the strongest of all. */
  lemma SameFirst(all: set<QueueItem>)
    requires UniqueIds(all) && all != {}
    ensures PlayOrder(all, Fair)[0] == PlayOrder(all, Votes)[0]
  {
    var f, v := PlayOrder(all, Fair), PlayOrder(all, Votes);
    assert f[0] in Elements(f) && v[0] in Elements(v);
    var g, h := f[0], v[0];
    hide FairBefore;
    assert Increasing(v, Stronger) by { StrongerTotal(all); }
    assert Increasing(f, FairOrder(all)) by { FairTotal(all); }
    forall y | y in all && y != h
      ensures Stronger(h, y)
    {
      assert y in Elements(v);
    }
    if g != h {
      assert h in Elements(f);
      StrongestGoesFirst(all, h, g);
    }
  }

  /** Whatever the mode, the head of the order is the head of the votes order. */
  lemma HeadIsStrongest(db: Db, mode: OrderMode)
    ensures UpNextOf(db, mode) == [] <==> UpNextOf(db, Votes) == []
    ensures UpNextOf(db, mode) != [] ==> UpNextOf(db, mode)[0] == UpNextOf(db, Votes)[0]
  {
    hide PinnedOrder, Items, PlayOrder;
    ItemsUnique(db);
    if Items(db) != {} {
      SameFirst(Items(db));
    }
  }

  // ----- the order in terms of the tables -----

  /** More votes, then the earlier addition, then the lower id. */
  ghost predicate Outranks(db: Db, a: nat, b: nat)
    requires a in db.rows && b in db.rows
  {
    var m, n := |set v | v in db.votes && v.item == a|, |set v | v in db.votes && v.item == b|;
    m > n || (m == n && (db.rows[a].addedAt < db.rows[b].addedAt ||
                         (db.rows[a].addedAt == db.rows[b].addedAt && a < b)))
  }

  /** The row outranks all other rows of its client that are queued without override. */
  ghost predicate BestOfClient(db: Db, a: nat)
    requires a in db.rows
  {
    forall k | Waiting(db.rows, k) && db.rows[k].sortOverride.None? && k != a &&
        db.rows[k].addedById == db.rows[a].addedById :: Outranks(db, a, k)
  }

  /** Whether rank alone decides between two rows: always in votes mode, else within a client and between the best. */
  ghost predicate RankDecides(db: Db, mode: OrderMode, a: nat, b: nat)
    requires a in db.rows && b in db.rows
  {
    mode == Votes || db.rows[a].addedById == db.rows[b].addedById || (BestOfClient(db, a) && BestOfClient(db, b))
  }

  /** Overridden rows come first, lowest override first; where rank decides, the higher rank comes first. */
  ghost predicate FollowsTables(order: seq<nat>, db: Db, mode: OrderMode) {
    forall a, b | Waiting(db.rows, a) && Waiting(db.rows, b) && a != b ::
      var p, q := db.rows[a].sortOverride, db.rows[b].sortOverride;
      && (p.Some? && q.None? ==> Earlier(order, a, b))
      && (p.Some? && q.Some? ==>
        (Earlier(order, a, b) <==> p.value < q.value || (p.value == q.value && a < b)))
      && (p.None? && q.None? && RankDecides(db, mode, a, b) ==> (Earlier(order, a, b) <==> Outranks(db, a, b)))
  }

  lemma EarlierAt<T(!new)>(q: seq<T>, i: nat, j: nat)
    requires Distinct(q) && i < |q| && j < |q|
    ensures Earlier(q, q[i], q[j]) <==> i < j
  {
  }

  lemma ItemPlace(db: Db, mode: OrderMode, id: nat) returns (i: nat)
    requires Waiting(db.rows, id) && db.rows[id].sortOverride.None?
    ensures UniqueIds(Items(db))
    ensures i < |PlayOrder(Items(db), mode)| &&
              PlayOrder(Items(db), mode)[i] == ItemAt(db.votes, id, db.rows[id])
    ensures ItemAt(db.votes, id, db.rows[id]) in Items(db)
    ensures |PinnedOrder(db.rows)| + i < |UpNextOf(db, mode)| && UpNextOf(db, mode)[|PinnedOrder(db.rows)| + i] == id
  {
    ItemsUnique(db);
    ItemIn(db, ItemAt(db.votes, id, db.rows[id]));
    hide VoteCount, PinnedOrder, PlayOrder, Items;
    var q := PlayOrder(Items(db), mode);
    assert ItemAt(db.votes, id, db.rows[id]) in Elements(q);
    i :| 0 <= i < |q| && q[i] == ItemAt(db.votes, id, db.rows[id]);
    assert ModeOrder(db, mode)[i] == id;
  }

  lemma PinPlace(db: Db, mode: OrderMode, id: nat) returns (i: nat)
    requires Waiting(db.rows, id) && db.rows[id].sortOverride.Some?
    ensures StrictTotal(Pins(db.rows), PinBefore)
    ensures i < |Ascending(Pins(db.rows), PinBefore)|
    ensures Ascending(Pins(db.rows), PinBefore)[i] == Pin(db.rows[id].sortOverride.value, id)
    ensures i < |PinnedOrder(db.rows)| <= |UpNextOf(db, mode)| && UpNextOf(db, mode)[i] == id
  {
    PinsTotal(Pins(db.rows));
    PinIn(db.rows, Pin(db.rows[id].sortOverride.value, id));
    hide Pins, ModeOrder;
    var q := Ascending(Pins(db.rows), PinBefore);
    assert Pin(db.rows[id].sortOverride.value, id) in Elements(q);
    i :| 0 <= i < |q| && q[i] == Pin(db.rows[id].sortOverride.value, id);
    assert PinnedOrder(db.rows)[i] == id;
  }

  /** The strength of items is what the tables say of their rows. */
  lemma StrongerOutranks(db: Db, a: nat, b: nat)
    requires a in db.rows && b in db.rows
    ensures Stronger(ItemAt(db.votes, a, db.rows[a]), ItemAt(db.votes, b, db.rows[b])) <==> Outranks(db, a, b)
  {
  }

  lemma PlacesDecide(all: set<QueueItem>, mode: OrderMode, i: nat, j: nat)
    requires UniqueIds(all)
    requires var q := PlayOrder(all, mode); i < |q| && j < |q| && i != j
    requires var q := PlayOrder(all, mode);
             mode == Votes || q[i].contributor == q[j].contributor || (Head(all, q[i]) && Head(all, q[j]))
    ensures var q := PlayOrder(all, mode); i < j <==> Stronger(q[i], q[j])
  {
    StrongerTotal(all);
    FairTotal(all);
    var q := PlayOrder(all, mode);
    assert q[i] in Elements(q) && q[j] in Elements(q);
    match mode {
      case Fair =>
        if q[i].contributor == q[j].contributor {
          SiblingsInOrder(q, all, i, j);
        } else {
          HeadsInOrder(q, all, i, j);
        }
      case Votes => hide Stronger;
    }
  }

  lemma HeadsInOrder(q: seq<QueueItem>, all: set<QueueItem>, i: nat, j: nat)
    requires IsFair(q, all) && i < |q| && j < |q| && q[i].contributor != q[j].contributor
    requires Head(all, q[i]) && Head(all, q[j])
    ensures i < j <==> Stronger(q[i], q[j])
  {
    StrongerTotal(all);
    HeadsGoFirst(all, q[i]);
    HeadsGoFirst(all, q[j]);
    LeadsByHeads(all, q[i], q[j]);
    LeadsByHeads(all, q[j], q[i]);
    if i < j {
      InOrder(q, all, i, j);
    } else {
      InOrder(q, all, j, i);
    }
  }

  lemma HeadsGoFirst(all: set<QueueItem>, x: QueueItem)
    requires UniqueIds(all) && Head(all, x)
    ensures Round(all, x) == 0
  {
    assert Ahead(all, x) == {};
  }

  lemma BestIsHead(db: Db, a: nat)
    requires Waiting(db.rows, a) && db.rows[a].sortOverride.None? && BestOfClient(db, a)
    ensures Head(Items(db), ItemAt(db.votes, a, db.rows[a]))
  {
    hide Stronger, Outranks, Items, VoteCount;
    var x := ItemAt(db.votes, a, db.rows[a]);
    ItemIn(db, x);
    forall y | y in Items(db) && y.contributor == x.contributor && y != x
      ensures Stronger(x, y)
    {
      ItemIn(db, y);
      StrongerOutranks(db, a, y.id);
    }
  }

  lemma ItemsFollowTables(db: Db, mode: OrderMode, a: nat, b: nat)
    requires Waiting(db.rows, a) && Waiting(db.rows, b) && a != b
    requires db.rows[a].sortOverride.None? && db.rows[b].sortOverride.None?
    requires RankDecides(db, mode, a, b)
    ensures Earlier(UpNextOf(db, mode), a, b) <==> Outranks(db, a, b)
  {
    StrongerOutranks(db, a, b);
    if BestOfClient(db, a) && BestOfClient(db, b) {
      BestIsHead(db, a);
      BestIsHead(db, b);
    }
    UpNextListsQueued(db, mode);
    var i := ItemPlace(db, mode, a);
    var j := ItemPlace(db, mode, b);
    hide UpNextOf, Outranks, Stronger, Items, PlayOrder, VoteCount, PinnedOrder, BestOfClient, Head;
    EarlierAt(UpNextOf(db, mode), |PinnedOrder(db.rows)| + i, |PinnedOrder(db.rows)| + j);
    PlacesDecide(Items(db), mode, i, j);
  }

  lemma PinsFollowTables(db: Db, mode: OrderMode, a: nat, b: nat)
    requires Waiting(db.rows, a) && Waiting(db.rows, b) && a != b && db.rows[a].sortOverride.Some?
    ensures var p, q := db.rows[a].sortOverride, db.rows[b].sortOverride;
            && (q.None? ==> Earlier(UpNextOf(db, mode), a, b))
            && (q.Some? ==>
              (Earlier(UpNextOf(db, mode), a, b) <==> p.value < q.value || (p.value == q.value && a < b)))
  {
    UpNextListsQueued(db, mode);
    var i := PinPlace(db, mode, a);
    if db.rows[b].sortOverride.None? {
      var j := ItemPlace(db, mode, b);
      hide UpNextOf;
      EarlierAt(UpNextOf(db, mode), i, |PinnedOrder(db.rows)| + j);
    } else {
      var j := PinPlace(db, mode, b);
      hide UpNextOf, Pins;
      EarlierAt(UpNextOf(db, mode), i, j);
    }
  }

  /** The up-next order is the one the queue rows and the votes table determine. */
  lemma UpNextFollowsTables(db: Db, mode: OrderMode)
    ensures FollowsTables(UpNextOf(db, mode), db, mode)
  {
    hide UpNextOf, Outranks, RankDecides;
    forall a, b | Waiting(db.rows, a) && Waiting(db.rows, b) && a != b
      ensures var p, q := db.rows[a].sortOverride, db.rows[b].sortOverride;
              && (p.Some? && q.None? ==> Earlier(UpNextOf(db, mode), a, b))
              && (p.Some? && q.Some? ==>
                (Earlier(UpNextOf(db, mode), a, b) <==> p.value < q.value || (p.value == q.value && a < b)))
              && (p.None? && q.None? && RankDecides(db, mode, a, b) ==>
                (Earlier(UpNextOf(db, mode), a, b) <==> Outranks(db, a, b)))
    {
      if db.rows[a].sortOverride.Some? {
        PinsFollowTables(db, mode, a, b);
      } else if db.rows[b].sortOverride.None? && RankDecides(db, mode, a, b) {
        ItemsFollowTables(db, mode, a, b);
      }
    }
  }

  // ----- the store -----

  /** At most one row plays; overrides of queued rows are negative and distinct; votes belong to rows. */
  ghost predicate DbOk(db: Db) {
    && (forall a, b | a in db.rows && b in db.rows && db.rows[a].state == Playing &&
        db.rows[b].state == Playing :: a == b)
    && (forall p | p in Pins(db.rows) :: p.rank < 0)
    && (forall p, q | p in Pins(db.rows) && q in Pins(db.rows) && p.rank == q.rank :: p == q)
    && (forall v | v in db.votes :: v.item in db.rows)
  }

  // ----- the row changes of the operations, as functions of the tables -----

  function Repinned(row: Row, rank: int): Row {
    row.(sortOverride := Some(rank))
  }

  function Requeued(row: Row, rank: int): Row {
    row.(state := Queued, sortOverride := Some(rank))
  }

  function WithState(row: Row, state: RowState): Row {
    row.(state := state)
  }

  ghost function MovedToTop(db: Db, id: nat): Db {
    if id in db.rows then db.(rows := db.rows[id := Repinned(db.rows[id], Lowest(db.rows) - 1)]) else db
  }

  function Retired(db: Db, cur: Option<nat>): Db {
    if cur.Some? && cur.value in db.rows
        then db.(rows := db.rows[cur.value := WithState(db.rows[cur.value], Played)]) else db
  }

  function Promoted(db: Db, id: nat): Db {
    if id in db.rows then db.(rows := db.rows[id := WithState(db.rows[id], Playing)]) else db
  }

  ghost function BackOnTop(db: Db, id: nat): Db {
    if id in db.rows then db.(rows := db.rows[id := Requeued(db.rows[id], Lowest(db.rows) - 1)]) else db
  }

  function Deleted(db: Db, id: nat): Db {
    Db(db.rows - {id}, set v | v in db.votes && v.item != id)
  }

  function WithoutRows(db: Db, gone: set<nat>): Db {
    Db(db.rows - gone, set v | v in db.votes && v.item !in gone)
  }

  /** The item that plays according to the tables and memory. */
  ghost predicate PlayingIs(db: Db, cur: Option<nat>) {
    forall id: nat :: (id in db.rows && db.rows[id].state == Playing) <==> cur == Some(id)
  }

  // ----- statements -----

  /** A statement that changes the tables; `Loaded` stands for what came before the first one. */
  datatype Statement =
    | Loaded
    | Inserting(id: nat)
    | Voting(vote: Vote)
    | Deleting(id: nat)
    | DeletingAll
    | Pinning(id: nat)
    | Retiring(id: nat)
    | Promoting(id: nat)
    | Requeuing(id: nat)

  /** The tables after a statement. */
  datatype Moment = Moment(cause: Statement, db: Db)

  /** The head of the up-next order, which is the same in both modes. */
  ghost predicate IsNext(db: Db, id: nat) {
    UpNextOf(db, Votes) != [] && UpNextOf(db, Votes)[0] == id
  }

  /**
   What each statement may do, and on which rows the jukebox issues it: only the playing row is
   retired or put back, and only the head of the order is promoted, while nothing plays.
   */
  ghost predicate Explains(cause: Statement, a: Db, b: Db) {
    match cause
    case Loaded => false
    case Inserting(id) =>
      && id !in a.rows && id in b.rows && b == a.(rows := a.rows[id := b.rows[id]])
      && b.rows[id].state == Queued && b.rows[id].sortOverride == None
    case Voting(vote) =>
      b.rows == a.rows && forall v | v != vote :: v in b.votes <==> v in a.votes
    case Deleting(id) => b == Deleted(a, id)
    case DeletingAll => b == Db(map[], {})
    case Pinning(id) => b == MovedToTop(a, id)
    case Retiring(id) => PlayingIs(a, Some(id)) && b == Retired(a, Some(id))
    case Promoting(id) => PlayingIs(a, None) && IsNext(a, id) && b == Promoted(a, id)
    case Requeuing(id) => PlayingIs(a, Some(id)) && b == BackOnTop(a, id)
  }

  /** After every statement the tables are in order, and each statement did what it may do. */
  ghost predicate HistoryOk(history: seq<Moment>) {
    && history != []
    && (forall i | 0 <= i < |history| :: DbOk(history[i].db))
    && (forall i | 0 < i < |history| :: Explains(history[i].cause, history[i - 1].db, history[i].db))
  }

  /** The history leads to these tables. */
  ghost predicate Records(history: seq<Moment>, db: Db) {
    HistoryOk(history) && history[|history| - 1].db == db
  }

  lemma HistoryGrows(history: seq<Moment>, db: Db, cause: Statement, after: Db)
    requires Records(history, db) && DbOk(after) && Explains(cause, db, after)
    ensures Records(history + [Moment(cause, after)], after)
  {
    hide DbOk, Explains;
  }

  /** What happened up to an instant is a history of its own. */
  lemma HistoryPrefix(history: seq<Moment>, i: nat)
    requires HistoryOk(history) && i < |history|
    ensures Records(history[..i + 1], history[i].db) && DbOk(history[i].db)
  {
    hide DbOk, Explains;
  }

  class Store {
    var db: Db
    /** The tables after every statement so far. */
    ghost var history: seq<Moment>

    constructor (db: Db)
      ensures this.db == db && history == [Moment(Loaded, db)]
    {
      this.db := db;
      history := [Moment(Loaded, db)];
    }

    /** The tables a stopped process left, with how they came about. */
    constructor Resume(db: Db, ghost history: seq<Moment>)
      ensures this.db == db && this.history == history
    {
      this.db := db;
      this.history := history;
    }

    /** A fresh row id is one more than the largest id present. */
    method Insert(row: Row) returns (id: nat)
      modifies this
      ensures id !in old(db).rows && forall k | k in old(db).rows :: k < id
      ensures db == old(db).(rows := old(db).rows[id := row])
      ensures history == old(history) + [Moment(Inserting(id), db)]
    {
      id := 0;
      var ids := db.rows.Keys;
      while ids != {}
        invariant ids <= db.rows.Keys
        invariant forall k | k in db.rows && k !in ids :: k <= id
        invariant db == old(db) && history == old(history)
        decreases |ids|
      {
        var k :| k in ids;
        id := if k > id then k else id;
        ids := ids - {k};
      }
      id := id + 1;
      db := db.(rows := db.rows[id := row]);
      history := history + [Moment(Inserting(id), db)];
    }

    /** Deletes a row, and with it its votes. */
    method Delete(id: nat)
      modifies this
      ensures db == Deleted(old(db), id)
      ensures history == old(history) + [Moment(Deleting(id), db)]
    {
      db := Db(db.rows - {id}, set v | v in db.votes && v.item != id);
      history := history + [Moment(Deleting(id), db)];
    }

    method DeleteAll()
      modifies this
      ensures db == Db(map[], {})
      ensures history == old(history) + [Moment(DeletingAll, db)]
    {
      db := Db(map[], {});
      history := history + [Moment(DeletingAll, db)];
    }

    /** Updates the row with this id, if there is one; `cause` says what for. */
    method Update(id: nat, f: Row -> Row, ghost cause: Statement)
      modifies this
      ensures db == if id in old(db).rows then old(db).(rows := old(db).rows[id := f(old(db).rows[id])]) else old(db)
      ensures history == old(history) + [Moment(cause, db)]
    {
      if id in db.rows {
        db := db.(rows := db.rows[id := f(db.rows[id])]);
      }
      history := history + [Moment(cause, db)];
    }

    method InsertVote(v: Vote)
      requires v.item in db.rows
      modifies this
      ensures db == old(db).(votes := old(db).votes + {v})
      ensures history == old(history) + [Moment(Voting(v), db)]
    {
      db := db.(votes := db.votes + {v});
      history := history + [Moment(Voting(v), db)];
    }

    method DeleteVote(v: Vote)
      modifies this
      ensures db == old(db).(votes := old(db).votes - {v})
      ensures history == old(history) + [Moment(Voting(v), db)]
    {
      db := db.(votes := db.votes - {v});
      history := history + [Moment(Voting(v), db)];
    }

    method MinOverride() returns (m: int)
      ensures m == Lowest(db.rows)
    {
      var best: Option<int> := None;
      var ids := QueuedIds(db.rows);
      while ids != {}
        invariant ids <= QueuedIds(db.rows)
        invariant forall p | p in Pins(db.rows) && p.id !in ids :: best.Some? && best.value <= p.rank
        invariant best.Some? ==> exists p :: p in Pins(db.rows) && p.rank == best.value
        decreases |ids|
      {
        var id :| id in ids;
        var rank := db.rows[id].sortOverride;
        if rank.Some? {
          assert Pin(rank.value, id) in Pins(db.rows);
          if best.None? || rank.value < best.value {
            best := rank;
          }
        }
        ids := ids - {id};
      }
      m := if best.Some? then best.value else 0;
    }
  }
}
