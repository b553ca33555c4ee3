/** What the jukebox operations do to the play order, and whole runs of them. */
module JukeboxRuns {
  import opened Hashing
  import opened Ordering
  import opened UpNext
  import opened QueueStore
  import opened Jukebox

  // ----- the admin's override and the requeued item -----

  /**
   A queued item moved to the top comes first, and the other overridden items keep their order. In
   votes mode, or if the item was overridden before, all others keep their order.
   */
  lemma MovedFirst(db: Db, id: nat, mode: OrderMode)
    requires Waiting(db.rows, id)
    ensures UpNextOf(MovedToTop(db, id), mode) == [id] + Without(PinnedOrder(db.rows), id) +
              ModeOrder(MovedToTop(db, id), mode)
    ensures mode == Votes || db.rows[id].sortOverride.Some? ==>
              UpNextOf(MovedToTop(db, id), mode) == [id] + Without(UpNextOf(db, mode), id)
  {
    hide *;
    UpNextIs(db, mode);
    UpNextIs(MovedToTop(db, id), mode);
    PinnedAfterMove(db, id);
    RestAfterMove(db, id, mode);
    WithoutAppend(PinnedOrder(db.rows), ModeOrder(db, mode), id);
  }

  lemma UpNextIs(db: Db, mode: OrderMode)
    ensures UpNextOf(db, mode) == PinnedOrder(db.rows) + ModeOrder(db, mode)
  {
    hide PinnedOrder, ModeOrder;
  }

  lemma RestAfterMove(db: Db, id: nat, mode: OrderMode)
    requires Waiting(db.rows, id)
    ensures mode == Votes || db.rows[id].sortOverride.Some? ==>
              ModeOrder(MovedToTop(db, id), mode) == Without(ModeOrder(db, mode), id)
  {
    hide ModeOrder, Pins, Items, VoteCount, Lowest;
    var after := MovedToTop(db, id);
    ItemsUpdate(db, id, Repinned(db.rows[id], Lowest(db.rows) - 1));
    if db.rows[id].sortOverride.Some? {
      OthersUntouched(db, id);
      SameItems(db, after, mode);
      ModeOrderIds(db, mode);
      WithoutAbsent(ModeOrder(db, mode), id);
    } else if mode == Votes {
      VotesWithout(db, after, id);
    }
  }

  /** The tables with the row out of the queue. */
  lemma Unpinned(db: Db, id: nat) returns (others: Db)
    requires id in db.rows
    ensures Pins(others.rows) == set p | p in Pins(db.rows) && p.id != id
  {
    hide Pins;
    others := db.(rows := db.rows[id := WithState(db.rows[id], Played)]);
    PinsUpdate(db.rows, id, WithState(db.rows[id], Played));
  }

  lemma SameItems(a: Db, b: Db, mode: OrderMode)
    requires Items(a) == Items(b)
    ensures ModeOrder(a, mode) == ModeOrder(b, mode)
  {
    hide Items, PlayOrder;
  }

  /** Of two moved items the one moved last comes first, right before the other. */
  lemma LastMovedFirst(db: Db, x: nat, y: nat, mode: OrderMode)
    requires Waiting(db.rows, x) && Waiting(db.rows, y) && x != y
    ensures [y, x] <= UpNextOf(MovedToTop(MovedToTop(db, x), y), mode)
  {
    hide PinnedOrder, ModeOrder, Lowest;
    var once := MovedToTop(db, x);
    MovedFirst(once, y, mode);
    MovedFirst(db, x, mode);
    PinnedAfterMove(db, x);
    assert Without(PinnedOrder(once.rows), y)[0] == x;
  }

  lemma PinnedAfterMove(db: Db, id: nat)
    requires Waiting(db.rows, id)
    ensures PinnedOrder(MovedToTop(db, id).rows) == [id] + Without(PinnedOrder(db.rows), id)
  {
    hide PinnedOrder, Pins;
    var row := Repinned(db.rows[id], Lowest(db.rows) - 1);
    PinsUpdate(db.rows, id, row);
    var others := Unpinned(db, id);
    PinnedWithout(db.rows, others.rows, id);
    PinnedFirst(others.rows, MovedToTop(db, id).rows, Pin(Lowest(db.rows) - 1, id));
  }

  /** An item put back by a disconnect comes first and leaves the rest of the order as it was. */
  lemma RequeuedFirst(db: Db, id: nat, mode: OrderMode)
    requires PlayingIs(db, Some(id))
    ensures UpNextOf(BackOnTop(db, id), mode) == [id] + UpNextOf(db, mode)
  {
    hide PinnedOrder, ModeOrder, Pins, Items, VoteCount;
    var row := Requeued(db.rows[id], Lowest(db.rows) - 1);
    PinsUpdate(db.rows, id, row);
    ItemsUpdate(db, id, row);
    OthersUntouched(db, id);
    PinnedFirst(db.rows, BackOnTop(db, id).rows, Pin(Lowest(db.rows) - 1, id));
    SameItems(db, BackOnTop(db, id), mode);
  }

  // ----- what actually plays -----

  lemma WithoutFirst<T>(q: seq<T>)
    requires q != [] && Distinct(q)
    ensures Without(q, q[0]) == q[1..]
  {
    WithoutAbsent(q[1..], q[0]);
  }

  /** Playing the head takes it off the votes order and leaves the rest of that order. */
  lemma PlayedOff(db: Db, id: nat)
    requires UpNextOf(db, Votes) != [] && id == UpNextOf(db, Votes)[0]
    ensures UpNextOf(Promoted(db, id), Votes) == UpNextOf(db, Votes)[1..]
  {
    hide PinnedOrder, ModeOrder, Pins, Items, VoteCount;
    UpNextListsQueued(db, Votes);
    assert id in Elements(UpNextOf(db, Votes));
    var row := WithState(db.rows[id], Playing);
    PinsUpdate(db.rows, id, row);
    ItemsUpdate(db, id, row);
    var after := Promoted(db, id);
    PinnedWithout(db.rows, after.rows, id);
    VotesWithout(db, after, id);
    WithoutAppend(PinnedOrder(db.rows), ModeOrder(db, Votes), id);
    WithoutFirst(UpNextOf(db, Votes));
  }

  /**
   As long as nobody touches the queue, what plays is the votes order, also in fair mode: each
   advance recomputes the order from the items still queued, and its head is the strongest of them.
   */
  method PlayOut(m: Machine, n: nat) returns (played: seq<nat>)
    requires m.Valid()
    modifies m, m.store
    ensures m.Valid()
    ensures var order := UpNextOf(old(m.store.db), Votes);
            played == order[..Min(n, |order|)]
  {
    hide *;
    ghost var order := UpNextOf(m.store.db, Votes);
    played := [];
    var i := 0;
    var more := true;
    while i < n && more
      invariant m.Valid() && i <= n
      invariant |played| <= |order| && played == order[..|played|]
      invariant UpNextOf(m.store.db, Votes) == order[|played|..]
      invariant |played| <= i && (more ==> |played| == i) && (!more ==> |played| == |order|)
      decreases n - i
    {
      ghost var before, cur := m.store.db, m.nowPlaying;
      m.Parts();
      m.Advance();
      RetireKeepsOrder(before, cur, Votes);
      HeadIsStrongest(before, m.mode);
      if m.nowPlaying.Some? {
        PlayedOff(Retired(before, cur), m.nowPlaying.value);
        played := played + [m.nowPlaying.value];
      } else {
        more := false;
      }
      i := i + 1;
    }
  }

  /** This row's override is the lowest, or, without overrides, its item is the strongest. */
  ghost predicate Foremost(db: Db, id: nat) {
    if Pins(db.rows) != {} then
      exists p :: p in Pins(db.rows) && p.id == id && forall q | q in Pins(db.rows) && q != p :: PinBefore(p, q)
    else
      exists x :: x in Items(db) && x.id == id && forall y | y in Items(db) && y != x :: Stronger(x, y)
  }

  /** The head of the order is the one foremost row, so the order starts with the contributor of that row. */
  lemma NextTurnIsStrongest(db: Db, mode: OrderMode, c: string)
    requires QueuedIds(db.rows) != {}
    ensures UpNextOf(db, mode) != [] && Waiting(db.rows, UpNextOf(db, mode)[0])
    ensures forall id: nat :: Foremost(db, id) <==> id == UpNextOf(db, mode)[0]
    ensures db.rows[UpNextOf(db, mode)[0]].addedById == c
       <==> exists id :: Foremost(db, id) && Waiting(db.rows, id) && db.rows[id].addedById == c
  {
    UpNextListsQueued(db, mode);
    HeadIsQueued(db, mode);
    HeadIsStrongest(db, mode);
    hide UpNextOf, Foremost;
    HeadIsForemost(db);
    OneForemost(db, UpNextOf(db, mode)[0]);
  }

  lemma HeadIsForemost(db: Db)
    requires UpNextOf(db, Votes) != []
    ensures Foremost(db, UpNextOf(db, Votes)[0])
  {
    hide Pins, Items;
    if Pins(db.rows) != {} {
      PinsTotal(Pins(db.rows));
      LeastFirst(Pins(db.rows), PinBefore);
    } else {
      ItemsUnique(db);
      StrongerTotal(Items(db));
      PinnedOrderNone(db.rows);
      LeastFirst(Items(db), Stronger);
    }
  }

  lemma PinnedOrderNone(rows: map<nat, Row>)
    requires Pins(rows) == {}
    ensures PinnedOrder(rows) == []
  {
  }

  lemma LeastFirst<T(!new)>(s: set<T>, lt: (T, T) -> bool)
    requires StrictTotal(s, lt)
    ensures s != {} ==> var q := Ascending(s, lt); q[0] in s && forall y | y in s && y != q[0] :: lt(q[0], y)
  {
    var q := Ascending(s, lt);
    if s != {} {
      assert q[0] in Elements(q);
      TailAfterHead(q, s, lt);
    }
  }

  lemma OneForemost(db: Db, head: nat)
    requires Foremost(db, head)
    ensures forall id: nat :: Foremost(db, id) ==> id == head
  {
    hide Pins, Items;
    PinsTotal(Pins(db.rows));
    ItemsUnique(db);
    StrongerTotal(Items(db));
    hide PinBefore, Stronger;
  }

  /**
   So the rotation a listener is shown is not the one that is played. Whenever a contributor's two
   items are both stronger than somebody else's, the latter is shown between them, but once the
   first has played the order is computed anew and the second plays before it.
   */
  lemma ShownIsNotPlayed(a1: QueueItem, a2: QueueItem, b: QueueItem)
    requires a1.contributor == a2.contributor != b.contributor
    requires Stronger(a1, a2) && Stronger(a2, b) && UniqueIds({a1, a2, b})
    ensures PlayOrder({a1, a2, b}, Fair) == [a1, b, a2]
    ensures UniqueIds({a2, b}) && PlayOrder({a2, b}, Fair) == [a2, b]
  {
    StrongerTotal({a1, a2, b});
    hide *;
    FewerUnique({a1, a2, b}, {a2, b});
    ThreeRounds(a1, a2, b);
    TwoRounds(a2, b);
    InFairOrder({a1, a2, b}, a1, b, a2);
    InFairOrder({a2, b}, a2, b, a1);
    SortedIsShown([a1, b, a2], {a1, a2, b});
    SortedIsShown([a2, b], {a2, b});
  }

  lemma InFairOrder(all: set<QueueItem>, x: QueueItem, y: QueueItem, z: QueueItem)
    requires Round(all, x) == 0 == Round(all, y) && Leads(all, x.contributor, y.contributor)
    ensures Elements([x, y]) == {x, y} && Increasing([x, y], FairOrder(all))
    ensures Elements([x, y, z]) == {x, z, y}
    ensures Round(all, z) == 1 ==> Increasing([x, y, z], FairOrder(all))
  {
    hide Round, Leads;
  }

  lemma FewerUnique(all: set<QueueItem>, some: set<QueueItem>)
    requires UniqueIds(all) && some <= all
    ensures UniqueIds(some)
  {
  }

  lemma SortedIsShown(q: seq<QueueItem>, all: set<QueueItem>)
    requires UniqueIds(all)
    ensures Elements(q) == all && Increasing(q, FairOrder(all)) ==> PlayOrder(all, Fair) == q
  {
    hide FairOrder, UniqueIds;
    FairTotal(all);
    if Lists(q, all, FairOrder(all)) {
      IsAscending(q, all, FairOrder(all));
    }
  }

  lemma ThreeRounds(a1: QueueItem, a2: QueueItem, b: QueueItem)
    requires a1.contributor == a2.contributor != b.contributor && UniqueIds({a1, a2, b})
    requires Stronger(a1, a2) && Stronger(a1, b)
    requires !Stronger(a1, a1) && !Stronger(a2, a2) && !Stronger(b, b) && !Stronger(a2, a1)
    ensures var all := {a1, a2, b};
            Round(all, a1) == 0 && Round(all, a2) == 1 && Round(all, b) == 0 &&
                Leads(all, a1.contributor, b.contributor)
  {
    hide Stronger, UniqueIds;
    var all := {a1, a2, b};
    assert Ahead(all, a1) == {} && Ahead(all, a2) == {a1} && Ahead(all, b) == {};
    assert forall y | y in all && y.contributor == b.contributor :: Stronger(a1, y);
  }

  lemma TwoRounds(a: QueueItem, b: QueueItem)
    requires a.contributor != b.contributor && UniqueIds({a, b})
    requires Stronger(a, b) && !Stronger(a, a) && !Stronger(b, b)
    ensures var all := {a, b};
            Round(all, a) == 0 && Round(all, b) == 0 && Leads(all, a.contributor, b.contributor)
  {
  }

  // ----- runs -----

  datatype Command =
    | Add(itemType: ItemType, reference: string, addedById: string, now: int)
    | ToggleVote(item: nat, voter: string)
    | Remove(id: nat)
    | RemoveShare(share: nat)
    | Clear
    | SetMode(mode: OrderMode)
    | Advance
    | Requeue
    | MoveToTop(id: nat)
    | Restart(mode: OrderMode)

  /** Which statements a command consists of. */
  ghost predicate Issues(c: Command, cause: Statement) {
    match c
    case Add(_, _, _, _) => cause.Inserting?
    case ToggleVote(item, voter) => cause == Voting(Vote(item, voter))
    case Remove(id) => cause == Deleting(id)
    case RemoveShare(_) => cause.Deleting?
    case Clear => cause == DeletingAll
    case SetMode(_) => false
    case Advance => cause.Retiring? || cause.Promoting?
    case Requeue => cause.Requeuing?
    case MoveToTop(id) => cause == Pinning(id)
    case Restart(_) => false
  }

  /**
   What a command may do to a row: only an advance makes a queued row play and a playing row played,
   only a requeue puts a playing row back, a played row stays played, and what was added is never
   edited. Rows go only by a removal that means them and come only by an addition.
   */
  ghost predicate Lifecycle(a: Db, b: Db, c: Command) {
    && (forall id | id in a.rows && id !in b.rows ::
      c == Remove(id) || (c.RemoveShare? && id in ShareRefs(a, c.share)) || c == Clear)
    && (forall id | id in b.rows && id !in a.rows :: c.Add? && b.rows[id].state == Queued)
    && (forall id | id in a.rows && id in b.rows ::
      && b.rows[id] == a.rows[id].(state := b.rows[id].state, sortOverride := b.rows[id].sortOverride)
      && (a.rows[id].sortOverride == b.rows[id].sortOverride || c == Requeue || c == MoveToTop(id))
      && (a.rows[id].state == b.rows[id].state
          || (c == Advance && a.rows[id].state == Queued && b.rows[id].state == Playing)
          || (c == Advance && a.rows[id].state == Playing && b.rows[id].state == Played)
          || (c == Requeue && a.rows[id].state == Playing && b.rows[id].state == Queued)))
  }

  lemma SameRowsLifecycle(a: Db, b: Db, c: Command)
    requires a.rows == b.rows
    ensures Lifecycle(a, b, c)
  {
  }

  lemma AddLifecycle(db: Db, id: nat, row: Row, c: Command)
    requires id !in db.rows && row.state == Queued && c.Add?
    ensures Lifecycle(db, db.(rows := db.rows[id := row]), c)
  {
  }

  lemma RemovalLifecycle(db: Db, id: nat, share: nat)
    ensures Lifecycle(db, Deleted(db, id), Remove(id))
    ensures Lifecycle(db, WithoutRows(db, ShareRefs(db, share)), RemoveShare(share))
    ensures Lifecycle(db, Db(map[], {}), Clear)
  {
  }

  lemma AdvanceLifecycle(db: Db, cur: Option<nat>, mode: OrderMode)
    requires PlayingIs(db, cur)
    ensures Lifecycle(db, Retired(db, cur), Advance)
    ensures UpNextOf(db, mode) != [] ==>
              Lifecycle(db, Promoted(Retired(db, cur), UpNextOf(db, mode)[0]), Advance)
  {
    HeadIsQueued(db, mode);
    hide UpNextOf, IsNext;
  }

  lemma PinLifecycle(db: Db, id: nat)
    ensures Lifecycle(db, MovedToTop(db, id), MoveToTop(id))
    ensures PlayingIs(db, Some(id)) ==> Lifecycle(db, BackOnTop(db, id), Requeue)
  {
    hide Lowest;
  }

  lemma CommandIssues(c: Command)
    ensures forall cause | Issues(c, cause) :: !cause.Loaded?
    ensures forall id: nat | c.Add? :: Issues(c, Inserting(id))
    ensures c.ToggleVote? ==> Issues(c, Voting(Vote(c.item, c.voter)))
    ensures c.Remove? ==> Issues(c, Deleting(c.id))
    ensures forall id: nat | c.RemoveShare? :: Issues(c, Deleting(id))
    ensures c == Clear ==> Issues(c, DeletingAll)
    ensures forall id: nat | c == Advance :: Issues(c, Retiring(id)) && Issues(c, Promoting(id))
    ensures forall id: nat | c == Requeue :: Issues(c, Requeuing(id))
    ensures c.MoveToTop? ==> Issues(c, Pinning(c.id))
  {
  }

  /** Every command keeps the machine coherent and its tables in order, and does to rows what it may. */
  method Execute(m: Machine, c: Command) returns (next: Machine)
    requires m.Valid()
    modifies m, m.store
    ensures next.Valid() && next.store == m.store && (next == m || fresh(next))
    ensures old(m.store.history) <= m.store.history
    ensures forall k | |old(m.store.history)| <= k < |m.store.history| :: Issues(c, m.store.history[k].cause)
    ensures Lifecycle(old(m.store.db), m.store.db, c)
  {
    hide *;
    m.Parts();
    ghost var before := m.store.db;
    CommandIssues(c);
    next := m;
    match c {
      case Add(itemType, reference, addedById, now) =>
        var id := m.Add(itemType, reference, addedById, now);
        AddLifecycle(before, id, Row(itemType, reference, addedById, now, Queued, None), c);
      case ToggleVote(item, voter) =>
        var _ := m.ToggleVote(item, voter);
        SameRowsLifecycle(before, m.store.db, c);
      case Remove(id) =>
        m.Remove(id);
        RemovalLifecycle(before, id, 0);
      case RemoveShare(share) =>
        var _ := m.RemoveShareRefs(share);
        RemovalLifecycle(before, 0, share);
      case Clear =>
        m.Clear();
        RemovalLifecycle(before, 0, 0);
      case SetMode(mode) =>
        m.SetMode(mode);
        SameRowsLifecycle(before, before, c);
      case Advance =>
        AdvanceLifecycle(before, m.nowPlaying, m.mode);
        RetirementIs(before, m.nowPlaying);
        m.Advance();
      case Requeue =>
        SameRowsLifecycle(before, before, c);
        if m.nowPlaying.Some? {
          PinLifecycle(before, m.nowPlaying.value);
        }
        var _ := m.RequeueNowPlaying();
      case MoveToTop(id) =>
        m.MoveToTop(id);
        PinLifecycle(before, id);
      case Restart(mode) =>
        next := Reboot(m, mode);
        SameRowsLifecycle(before, before, c);
    }
  }

  /** A stop between two commands and a new start. */
  method Reboot(m: Machine, mode: OrderMode) returns (next: Machine)
    requires m.Valid()
    ensures next.Valid() && next.store == m.store && fresh(next)
  {
    m.Parts();
    next := new Machine.Restore(m.store, mode);
  }

  /** Some of the commands issued this statement. */
  ghost predicate Issued(commands: seq<Command>, cause: Statement) {
    exists c :: c in commands && Issues(c, cause)
  }

  lemma IssuedMore(commands: seq<Command>, i: nat, cause: Statement)
    requires i < |commands| && (Issued(commands[..i], cause) || Issues(commands[i], cause))
    ensures Issued(commands[..i + 1], cause)
  {
    hide Issues;
    if Issued(commands[..i], cause) {
      var c :| c in commands[..i] && Issues(c, cause);
      assert c in commands[..i + 1];
    } else {
      assert commands[i] in commands[..i + 1];
    }
  }

  /**
   Any sequence of commands, with restarts anywhere between them. The history it adds to consists of
   statements of those commands, and what they do to a row is what `RowMoves` says.
   */
  method Run(m: Machine, commands: seq<Command>) returns (last: Machine)
    requires m.Valid()
    modifies m, m.store
    ensures last.Valid() && last.store == m.store
    ensures old(m.store.history) <= m.store.history && Records(m.store.history, m.store.db)
    ensures forall k | |old(m.store.history)| <= k < |m.store.history| ::
              Issued(commands, m.store.history[k].cause)
  {
    hide *;
    last := m;
    for i := 0 to |commands|
      invariant last.Valid() && last.store == m.store && (last == m || fresh(last))
      invariant old(m.store.history) <= m.store.history
      invariant forall k | |old(m.store.history)| <= k < |m.store.history| ::
                  Issued(commands[..i], m.store.history[k].cause)
    {
      last := Execute(last, commands[i]);
      forall k | |old(m.store.history)| <= k < |m.store.history|
        ensures Issued(commands[..i + 1], m.store.history[k].cause)
      {
        IssuedMore(commands, i, m.store.history[k].cause);
      }
    }
    assert commands[..|commands|] == commands;
    last.Parts();
  }

  /**
   A stop right after any statement, also in the middle of a command, restores to a coherent machine
   that goes on with the history up to there.
   */
  method StopAndRestore(m: Machine, ghost i: nat, db: Db, mode: OrderMode) returns (again: Machine)
    requires m.Valid() && i < |m.store.history| && db == m.store.history[i].db
    ensures again.Valid() && fresh(again) && fresh(again.store)
    ensures again.store.db == db && again.store.history == m.store.history[..i + 1]
  {
    m.Parts();
    RecordedIsOk(m.store.history, m.store.db);
    HistoryPrefix(m.store.history, i);
    hide *;
    ghost var kept := m.store.history[..i + 1];
    var store := new Store.Resume(db, kept);
    again := new Machine.Restore(store, mode);
  }

  lemma RecordedIsOk(history: seq<Moment>, db: Db)
    requires Records(history, db)
    ensures HistoryOk(history)
  {
  }

  // ----- the life of a row over a whole history, across commands, stops and restarts -----

  /** The state of a row, if there is one. */
  function StateOf(db: Db, id: nat): Option<RowState> {
    if id in db.rows then Some(db.rows[id].state) else None
  }

  /** The moves of a row's life, each with the one statement that makes it. */
  predicate Moves(cause: Statement, id: nat, from: Option<RowState>, to: Option<RowState>) {
    match cause
    case Inserting(i) => i == id && from == None && to == Some(Queued)
    case Promoting(i) => i == id && from == Some(Queued) && to == Some(Playing)
    case Retiring(i) => i == id && from == Some(Playing) && to == Some(Played)
    case Requeuing(i) => i == id && from == Some(Playing) && to == Some(Queued)
    case Deleting(i) => i == id && to == None
    case DeletingAll => to == None
    case _ => false
  }

  /** No other statement changes the state of a row, and none edits what was added. */
  lemma RowMoves(cause: Statement, a: Db, b: Db, id: nat)
    requires Explains(cause, a, b)
    ensures StateOf(a, id) != StateOf(b, id) ==> Moves(cause, id, StateOf(a, id), StateOf(b, id))
    ensures id in a.rows && id in b.rows ==>
              b.rows[id] == a.rows[id].(state := b.rows[id].state, sortOverride := b.rows[id].sortOverride)
    ensures id in a.rows && id in b.rows && b.rows[id].sortOverride != a.rows[id].sortOverride ==>
              cause in {Pinning(id), Requeuing(id)}
  {
    hide UpNextOf, Lowest;
    if cause.Promoting? {
      UpNextListsQueued(a, Votes);
      assert cause.id in Elements(UpNextOf(a, Votes));
    }
  }

  /** Votes come and go only by a toggle of this very vote, or with their item. */
  lemma VoteMoves(cause: Statement, a: Db, b: Db, v: Vote)
    requires Explains(cause, a, b)
    ensures (v in a.votes) != (v in b.votes) ==>
              cause == Voting(v) || (cause in {Deleting(v.item), DeletingAll} && v !in b.votes)
    ensures cause in {Deleting(v.item), DeletingAll} ==> v !in b.votes
  {
    hide UpNextOf, Lowest;
  }

  /** The first change of a row's state after an instant. */
  lemma {:induction false} FirstMove(history: seq<Moment>, i: nat, j: nat, id: nat) returns (k: nat)
    requires HistoryOk(history) && i <= j < |history|
    requires StateOf(history[i].db, id) != StateOf(history[j].db, id)
    ensures i < k <= j
    ensures Moves(history[k].cause, id, StateOf(history[i].db, id), StateOf(history[k].db, id))
    decreases j - i
  {
    hide StateOf, Moves, DbOk, Explains;
    RowMoves(history[i + 1].cause, history[i].db, history[i + 1].db, id);
    if StateOf(history[i + 1].db, id) != StateOf(history[i].db, id) {
      k := i + 1;
    } else {
      k := FirstMove(history, i + 1, j, id);
    }
  }

  /** The last change of a row's state before an instant. */
  lemma {:induction false} LastMove(history: seq<Moment>, i: nat, j: nat, id: nat) returns (k: nat)
    requires HistoryOk(history) && i <= j < |history|
    requires StateOf(history[i].db, id) != StateOf(history[j].db, id)
    ensures i < k <= j && Explains(history[k].cause, history[k - 1].db, history[k].db)
    ensures Moves(history[k].cause, id, StateOf(history[k - 1].db, id), StateOf(history[j].db, id))
    decreases j - i
  {
    hide StateOf, Moves, DbOk, Explains;
    RowMoves(history[j].cause, history[j - 1].db, history[j].db, id);
    if StateOf(history[j - 1].db, id) != StateOf(history[j].db, id) {
      k := j;
    } else {
      k := LastMove(history, i, j - 1, id);
    }
  }

  /** Some statement between two instants deleted this row. */
  ghost predicate DeletedBetween(history: seq<Moment>, i: nat, j: nat, id: nat)
    requires i <= j < |history|
  {
    exists k :: i < k <= j && history[k].cause in {Deleting(id), DeletingAll}
  }

  /** A played row never returns to the queue, as long as it is not deleted. */
  lemma PlayedForGood(history: seq<Moment>, i: nat, j: nat, id: nat)
    requires HistoryOk(history) && i <= j < |history|
    requires StateOf(history[i].db, id) == Some(Played)
    ensures StateOf(history[j].db, id) == Some(Played) || DeletedBetween(history, i, j, id)
  {
    hide HistoryOk;
    if StateOf(history[j].db, id) != Some(Played) {
      var k := FirstMove(history, i, j, id);
    }
  }

  /** A queued row leaves the queue only by an advance or by being deleted. */
  lemma LeavesQueue(history: seq<Moment>, i: nat, j: nat, id: nat)
    requires HistoryOk(history) && i <= j < |history|
    requires StateOf(history[i].db, id) == Some(Queued)
    ensures StateOf(history[j].db, id) == Some(Queued) || DeletedBetween(history, i, j, id)
         || exists k :: i < k <= j && history[k].cause == Promoting(id)
  {
    hide HistoryOk;
    if StateOf(history[j].db, id) != Some(Queued) {
      var k := FirstMove(history, i, j, id);
    }
  }

  /** What stops playing was retired by an advance, put back by a requeue, or deleted. */
  lemma StopsPlaying(history: seq<Moment>, i: nat, j: nat, id: nat)
    requires HistoryOk(history) && i <= j < |history|
    requires StateOf(history[i].db, id) == Some(Playing)
    ensures StateOf(history[j].db, id) == Some(Playing) || DeletedBetween(history, i, j, id)
         || exists k :: i < k <= j && history[k].cause in {Retiring(id), Requeuing(id)}
  {
    hide HistoryOk;
    if StateOf(history[j].db, id) != Some(Playing) {
      var k := FirstMove(history, i, j, id);
    }
  }

  /** Whatever plays was, when it was promoted, the head of the votes order of the tables of that moment. */
  lemma PlayedWasNext(history: seq<Moment>, i: nat, j: nat, id: nat)
    requires HistoryOk(history) && i <= j < |history|
    requires StateOf(history[i].db, id) != Some(Playing) == StateOf(history[j].db, id)
    ensures exists k :: i < k <= j && history[k].cause == Promoting(id) && IsNext(history[k - 1].db, id)
  {
    hide HistoryOk, IsNext, PlayingIs;
    var k := LastMove(history, i, j, id);
    assert history[k].cause == Promoting(id);
  }
}
