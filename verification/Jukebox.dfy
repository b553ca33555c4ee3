/**
 The jukebox state machine over its tables. Queue and votes live in the store and survive a stop;
 what is playing is kept in memory and rebuilt by `Restore`.
 */
module Jukebox {
  import opened Hashing
  import opened Ordering
  import opened UpNext
  import opened QueueStore
  import FairRotation
  import Strings

  datatype PlaybackState = Idle | PlayingEmbedded | PlayingExternal

  lemma DeletedNone(db: Db)
    ensures WithoutRows(db, {}) == db
  {
    assert db.rows - {} == db.rows;
  }

  lemma DeletedAll(db: Db, gone: set<nat>, id: nat)
    ensures Deleted(WithoutRows(db, gone), id) == WithoutRows(db, gone + {id})
  {
    assert db.rows - gone - {id} == db.rows - (gone + {id});
  }

  // ----- each row change keeps the tables in order -----

  /** Setting an override below all others, on any row. */
  lemma RepinOk(db: Db, id: nat, row: Row)
    requires DbOk(db) && id in db.rows
    requires row.sortOverride == Some(Lowest(db.rows) - 1)
    requires row.state == Playing ==> db.rows[id].state == Playing
    ensures DbOk(db.(rows := db.rows[id := row]))
  {
  }

  lemma OnlyOnePlays(db: Db, id: nat)
    requires DbOk(db) && id in db.rows && db.rows[id].state == Playing
    ensures PlayingIs(db, Some(id))
  {
  }

  lemma RequeueOk(db: Db, id: nat)
    requires DbOk(db) && PlayingIs(db, Some(id))
    ensures DbOk(BackOnTop(db, id)) && PlayingIs(BackOnTop(db, id), None)
    ensures Explains(Requeuing(id), db, BackOnTop(db, id))
    ensures BackOnTop(db, id) == db.(rows := db.rows[id := Requeued(db.rows[id], Lowest(db.rows) - 1)])
  {
    hide Pins, Lowest, UpNextOf;
    RepinOk(db, id, Requeued(db.rows[id], Lowest(db.rows) - 1));
  }

  lemma HeadIsQueued(db: Db, mode: OrderMode)
    ensures UpNextOf(db, mode) != [] ==> Waiting(db.rows, UpNextOf(db, mode)[0]) && UpNextOf(db, mode)[0] in db.rows
    ensures UpNextOf(db, mode) != [] ==> IsNext(db, UpNextOf(db, mode)[0])
  {
    UpNextListsQueued(db, mode);
    HeadIsStrongest(db, mode);
    hide UpNextOf;
    if UpNextOf(db, mode) != [] {
      assert UpNextOf(db, mode)[0] in Elements(UpNextOf(db, mode));
    }
  }

  /** Between the two statements of an advance nothing plays. */
  lemma RetireOk(db: Db, cur: Option<nat>)
    requires DbOk(db) && PlayingIs(db, cur)
    ensures DbOk(Retired(db, cur)) && PlayingIs(Retired(db, cur), None)
    ensures cur.Some? ==> Explains(Retiring(cur.value), db, Retired(db, cur))
    ensures Retired(db, cur) == if cur.Some?
              then db.(rows := db.rows[cur.value := WithState(db.rows[cur.value], Played)]) else db
  {
    hide UpNextOf, Lowest;
  }

  lemma PromoteOk(db: Db, id: nat)
    requires DbOk(db) && PlayingIs(db, None) && id in db.rows
    ensures IsNext(db, id) ==> Explains(Promoting(id), db, Promoted(db, id))
    ensures DbOk(Promoted(db, id)) && PlayingIs(Promoted(db, id), Some(id)) && id in Promoted(db, id).rows
    ensures Promoted(db, id) == db.(rows := db.rows[id := WithState(db.rows[id], Playing)])
    ensures Promoted(db, id).rows[id].itemType == db.rows[id].itemType
  {
    hide IsNext, UpNextOf, Lowest, DbOk, PlayingIs;
    PromotedPlays(db, id);
    PromotedInOrder(db, id);
  }

  lemma PromotedPlays(db: Db, id: nat)
    requires PlayingIs(db, None) && id in db.rows
    ensures PlayingIs(Promoted(db, id), Some(id))
  {
  }

  lemma PromotedInOrder(db: Db, id: nat)
    requires DbOk(db) && PlayingIs(db, None) && id in db.rows
    ensures DbOk(Promoted(db, id))
  {
    PromotedPlays(db, id);
    PinsUpdate(db.rows, id, WithState(db.rows[id], Playing));
    hide Pins;
  }

  lemma DeleteOk(db: Db, id: nat)
    requires DbOk(db)
    ensures DbOk(Deleted(db, id)) && Explains(Deleting(id), db, Deleted(db, id))
  {
    assert Pins(Deleted(db, id).rows) <= Pins(db.rows);
  }

  lemma InsertOk(db: Db, id: nat, row: Row)
    requires DbOk(db) && id !in db.rows && row.state == Queued && row.sortOverride == None
    ensures DbOk(db.(rows := db.rows[id := row])) && Explains(Inserting(id), db, db.(rows := db.rows[id := row]))
  {
    PinsUpdate(db.rows, id, row);
  }

  lemma VoteOk(db: Db, v: Vote, after: Db)
    requires DbOk(db) && v.item in db.rows
    requires after == db.(votes := db.votes + {v}) || after == db.(votes := db.votes - {v})
    ensures DbOk(after) && Explains(Voting(v), db, after)
  {
  }

  /** One vote more for an item is one vote more for that item only. */
  lemma VoteCounts(votes: set<Vote>, v: Vote)
    requires v !in votes
    ensures forall id: nat | id != v.item :: VotesOn(votes + {v}, id) == VotesOn(votes, id)
    ensures |VotesOn(votes + {v}, v.item)| == |VotesOn(votes, v.item)| + 1
  {
    assert VotesOn(votes + {v}, v.item) == VotesOn(votes, v.item) + {v};
  }

  lemma PinOk(db: Db, id: nat)
    requires DbOk(db)
    ensures DbOk(MovedToTop(db, id)) && Explains(Pinning(id), db, MovedToTop(db, id))
  {
    hide Lowest, UpNextOf, DbOk;
    if id in db.rows {
      RepinOk(db, id, Repinned(db.rows[id], Lowest(db.rows) - 1));
    }
  }

  lemma ClearOk(db: Db)
    ensures DbOk(Db(map[], {})) && Explains(DeletingAll, db, Db(map[], {}))
  {
  }

  // ----- the state machine -----

  class Machine {
    const store: Store
    var mode: OrderMode
    var playbackState: PlaybackState
    var nowPlaying: Option<nat>

    /**
     Something plays exactly if the state is not idle, exactly the row marked as playing is it, and
     the state says whether it plays outside.
     */
    ghost predicate Coherent()
      reads this, store
    {
      && (nowPlaying.Some? <==> playbackState != Idle)
      && PlayingIs(store.db, nowPlaying)
      && (playbackState == PlayingExternal <==>
          nowPlaying.Some? && nowPlaying.value in store.db.rows && store.db.rows[nowPlaying.value].itemType == External)
    }

    /** A stop after any statement so far leaves tables that are in order. */
    ghost predicate Valid()
      reads this, store
    {
      DbOk(store.db) && Records(store.history, store.db) && Coherent()
    }

    lemma Parts()
      requires Valid()
      ensures DbOk(store.db) && Records(store.history, store.db)
      ensures nowPlaying.Some? <==> playbackState != Idle
      ensures PlayingIs(store.db, nowPlaying)
      ensures nowPlaying.Some? ==> nowPlaying.value in store.db.rows
    {
      hide DbOk;
    }

    lemma Silent()
      requires DbOk(store.db) && Records(store.history, store.db)
      requires nowPlaying == None && playbackState == Idle && PlayingIs(store.db, None)
      ensures Valid()
    {
      hide DbOk, PlayingIs;
    }

    lemma Sounding(id: nat)
      requires DbOk(store.db) && Records(store.history, store.db)
      requires nowPlaying == Some(id) && PlayingIs(store.db, Some(id)) && id in store.db.rows
      requires playbackState == if store.db.rows[id].itemType == External then PlayingExternal else PlayingEmbedded
      ensures Valid()
    {
      hide DbOk, PlayingIs;
    }

    /** Rebuilds the state in memory from the tables. */
    constructor Restore(store: Store, mode: OrderMode)
      requires DbOk(store.db) && Records(store.history, store.db)
      ensures Valid() && this.store == store && this.mode == mode
    {
      this.store := store;
      this.mode := mode;
      var playing := set id | id in store.db.rows && store.db.rows[id].state == Playing;
      if playing != {} {
        var id :| id in playing;
        OnlyOnePlays(store.db, id);
        nowPlaying := Some(id);
        playbackState := if store.db.rows[id].itemType == External then PlayingExternal else PlayingEmbedded;
      } else {
        nowPlaying, playbackState := None, Idle;
        assert forall id: nat | id in store.db.rows && store.db.rows[id].state == Playing :: id in playing;
      }
    }

    method Add(itemType: ItemType, reference: string, addedById: string, now: int) returns (id: nat)
      requires Valid()
      modifies store
      ensures Valid() && store.history == old(store.history) + [Moment(Inserting(id), store.db)]
      ensures id !in old(store.db).rows
      ensures store.db == old(store.db).(rows := old(store.db).rows[id := Row(itemType, reference, addedById, now,
                Queued, None)])
    {
      hide DbOk, Records, Explains;
      ghost var before, history := store.db, store.history;
      id := store.Insert(Row(itemType, reference, addedById, now, Queued, None));
      InsertOk(before, id, Row(itemType, reference, addedById, now, Queued, None));
      HistoryGrows(history, before, Inserting(id), store.db);
    }

    /** A client's vote for an item flips; there is nothing to vote for if the item is gone. */
    method ToggleVote(item: nat, voter: string) returns (voted: bool)
      requires Valid()
      modifies store
      ensures Valid() && store.history == old(store.history) +
                (if item in old(store.db).rows then [Moment(Voting(Vote(item, voter)), store.db)] else [])
      ensures store.db.rows == old(store.db).rows
      ensures voted <==> item in old(store.db).rows && Vote(item, voter) !in old(store.db).votes
      ensures forall v :: v in store.db.votes <==> if v == Vote(item, voter) then voted else v in old(store.db).votes
      ensures forall id: nat | id != item :: VotesOn(store.db.votes, id) == VotesOn(old(store.db).votes, id)
      ensures item !in old(store.db).rows ==> store.db == old(store.db)
      ensures item in old(store.db).rows ==>
                |VotesOn(store.db.votes, item)| == |VotesOn(old(store.db).votes, item)| + if voted then 1 else -1
    {
      if item !in store.db.rows {
        return false;
      }
      hide DbOk, Records, Explains;
      var v := Vote(item, voter);
      if v in store.db.votes {
        VoteOk(store.db, v, store.db.(votes := store.db.votes - {v}));
        VoteCounts(store.db.votes - {v}, v);
        assert store.db.votes - {v} + {v} == store.db.votes;
        HistoryGrows(store.history, store.db, Voting(v), store.db.(votes := store.db.votes - {v}));
        store.DeleteVote(v);
        return false;
      }
      VoteOk(store.db, v, store.db.(votes := store.db.votes + {v}));
      VoteCounts(store.db.votes, v);
      HistoryGrows(store.history, store.db, Voting(v), store.db.(votes := store.db.votes + {v}));
      store.InsertVote(v);
      return true;
    }

    method Remove(id: nat)
      requires Valid()
      modifies this`nowPlaying, this`playbackState, store
      ensures Valid() && store.history == old(store.history) + [Moment(Deleting(id), store.db)]
      ensures store.db == Deleted(old(store.db), id)
      ensures forall k :: k in store.db.rows <==> k in old(store.db).rows && k != id
      ensures forall k | k in store.db.rows :: store.db.rows[k] == old(store.db).rows[k]
      ensures forall v :: v in store.db.votes <==> v in old(store.db).votes && v.item != id
      ensures nowPlaying == if old(nowPlaying) == Some(id) then None else old(nowPlaying)
    {
      DeleteOk(store.db, id);
      HistoryGrows(store.history, store.db, Deleting(id), Deleted(store.db, id));
      store.Delete(id);
      if nowPlaying == Some(id) {
        nowPlaying := None;
        playbackState := Idle;
      }
    }

    /** Removes every item that refers to a share, and nothing else. */
    method RemoveShareRefs(share: nat) returns (n: nat)
      requires Valid()
      modifies this`nowPlaying, this`playbackState, store
      ensures Valid() && old(store.history) <= store.history
      ensures forall k | |old(store.history)| <= k < |store.history| ::
                store.history[k].cause.Deleting? && store.history[k].cause.id in ShareRefs(old(store.db), share)
      ensures var gone := ShareRefs(old(store.db), share);
              && n == |gone|
              && store.db == WithoutRows(old(store.db), gone)
              && nowPlaying == if old(nowPlaying).Some? && old(nowPlaying).value in gone then None else old(nowPlaying)
      ensures OnlyRefsGone(old(store.db), store.db, share)
    {
      hide *;
      RefsGone(store.db, share);
      ghost var before, playing := store.db, nowPlaying;
      DeletedNone(before);
      var ids := ShareRefs(store.db, share);
      n := |ids|;
      ghost var gone: set<nat> := {};
      while ids != {}
        invariant Valid() && old(store.history) <= store.history
        invariant forall k | |old(store.history)| <= k < |store.history| ::
                    store.history[k].cause.Deleting? && store.history[k].cause.id in gone
        invariant gone !! ids && gone + ids == ShareRefs(before, share)
        invariant store.db == WithoutRows(before, gone)
        invariant nowPlaying == if playing.Some? && playing.value in gone then None else playing
        decreases |ids|
      {
        var id :| id in ids;
        Remove(id);
        DeletedAll(before, gone, id);
        gone := gone + {id};
        ids := ids - {id};
      }
    }

    method Clear()
      requires Valid()
      modifies this`nowPlaying, this`playbackState, store
      ensures Valid() && store.history == old(store.history) + [Moment(DeletingAll, store.db)]
      ensures store.db == Db(map[], {}) && nowPlaying == None
    {
      ClearOk(store.db);
      HistoryGrows(store.history, store.db, DeletingAll, Db(map[], {}));
      store.DeleteAll();
      nowPlaying := None;
      playbackState := Idle;
    }

    method SetMode(mode: OrderMode)
      requires Valid()
      modifies this`mode
      ensures Valid() && this.mode == mode
    {
      this.mode := mode;
    }

    /** Reads the queued rows in whatever order the database returns them. */
    method UpNextOrder() returns (order: seq<nat>)
      ensures order == UpNextOf(store.db, mode)
      ensures FollowsTables(order, store.db, mode)
    {
      var items: seq<QueueItem> := [];
      var overridden: seq<Pin> := [];
      var ids := QueuedIds(store.db.rows);
      while ids != {}
        invariant ids <= QueuedIds(store.db.rows)
        invariant Collected(store.db, ids, items, overridden)
        decreases |ids|
      {
        var id :| id in ids;
        CollectOne(store.db, ids, items, overridden, id);
        match store.db.rows[id].sortOverride {
          case Some(rank) => overridden := overridden + [Pin(rank, id)];
          case None => items := items + [ItemAt(store.db.votes, id, store.db.rows[id])];
        }
        ids := ids - {id};
      }
      UpNextFollowsTables(store.db, mode);
      hide FollowsTables;
      CollectedAll(store.db, items, overridden);
      ItemsUnique(store.db);
      PinsTotal(Pins(store.db.rows));
      SortByLists(overridden, PinBefore);
      IsAscending(SortBy(overridden, PinBefore), Pins(store.db.rows), PinBefore);
      var rest := FairRotation.OrderUpNext(items, mode);
      order := PinIds(SortBy(overridden, PinBefore)) + rest;
    }

    /**
     The current item, if any, becomes played for good, and the head of the up-next order plays.
     Between the two statements nothing plays.
     */
    method Advance()
      requires Valid()
      modifies this`nowPlaying, this`playbackState, store
      ensures Valid()
      ensures var order := UpNextOf(old(store.db), mode);
              && nowPlaying == (if order == [] then None else Some(order[0]))
              && store.db == (if order == [] then Retired(old(store.db), old(nowPlaying))
                              else Promoted(Retired(old(store.db), old(nowPlaying)), order[0]))
      ensures store.history == old(store.history) + Retirement(old(store.db), old(nowPlaying)) +
                (if UpNextOf(old(store.db), mode) == [] then []
                 else [Moment(Promoting(UpNextOf(old(store.db), mode)[0]), store.db)])
    {
      hide *;
      Parts();
      ghost var before, cur := store.db, nowPlaying;
      RetireOk(before, cur);
      RetireKeepsOrder(before, cur, mode);
      RetirementIs(before, cur);
      if nowPlaying.Some? {
        HistoryGrows(store.history, before, Retiring(cur.value), Retired(before, cur));
        store.Update(nowPlaying.value, row => WithState(row, Played), Retiring(cur.value));
        nowPlaying := None;
      }
      var order := UpNextOrder();
      if order == [] {
        playbackState := Idle;
        Silent();
      } else {
        var next := order[0];
        HeadIsQueued(store.db, mode);
        var nextState := if store.db.rows[next].itemType == External then PlayingExternal else PlayingEmbedded;
        PromoteOk(store.db, next);
        HistoryGrows(store.history, store.db, Promoting(next), Promoted(store.db, next));
        store.Update(next, row => WithState(row, Playing), Promoting(next));
        nowPlaying := Some(next);
        playbackState := nextState;
        Sounding(next);
      }
    }

    /** The last playback machine left: what was playing goes back to the head of the queue. */
    method RequeueNowPlaying() returns (changed: bool)
      requires Valid()
      modifies this`nowPlaying, this`playbackState, store
      ensures Valid() && store.history == old(store.history) +
                (if old(nowPlaying).Some? then [Moment(Requeuing(old(nowPlaying).value), store.db)] else [])
      ensures changed <==> old(nowPlaying).Some?
      ensures nowPlaying == None
      ensures store.db == if changed then BackOnTop(old(store.db), old(nowPlaying).value) else old(store.db)
    {
      hide *;
      if nowPlaying.None? {
        return false;
      }
      Parts();
      var cur := nowPlaying.value;
      RequeueOk(store.db, cur);
      HistoryGrows(store.history, store.db, Requeuing(cur), BackOnTop(store.db, cur));
      nowPlaying := None;
      var min := store.MinOverride();
      store.Update(cur, row => Requeued(row, min - 1), Requeuing(cur));
      playbackState := Idle;
      Silent();
      return true;
    }

    /** Pins an item, in whatever state its row is, below all queued overrides. */
    method MoveToTop(id: nat)
      requires Valid()
      modifies store
      ensures Valid() && store.history == old(store.history) + [Moment(Pinning(id), store.db)]
      ensures store.db == MovedToTop(old(store.db), id)
    {
      hide DbOk, Records, Explains, Lowest;
      var min := store.MinOverride();
      PinOk(store.db, id);
      HistoryGrows(store.history, store.db, Pinning(id), MovedToTop(store.db, id));
      store.Update(id, row => Repinned(row, min - 1), Pinning(id));
    }
  }

  /** The first statement of an advance. */
  function Retirement(db: Db, cur: Option<nat>): seq<Moment> {
    if cur.Some? then [Moment(Retiring(cur.value), Retired(db, cur))] else []
  }

  lemma RetirementIs(db: Db, cur: Option<nat>)
    ensures Retirement(db, cur) == if cur.Some? then [Moment(Retiring(cur.value), Retired(db, cur))] else []
  {
  }

  /** Shared files that name this share are gone, with their votes; everything else is as it was. */
  ghost predicate OnlyRefsGone(db: Db, after: Db, share: nat) {
    && (forall k :: k in after.rows <==>
      k in db.rows && !(db.rows[k].itemType == SharedFile && db.rows[k].ref == Strings.Decimal(share)))
    && (forall k | k in after.rows :: after.rows[k] == db.rows[k])
    && (forall v :: v in after.votes <==> v in db.votes && !(v.item in db.rows && v.item !in after.rows))
  }

  lemma RefsGone(db: Db, share: nat)
    ensures OnlyRefsGone(db, WithoutRows(db, ShareRefs(db, share)), share)
  {
  }

  /** The rows of shared files with this share's id. */
  function ShareRefs(db: Db, share: nat): set<nat> {
    set id | id in db.rows && db.rows[id].itemType == SharedFile && db.rows[id].ref == Strings.Decimal(share)
  }

  // ----- reading the queue -----

  /** Everything but the rows in `ids` has been read. */
  ghost predicate Collected(db: Db, ids: set<nat>, items: seq<QueueItem>, overridden: seq<Pin>) {
    && Distinct(items) && Elements(items) == (set x | x in Items(db) && x.id !in ids)
    && Distinct(overridden) && Elements(overridden) == set p | p in Pins(db.rows) && p.id !in ids
  }

  lemma CollectOne(db: Db, ids: set<nat>, items: seq<QueueItem>, overridden: seq<Pin>, id: nat)
    requires Collected(db, ids, items, overridden) && id in ids && Waiting(db.rows, id)
    ensures var row := db.rows[id];
            match row.sortOverride
            case Some(rank) => Collected(db, ids - {id}, items, overridden + [Pin(rank, id)])
            case None => Collected(db, ids - {id}, items + [ItemAt(db.votes, id, row)], overridden)
  {
    hide VoteCount, Items, Pins;
    var row := db.rows[id];
    forall x: QueueItem | x.id == id
      ensures x in Items(db) <==> row.sortOverride.None? && x == ItemAt(db.votes, id, row)
    {
      ItemIn(db, x);
    }
    forall p: Pin | p.id == id
      ensures p in Pins(db.rows) <==> row.sortOverride == Some(p.rank)
    {
      PinIn(db.rows, p);
    }
    match row.sortOverride {
      case Some(rank) =>
        assert Pin(rank, id) !in Elements(overridden);
        assert Elements(overridden + [Pin(rank, id)]) == Elements(overridden) + {Pin(rank, id)};
      case None =>
        var x := ItemAt(db.votes, id, row);
        assert x !in Elements(items);
        assert Elements(items + [x]) == Elements(items) + {x};
    }
  }

  lemma CollectedAll(db: Db, items: seq<QueueItem>, overridden: seq<Pin>)
    requires Collected(db, {}, items, overridden)
    ensures Distinct(items) && Elements(items) == Items(db)
    ensures Distinct(overridden) && Elements(overridden) == Pins(db.rows)
  {
    hide Items, Pins;
  }

  // ----- what the operations do to the order -----

  /** Marking the current item as played does not touch the queue. */
  lemma RetireKeepsOrder(db: Db, cur: Option<nat>, mode: OrderMode)
    requires PlayingIs(db, cur)
    ensures UpNextOf(Retired(db, cur), mode) == UpNextOf(db, mode)
  {
    if cur.Some? {
      var row := WithState(db.rows[cur.value], Played);
      PinsUpdate(db.rows, cur.value, row);
      ItemsUpdate(db, cur.value, row);
      OthersUntouched(db, cur.value);
    }
  }

  /** A row that is not queued is neither a pin nor an item. */
  lemma OthersUntouched(db: Db, id: nat)
    ensures !Waiting(db.rows, id) ==> (set p | p in Pins(db.rows) && p.id != id) == Pins(db.rows)
    ensures !Waiting(db.rows, id) ==> (set x | x in Items(db) && x.id != id) == Items(db)
    ensures Waiting(db.rows, id) && db.rows[id].sortOverride.Some? ==>
              (set x | x in Items(db) && x.id != id) == Items(db)
  {
    hide VoteCount;
  }
}
