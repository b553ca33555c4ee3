/**
 Verified writes through a bounded pool of open file handles.
 */
module PooledWrites {
  import opened Hashing
  import opened Paths
  import opened Ordering
  import opened Storage
  import opened Transfer

  datatype Handle = Handle(key: string, path: Path)

  function Keys(open: seq<Handle>): (keys: seq<string>)
    ensures |keys| == |open|
    ensures forall i | 0 <= i < |open| :: keys[i] == open[i].key
  {
    seq(|open|, i requires 0 <= i < |open| => open[i].key)
  }

  lemma KeysTail(open: seq<Handle>)
    ensures open != [] ==> Keys(open)[1..] == Keys(open[1..])
  {
  }

  lemma KeysPushed(open: seq<Handle>, h: Handle)
    ensures Keys(open + [h]) == Keys(open) + [h.key]
    ensures forall g :: g in open + [h] <==> g in open || g == h
  {
  }

  lemma KeysRotated(open: seq<Handle>, pos: nat)
    requires pos < |open|
    ensures Keys(Drop(open, pos) + [open[pos]]) == Drop(Keys(open), pos) + [open[pos].key]
    ensures forall g | g in Drop(open, pos) + [open[pos]] :: g in open
  {
  }

  // ----- recency: an independent account of "least recently used" -----

  /** All keys ever used, least recently used first. */
  function Recency(uses: seq<string>): seq<string> {
    if uses == [] then [] else Without(Recency(uses[..|uses| - 1]), uses[|uses| - 1]) + [uses[|uses| - 1]]
  }

  /** The index of the last use of `k`, or -1. */
  function LastUse(uses: seq<string>, k: string): (i: int)
    ensures -1 <= i < |uses|
  {
    if uses == [] then -1
    else if uses[|uses| - 1] == k then |uses| - 1
    else LastUse(uses[..|uses| - 1], k)
  }

  /** Removing a key from a list of distinct keys removes the one position it is at. */
  lemma {:induction false} WithoutAt(s: seq<string>, i: nat)
    requires Distinct(s) && i < |s|
    ensures Without(s, s[i]) == Drop(s, i)
  {
    if i == 0 {
      assert s[0] !in s[1..];
      WithoutAbsent(s[1..], s[0]);
    } else {
      WithoutAt(s[1..], i - 1);
      assert s[0] != s[i] && Drop(s, i) == [s[0]] + Drop(s[1..], i - 1);
    }
  }

  lemma {:induction false} WithoutSubsequence(s: seq<string>, k: string, i: nat, j: nat)
    requires i < j < |Without(s, k)|
    ensures exists a, b :: 0 <= a < b < |s| && s[a] == Without(s, k)[i] && s[b] == Without(s, k)[j]
    ensures Without(s, k)[i] != k && Without(s, k)[j] != k
  {
    var w := Without(s[1..], k);
    var n := if s[0] == k then 0 else 1;
    if i >= n {
      WithoutSubsequence(s[1..], k, i - n, j - n);
      var a, b :| 0 <= a < b < |s| - 1 && s[1..][a] == w[i - n] && s[1..][b] == w[j - n];
      assert s[a + 1] == w[i - n] && s[b + 1] == w[j - n];
    } else {
      WithoutMember(s[1..], k, j - n);
      var b :| 0 <= b < |s| - 1 && s[1..][b] == w[j - n];
      assert s[0] == Without(s, k)[i] && s[b + 1] == w[j - n];
    }
  }

  lemma {:induction false} WithoutMember(s: seq<string>, k: string, i: nat)
    requires i < |Without(s, k)|
    ensures exists a :: 0 <= a < |s| && s[a] == Without(s, k)[i]
    ensures Without(s, k)[i] != k
  {
    var w := Without(s[1..], k);
    var n := if s[0] == k then 0 else 1;
    if i >= n {
      WithoutMember(s[1..], k, i - n);
      var a :| 0 <= a < |s| - 1 && s[1..][a] == w[i - n];
      assert s[a + 1] == w[i - n];
    } else {
      assert s[0] == Without(s, k)[i];
    }
  }

  /** The recency list is ordered by last use, so its first key is the least recently used one. */
  lemma {:induction false} RecencyOrder(uses: seq<string>, i: nat, j: nat)
    requires i < j < |Recency(uses)|
    ensures 0 <= LastUse(uses, Recency(uses)[i]) < LastUse(uses, Recency(uses)[j])
  {
    var n := |uses| - 1;
    var before := Recency(uses[..n]);
    var w := Without(before, uses[n]);
    if j < |w| {
      WithoutSubsequence(before, uses[n], i, j);
      var a, b :| 0 <= a < b < |before| && before[a] == w[i] && before[b] == w[j];
      RecencyOrder(uses[..n], a, b);
    } else {
      WithoutMember(before, uses[n], i);
      var a :| 0 <= a < |before| && before[a] == w[i];
      RecencyUsed(uses[..n], a);
    }
  }

  lemma {:induction false} RecencyUsed(uses: seq<string>, i: nat)
    requires i < |Recency(uses)|
    ensures LastUse(uses, Recency(uses)[i]) >= 0
  {
    var n := |uses| - 1;
    var w := Without(Recency(uses[..n]), uses[n]);
    if i < |w| {
      WithoutMember(Recency(uses[..n]), uses[n], i);
      var a :| 0 <= a < |Recency(uses[..n])| && Recency(uses[..n])[a] == w[i];
      RecencyUsed(uses[..n], a);
    }
  }

  lemma RecencyDistinct(uses: seq<string>)
    ensures Distinct(Recency(uses))
  {
    forall i, j | 0 <= i < j < |Recency(uses)|
      ensures Recency(uses)[i] != Recency(uses)[j]
    {
      RecencyOrder(uses, i, j);
    }
  }

  /** The last `max` elements of a list. */
  function Tail<T>(s: seq<T>, max: nat): (t: seq<T>)
    ensures |t| <= max
  {
    if |s| <= max then s else s[|s| - max..]
  }

  lemma TailRotate<T>(s: seq<T>, max: nat, pos: nat)
    requires pos < |Tail(s, max)|
    ensures var d := |s| - |Tail(s, max)|;
            s[d + pos] == Tail(s, max)[pos]
            && Tail(Drop(s, d + pos) + [s[d + pos]], max) == Drop(Tail(s, max), pos) + [Tail(s, max)[pos]]
  {
    var d := |s| - |Tail(s, max)|;
    TailIs(s, max);
    var rotated := Drop(s, d + pos) + [s[d + pos]];
    TailIs(rotated, max);
    DropSplit(s, d, pos);
    hide *;
    assert rotated[d..] == Drop(s[d..], pos) + [s[d + pos]];
  }

  lemma TailIs<T>(s: seq<T>, max: nat)
    ensures Tail(s, max) == s[|s| - |Tail(s, max)|..] && |Tail(s, max)| == Min(max, |s|)
  {
  }

  lemma DropSplit<T>(s: seq<T>, d: nat, pos: nat)
    requires d + pos < |s|
    ensures |Drop(s, d + pos)| == |s| - 1 && Drop(s, d + pos)[d..] == Drop(s[d..], pos)
  {
  }

  lemma TailPush<T>(s: seq<T>, max: nat, x: T)
    requires max > 0
    ensures Tail(s + [x], max) == (if |Tail(s, max)| >= max then Tail(s, max)[1..] else Tail(s, max)) + [x]
  {
  }

  lemma TailPushDropped<T>(s: seq<T>, max: nat, i: nat, x: T)
    requires max > 0 && i < |s| - |Tail(s, max)|
    ensures Tail(Drop(s, i) + [x], max) == Tail(s, max)[1..] + [x]
  {
  }

  /** Promoting a pooled key keeps the pool equal to the most recent keys. */
  lemma PromoteHit(uses: seq<string>, max: nat, pos: nat)
    requires pos < |Tail(Recency(uses), max)|
    ensures var pool := Tail(Recency(uses), max);
            Tail(Recency(uses + [pool[pos]]), max) == Drop(pool, pos) + [pool[pos]]
  {
    var r := Recency(uses);
    var i := |r| - |Tail(r, max)| + pos;
    TailRotate(r, max, pos);
    RecencyDistinct(uses);
    RecencySnoc(uses, r[i]);
    WithoutAt(r, i);
    hide *;
  }

  lemma RecencySnoc(uses: seq<string>, k: string)
    ensures Recency(uses + [k]) == Without(Recency(uses), k) + [k]
  {
    assert (uses + [k])[..|uses|] == uses;
  }

  /** Opening a new key, evicting the oldest when full, keeps the pool equal to the most recent keys. */
  lemma PromoteMiss(uses: seq<string>, max: nat, k: string)
    requires max > 0 && k !in Tail(Recency(uses), max)
    ensures var pool := Tail(Recency(uses), max);
            Tail(Recency(uses + [k]), max) == (if |pool| >= max then pool[1..] else pool) + [k]
  {
    var r := Recency(uses);
    RecencySnoc(uses, k);
    if k in r {
      var i :| 0 <= i < |r| && r[i] == k;
      RecencyDistinct(uses);
      WithoutAt(r, i);
      hide Recency, Without, Distinct, Drop;
      NotInTail(r, max, i);
      TailPushDropped(r, max, i, k);
    } else {
      WithoutAbsent(r, k);
      hide *;
      TailPush(r, max, k);
    }
  }

  lemma NotInTail<T>(s: seq<T>, max: nat, i: nat)
    requires i < |s| && s[i] !in Tail(s, max)
    ensures i < |s| - |Tail(s, max)|
  {
  }

  // ----- the writer -----

  /** An already open handle cannot fail to open. */
  function Effective(fault: Fault, hit: bool): Fault {
    if hit && fault == OpenFault then NoFault else fault
  }

  class PooledWriter {
    const machine: Machine
    const maxOpen: nat

    /** Open handles, least recently used first. */
    var open: seq<Handle>
    /** The keys of all successful handle lookups since the pool was last emptied. */
    ghost var uses: seq<string>

    ghost predicate Valid()
      reads this
    {
      && maxOpen > 0
      && Keys(open) == Tail(Recency(uses), maxOpen)
      && forall h | h in open :: SafeJoin(h.key) == Some(h.path)
    }

    constructor (machine: Machine)
      ensures Valid() && this.machine == machine && maxOpen == 8 && open == []
    {
      this.machine := machine;
      maxOpen := 8;
      open := [];
      uses := [];
    }

    /** The pool is bounded and holds each key once. */
    lemma PoolBounded()
      requires Valid()
      ensures |open| <= maxOpen && Distinct(Keys(open))
    {
      RecencyDistinct(uses);
    }

    /**
     Looks the key up, promoting it; otherwise opens it and evicts the first handle past the limit.
     Opening can be refused by the path check or by the file system, and then the pool is unchanged.
     */
    method Lookup(rel: string, openFails: bool) returns (r: Option<Path>)
      requires Valid()
      modifies this
      ensures Valid()
      ensures r == if rel in old(Keys(open)) || !openFails then SafeJoin(rel) else None
      ensures r.None? ==> open == old(open) && uses == old(uses)
      ensures r.Some? ==> uses == old(uses) + [rel] && open != [] && open[|open| - 1] == Handle(rel, r.value)
    {
      hide SafeJoin, Recency, Tail, Keys, Drop;
      var pos := 0;
      while pos < |open| && open[pos].key != rel
        invariant 0 <= pos <= |open|
        invariant forall i | 0 <= i < pos :: open[i].key != rel
      {
        pos := pos + 1;
      }
      if pos < |open| {
        var entry := open[pos];
        PromoteHit(uses, maxOpen, pos);
        assert Keys(open)[pos] == rel && entry in open;
        KeysRotated(open, pos);
        open := Drop(open, pos) + [entry];
        uses := uses + [rel];
        return Some(entry.path);
      }
      assert rel !in Keys(open);
      var path := JoinUnderRoot(rel);
      if path.None? || openFails {
        return None;
      }
      PromoteMiss(uses, maxOpen, rel);
      var kept := if |open| >= maxOpen then open[1..] else open;
      KeysTail(open);
      KeysPushed(kept, Handle(rel, path.value));
      open := kept + [Handle(rel, path.value)];
      uses := uses + [rel];
      return path;
    }

    /**
     Behaves on the disk exactly like the stateless guard. A chunk that fails verification changes
     neither the disk nor the pool.
     */
    method VerifyAndWrite(rel: string, offset: nat, data: Data, expected: Digest, fault: Fault) returns (r: WriteResult)
      requires Valid()
      modifies this, machine
      ensures Valid()
      ensures r == WriteOutcome(rel, data, expected, Effective(fault, rel in old(Keys(open))))
      ensures machine.files == AfterWrite(old(machine.files), rel, offset, data, expected, Effective(fault,
                rel in old(Keys(open))))
      ensures machine.rows == old(machine.rows)
      ensures || machine.instants == old(machine.instants)
              || machine.instants == old(machine.instants) + [Instant(machine.files, machine.rows)]
      ensures r == HashMismatch ==> open == old(open) && uses == old(uses) && machine.files == old(machine.files)
    {
      hide SafeJoin;
      if Blake3(data) != expected {
        return HashMismatch;
      }
      var hit := rel in Keys(open);
      var path := Lookup(rel, fault == OpenFault);
      if path.None? {
        return if SafeJoin(rel).None? then UnsafePath else IoError;
      }
      match fault {
        case WriteFault(k) =>
          machine.Write(path.value, offset, data[..Min(k, |data|)]);
          return IoError;
        case _ =>
          machine.Write(path.value, offset, data);
          return Written;
      }
    }

    /** Closes every handle. */
    method CloseAll()
      requires Valid()
      modifies this
      ensures Valid() && open == []
    {
      open := [];
      uses := [];
    }
  }
}
