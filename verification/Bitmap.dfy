/**
 The resume bitmap: one bit per chunk of a title.

 The representation is the packed byte buffer that the shared core uses, operated on with shifts and masks.
 Every operation is specified by its effect on the finite set of chunk indices the bitmap denotes.
 */
module ChunkBitmap {

  // ----- single bytes -----

  type Octet = bits: seq<bool> | |bits| == 8 witness seq(8, _ => false)

  /** The eight bits of a byte, least significant first. */
  function ToBits(b: bv8): Octet {
    [b & 1 != 0, b & 2 != 0, b & 4 != 0, b & 8 != 0, b & 16 != 0, b & 32 != 0, b & 64 != 0, b & 128 != 0]
  }

  function Mask(k: nat): bv8
    requires k < 8
  {
    match k
    case 0 => 1
    case 1 => 2
    case 2 => 4
    case 3 => 8
    case 4 => 16
    case 5 => 32
    case 6 => 64
    case _ => 128
  }

  lemma ShiftIsMask(k: nat)
    requires k < 8
    ensures (1 as bv8) << k == Mask(k)
  {
  }

  /** Shifting bit `k` down and masking it reads bit `k`. */
  lemma ShiftReadsBit(b: bv8, k: nat)
    requires k < 8
    ensures (b >> k) & 1 == 1 <==> ToBits(b)[k]
  {
    match k
    case 0 =>
    case 1 =>
    case 2 =>
    case 3 =>
    case 4 =>
    case 5 =>
    case 6 =>
    case _ => assert k == 7;
  }

  lemma MaskedBits(b: bv8, k: nat, j: nat)
    requires k < 8 && j < 8
    ensures (b | Mask(k)) & Mask(j) != 0 <==> j == k || b & Mask(j) != 0
    ensures (b & !Mask(k)) & Mask(j) != 0 <==> j != k && b & Mask(j) != 0
    ensures 0 < k ==> ((b & (Mask(k) - 1)) & Mask(j) != 0 <==> j < k && b & Mask(j) != 0)
  {
  }

  lemma BitIsMask(b: bv8, j: nat)
    requires j < 8
    ensures ToBits(b)[j] <==> b & Mask(j) != 0
  {
  }

  lemma OrMaskAt(b: bv8, k: nat, j: nat)
    requires k < 8 && j < 8
    ensures ToBits(b | Mask(k))[j] <==> j == k || ToBits(b)[j]
  {
    MaskedBits(b, k, j);
    BitIsMask(b, j);
    BitIsMask(b | Mask(k), j);
  }

  lemma OrMask(b: bv8, k: nat)
    requires k < 8
    ensures ToBits(b | Mask(k)) == ToBits(b)[k := true]
  {
    var bits, want := ToBits(b | Mask(k)), ToBits(b)[k := true];
    forall j: nat | j < 8
      ensures bits[j] == want[j]
    {
      OrMaskAt(b, k, j);
    }
  }

  lemma AndNotMask(b: bv8, k: nat)
    requires k < 8
    ensures ToBits(b & !Mask(k)) == ToBits(b)[k := false]
  {
    forall j: nat | j < 8
      ensures ToBits(b & !Mask(k))[j] <==> j != k && ToBits(b)[j]
    {
      MaskedBits(b, k, j);
      BitIsMask(b, j);
      BitIsMask(b & !Mask(k), j);
    }
  }

  lemma LowMask(b: bv8, k: nat)
    requires 0 < k < 8
    ensures forall j: nat | j < 8 :: ToBits(b & (Mask(k) - 1))[j] <==> j < k && ToBits(b)[j]
  {
    forall j: nat | j < 8
      ensures ToBits(b & (Mask(k) - 1))[j] <==> j < k && ToBits(b)[j]
    {
      MaskedBits(b, k, j);
      BitIsMask(b, j);
      BitIsMask(b & (Mask(k) - 1), j);
    }
  }

  /** `b | 1 << k` sets bit `k` and nothing else. */
  method SetBit(b: bv8, k: nat) returns (r: bv8)
    requires k < 8
    ensures ToBits(r) == ToBits(b)[k := true]
  {
    ShiftIsMask(k);
    r := b | (1 << k);
    OrMask(b, k);
  }

  /** `b & !(1 << k)` clears bit `k` and nothing else. */
  method ClearBit(b: bv8, k: nat) returns (r: bv8)
    requires k < 8
    ensures ToBits(r) == ToBits(b)[k := false]
  {
    ShiftIsMask(k);
    r := b & !(1 << k);
    AndNotMask(b, k);
  }

  /** The padding mask keeps the low `used` bits and zeroes the rest. */
  method KeepLowBits(b: bv8, used: nat) returns (r: bv8)
    requires 0 < used < 8
    ensures forall j: nat | j < 8 :: ToBits(r)[j] <==> j < used && ToBits(b)[j]
  {
    ShiftIsMask(used);
    var mask := (1 as bv8) << used;
    r := b & (mask - 1);
    LowMask(b, used);
  }

  lemma BitsDetermineByte(a: bv8, b: bv8)
    requires ToBits(a) == ToBits(b)
    ensures a == b
  {
  }

  // ----- byte buffers -----

  function ByteCount(len: nat): nat {
    (len + 7) / 8
  }

  /** Eight bits per element, in index order. */
  function Concat8<T>(xs: seq<T>, f: T -> Octet): (bits: seq<bool>)
    ensures |bits| == 8 * |xs|
  {
    if xs == [] then [] else Concat8(xs[..|xs| - 1], f) + f(xs[|xs| - 1])
  }

  lemma {:induction false} Concat8At<T>(xs: seq<T>, f: T -> Octet, i: nat)
    requires i < 8 * |xs|
    ensures Concat8(xs, f)[i] == f(xs[i / 8])[i % 8]
  {
    var n := |xs| - 1;
    if i < 8 * n {
      Concat8At(xs[..n], f, i);
    }
  }

  lemma {:induction false} Concat8Append<T>(a: seq<T>, b: seq<T>, f: T -> Octet)
    ensures Concat8(a + b, f) == Concat8(a, f) + Concat8(b, f)
  {
    if b == [] {
      assert a + b == a;
    } else {
      var b', last := b[..|b| - 1], b[|b| - 1];
      Concat8Append(a, b', f);
      assert (a + b)[..|a + b| - 1] == a + b';
    }
  }

  lemma Concat8Update<T>(xs: seq<T>, f: T -> Octet, i: nat, x: T, v: bool)
    requires i < 8 * |xs|
    requires f(x) == f(xs[i / 8])[i % 8 := v]
    ensures Concat8(xs[i / 8 := x], f) == Concat8(xs, f)[i := v]
  {
    var after, want := Concat8(xs[i / 8 := x], f), Concat8(xs, f)[i := v];
    forall j: nat | j < 8 * |xs|
      ensures after[j] == want[j]
    {
      Concat8At(xs, f, j);
      Concat8At(xs[i / 8 := x], f, j);
      assert j == 8 * (j / 8) + j % 8 && i == 8 * (i / 8) + i % 8;
    }
  }

  lemma {:induction false} Concat8Injective<T>(a: seq<T>, b: seq<T>, f: T -> Octet)
    requires Concat8(a, f) == Concat8(b, f)
    requires forall x, y | x in a && y in b && f(x) == f(y) :: x == y
    ensures a == b
  {
    assert |a| == |b|;
    forall k | 0 <= k < |a|
      ensures a[k] == b[k]
    {
      forall j | 0 <= j < 8
        ensures f(a[k])[j] == f(b[k])[j]
      {
        Concat8At(a, f, 8 * k + j);
        Concat8At(b, f, 8 * k + j);
      }
      assert f(a[k]) == f(b[k]);
    }
  }

  /** All the bits of a buffer in index order. */
  function Unpack(bytes: seq<bv8>): (bits: seq<bool>)
    ensures |bits| == 8 * |bytes|
  {
    Concat8(bytes, ToBits)
  }

  /** Changing one bit of one byte changes that bit of the buffer and nothing else. */
  lemma UnpackSetBit(bytes: seq<bv8>, i: nat, b: bv8, v: bool)
    requires i < 8 * |bytes|
    requires ToBits(b) == ToBits(bytes[i / 8])[i % 8 := v]
    ensures Unpack(bytes[i / 8 := b]) == Unpack(bytes)[i := v]
  {
    Concat8Update(bytes, ToBits, i, b, v);
  }

  lemma {:induction false} UnpackZeroes(n: nat)
    ensures Unpack(seq(n, _ => 0 as bv8)) == seq(8 * n, _ => false)
  {
    if n > 0 {
      var zeroes := seq(n, _ => 0 as bv8);
      assert zeroes[..n - 1] == seq(n - 1, _ => 0 as bv8);
      UnpackZeroes(n - 1);
      assert ToBits(0) == seq(8, _ => false);
    }
  }

  lemma BufferDetermined(a: seq<bv8>, b: seq<bv8>)
    requires Unpack(a) == Unpack(b)
    ensures a == b
  {
    forall x, y | x in a && y in b && ToBits(x) == ToBits(y)
      ensures x == y
    {
      BitsDetermineByte(x, y);
    }
    Concat8Injective(a, b, ToBits);
  }

  // ----- the set a buffer denotes -----

  /** The buffer has the right length and its padding bits are zero. */
  ghost predicate WellFormed(len: nat, bytes: seq<bv8>) {
    && |bytes| == ByteCount(len)
    && forall i: nat | len <= i < 8 * |bytes| :: !Unpack(bytes)[i]
  }

  ghost function Members(bits: seq<bool>): set<nat> {
    set i: nat | i < |bits| && bits[i]
  }

  ghost function Below(n: nat): (s: set<nat>)
    ensures forall i: nat :: i in s <==> i < n
    ensures |s| == n
  {
    if n == 0 then {} else Below(n - 1) + {n - 1}
  }

  /** A subset of `0..n` with `n` elements is all of it. */
  lemma FullSubset(s: set<nat>, n: nat)
    requires s <= Below(n)
    ensures |s| == n <==> s == Below(n)
  {
    assert Below(n) == (Below(n) - s) + s;
    assert s == Below(n) <==> |Below(n) - s| == 0;
  }

  /** Two well-formed buffers that denote the same set are the same buffer. */
  lemma SetDeterminesBuffer(len: nat, a: seq<bv8>, b: seq<bv8>)
    requires WellFormed(len, a) && WellFormed(len, b)
    requires Members(Unpack(a)) == Members(Unpack(b))
    ensures a == b
  {
    var x, y := Unpack(a), Unpack(b);
    assert forall i: nat | i < |x| :: x[i] <==> i in Members(x);
    assert forall i: nat | i < |y| :: y[i] <==> i in Members(y);
    BufferDetermined(a, b);
  }

  lemma MembersUpdate(bits: seq<bool>, i: nat)
    requires i < |bits|
    ensures Members(bits[i := true]) == Members(bits) + {i}
    ensures Members(bits[i := false]) == Members(bits) - {i}
  {
  }

  function CountTrue(bits: seq<bool>): nat {
    if bits == [] then 0
    else CountTrue(bits[..|bits| - 1]) + if bits[|bits| - 1] then 1 else 0
  }

  lemma {:induction false} CountTrueAppend(a: seq<bool>, b: seq<bool>)
    ensures CountTrue(a + b) == CountTrue(a) + CountTrue(b)
  {
    if b == [] {
      assert a + b == a;
    } else {
      CountTrueAppend(a, b[..|b| - 1]);
      assert (a + b)[..|a + b| - 1] == a + b[..|b| - 1];
    }
  }

  /** Population count is the cardinality of the set. */
  lemma {:induction false} CountTrueIsCardinality(bits: seq<bool>)
    ensures CountTrue(bits) == |Members(bits)|
  {
    if bits != [] {
      var n := |bits| - 1;
      CountTrueIsCardinality(bits[..n]);
      assert Members(bits) == Members(bits[..n]) + if bits[n] then {n} else {};
    }
  }

  ghost predicate StrictlyIncreasing(s: seq<nat>) {
    forall i, j | 0 <= i < j < |s| :: s[i] < s[j]
  }

  // ----- the bitmap object -----

  function Resize(n: nat, raw: seq<bv8>): (bytes: seq<bv8>)
    ensures |bytes| == n
  {
    if |raw| >= n then raw[..n] else raw + seq(n - |raw|, _ => 0 as bv8)
  }

  lemma ResizeBits(n: nat, raw: seq<bv8>)
    ensures Members(Unpack(Resize(n, raw))) == set i <- Members(Unpack(raw)) | i < 8 * n
  {
    hide ToBits, Concat8;
    if |raw| >= n {
      Concat8Append(raw[..n], raw[n..], ToBits);
      assert raw == raw[..n] + raw[n..];
    } else {
      Concat8Append(raw, seq(n - |raw|, _ => 0 as bv8), ToBits);
      UnpackZeroes(n - |raw|);
    }
  }

  lemma LastByteMasked(len: nat, bytes: seq<bv8>, b: bv8)
    requires |bytes| == ByteCount(len) && len % 8 != 0
    requires forall j: nat | j < 8 :: ToBits(b)[j] <==> j < len % 8 && ToBits(bytes[|bytes| - 1])[j]
    ensures Members(Unpack(bytes[|bytes| - 1 := b])) == set i <- Members(Unpack(bytes)) | i < len
  {
  }

  class Bitmap {
    var len: nat
    var bytes: seq<bv8>

    ghost predicate Valid()
      reads this
    {
      WellFormed(len, bytes)
    }

    /** The chunk indices marked present. */
    ghost function Present(): (s: set<nat>)
      requires Valid()
      reads this
      ensures s <= Below(len)
    {
      Members(Unpack(bytes))
    }

    constructor (n: nat)
      ensures Valid() && len == n
      ensures Present() == {}
    {
      len := n;
      bytes := seq(ByteCount(n), _ => 0 as bv8);
      new;
      UnpackZeroes(ByteCount(n));
    }

    /**
     Any bytes at all give a valid bitmap; bits at or beyond `n` are dropped and missing bytes
     read as zero. Bytes that came from a bitmap of the same length come back unchanged.
     */
    constructor FromBytes(n: nat, raw: seq<bv8>)
      ensures Valid() && len == n
      ensures Present() == set i <- Members(Unpack(raw)) | i < n
      ensures WellFormed(n, raw) ==> bytes == raw
    {
      len := n;
      bytes := Resize(ByteCount(n), raw);
      new;
      ResizeBits(ByteCount(n), raw);
      ClearPadding();
      assert forall i: nat | i < |Unpack(bytes)| :: Unpack(bytes)[i] <==> i in Members(Unpack(bytes));
      if WellFormed(n, raw) {
        assert Members(Unpack(raw)) == Members(Unpack(bytes));
        SetDeterminesBuffer(n, bytes, raw);
      }
    }

    predicate Has(i: nat)
      requires Valid()
      reads this
      ensures Has(i) <==> i in Present()
    {
      if i >= len then
        false
      else
        Concat8At(bytes, ToBits, i);
        ShiftReadsBit(bytes[i / 8], i % 8);
        (bytes[i / 8] >> (i % 8)) & 1 == 1
    }

    method Set(i: nat)
      requires Valid()
      modifies this
      ensures Valid() && len == old(len)
      ensures Present() == old(Present()) + (if i < len then {i} else {})
    {
      if i >= len {
        return;
      }
      var byte, bit := i / 8, i % 8;
      var b := SetBit(bytes[byte], bit);
      UnpackSetBit(bytes, i, b, true);
      MembersUpdate(Unpack(bytes), i);
      bytes := bytes[byte := b];
    }

    method Clear(i: nat)
      requires Valid()
      modifies this
      ensures Valid() && len == old(len)
      ensures Present() == old(Present()) - {i}
    {
      if i >= len {
        return;
      }
      var byte, bit := i / 8, i % 8;
      var b := ClearBit(bytes[byte], bit);
      UnpackSetBit(bytes, i, b, false);
      MembersUpdate(Unpack(bytes), i);
      bytes := bytes[byte := b];
    }

    method ClearPadding()
      requires |bytes| == ByteCount(len)
      modifies this
      ensures len == old(len) && |bytes| == old(|bytes|)
      ensures Members(Unpack(bytes)) == set i <- old(Members(Unpack(bytes))) | i < len
    {
      var used := len % 8;
      if used != 0 {
        var last := |bytes| - 1;
        var b := KeepLowBits(bytes[last], used);
        LastByteMasked(len, bytes, b);
        bytes := bytes[last := b];
      }
    }

    method CountSet() returns (n: nat)
      requires Valid()
      ensures n == |Present()|
    {
      n := 0;
      for k := 0 to |bytes|
        invariant n == CountTrue(Unpack(bytes[..k]))
      {
        assert bytes[..k + 1][..k] == bytes[..k];
        CountTrueAppend(Unpack(bytes[..k]), ToBits(bytes[k]));
        n := n + CountTrue(ToBits(bytes[k]));
      }
      assert bytes[..|bytes|] == bytes;
      CountTrueIsCardinality(Unpack(bytes));
    }

    method IsComplete() returns (complete: bool)
      requires Valid()
      ensures complete <==> Present() == Below(len)
    {
      var n := CountSet();
      FullSubset(Present(), len);
      complete := n == len;
    }

    /** The indices still to fetch, in increasing order. */
    method Missing() returns (out: seq<nat>)
      requires Valid()
      ensures StrictlyIncreasing(out)
      ensures forall i: nat :: i in out <==> i < len && i !in Present()
    {
      out := [];
      for i := 0 to len
        invariant StrictlyIncreasing(out)
        invariant forall j: nat :: j in out <==> j < i && j !in Present()
      {
        if !Has(i) {
          assert forall k | 0 <= k < |out| :: out[k] in out;
          out := out + [i];
        }
      }
    }
  }

  /** `is_complete` and "nothing is missing" are the same test. */
  lemma CompleteIffNothingMissing(len: nat, present: set<nat>, missing: seq<nat>)
    requires present <= Below(len)
    requires forall i: nat :: i in missing <==> i < len && i !in present
    ensures |present| == len <==> missing == []
  {
    FullSubset(present, len);
    if missing != [] {
      assert missing[0] in missing;
    }
  }
}
