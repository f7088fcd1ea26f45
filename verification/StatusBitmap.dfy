/** The status-list bitmap: one bit per credential index, a cached population count, and
    random probing with a wrap-around scan. Refines a finite set of taken indices. */
module StatusBitmap {
  import opened Outcomes

  const NO_INDEXES_LEFT := "No indexes left"
  const INVALID_INDEX := "Invalid index"
  const MAX_RANDOM_ATTEMPTS := 32

  function Mask(bit: nat): bv8
    requires bit < 8
  {
    (1 as bv8) << bit
  }

  predicate BitOf(b: bv8, bit: nat)
    requires bit < 8
  {
    b & Mask(bit) != 0
  }

  /** The number of 1 digits in a byte's binary numeral. */
  function Ones(b: bv8): nat {
    if b == 0 then 0 else (if b & 1 == 1 then 1 else 0) + Ones(b >> 1)
  }

  function Bytes(capacity: nat): nat {
    (capacity + 7) / 8
  }

  predicate Bit(s: seq<bv8>, index: nat)
    requires index < 8 * |s|
  {
    BitOf(s[index / 8], index % 8)
  }

  lemma MaskValues()
    ensures Mask(0) == 1 && Mask(1) == 2 && Mask(2) == 4 && Mask(3) == 8
    ensures Mask(4) == 16 && Mask(5) == 32 && Mask(6) == 64 && Mask(7) == 128
  {
  }

  lemma SetBit(b: bv8, bit: nat, other: nat)
    requires bit < 8 && other < 8
    ensures BitOf(b | Mask(bit), other) <==> other == bit || BitOf(b, other)
  {
    MaskValues();
  }

  lemma ClearBit(b: bv8, bit: nat, other: nat)
    requires bit < 8 && other < 8
    ensures BitOf(b & !Mask(bit), other) <==> other != bit && BitOf(b, other)
  {
    MaskValues();
  }

  lemma FullByte(b: bv8, bit: nat)
    requires bit < 8
    ensures b == 255 ==> BitOf(b, bit)
  {
    MaskValues();
  }

  function One(b: bool): nat {
    if b then 1 else 0
  }

  function OnesBelow(b: bv8, n: nat): nat
    requires n <= 8
  {
    if n == 0 then 0 else OnesBelow(b, n - 1) + One(BitOf(b, n - 1))
  }

  /** The lowest digit of the numeral shifted by k is bit k. */
  lemma ShiftDigit(b: bv8, k: nat)
    requires k < 8
    ensures (b >> k) & 1 == 1 <==> BitOf(b, k)
    ensures (b >> k) >> 1 == b >> (k + 1)
  {
    MaskValues();
  }

  lemma {:induction false} ShiftedOnes(b: bv8, k: nat)
    requires k <= 8
    ensures Ones(b) == OnesBelow(b, k) + Ones(b >> k)
  {
    hide BitOf, Ones;
    if k == 0 {
      assert b >> 0 == b;
    } else {
      ShiftedOnes(b, k - 1);
      ShiftDigit(b, k - 1);
      OnesStep(b >> (k - 1));
    }
  }

  lemma OnesStep(c: bv8)
    ensures Ones(c) == One(c & 1 == 1) + Ones(c >> 1)
  {
    if c == 0 {
      assert c >> 1 == 0 && c & 1 == 0;
    }
  }

  /** The 1 digits of the numeral are the bits the allocator tests. */
  lemma OnesAreBits(b: bv8)
    ensures Ones(b) == OnesBelow(b, 8)
  {
    hide OnesBelow;
    ShiftedOnes(b, 8);
    assert b >> 8 == 0;
  }

  /** The constructor's count: the 1 digits of all bytes. */
  function CountBits(s: seq<bv8>): nat {
    if s == [] then 0 else CountBits(s[..|s| - 1]) + Ones(s[|s| - 1])
  }

  ghost function TakenBelow(s: seq<bv8>, n: nat): set<nat>
    requires n <= 8 * |s|
  {
    set i | 0 <= i < n && Bit(s, i)
  }

  lemma BitAt(s: seq<bv8>, byte: nat, bit: nat)
    requires byte < |s| && bit < 8
    ensures Bit(s, 8 * byte + bit) == BitOf(s[byte], bit)
  {
    assert (8 * byte + bit) / 8 == byte && (8 * byte + bit) % 8 == bit;
  }

  lemma NextTaken(s: seq<bv8>, n: nat)
    requires n < 8 * |s|
    ensures TakenBelow(s, n + 1) == TakenBelow(s, n) + if Bit(s, n) then {n} else {}
    ensures |TakenBelow(s, n + 1)| == |TakenBelow(s, n)| + One(Bit(s, n))
  {
    hide Bit;
    assert TakenBelow(s, n + 1) == TakenBelow(s, n) + if Bit(s, n) then {n} else {};
  }

  lemma SamePrefix(s: seq<bv8>)
    requires s != []
    ensures TakenBelow(s, 8 * (|s| - 1)) == TakenBelow(s[..|s| - 1], 8 * (|s| - 1))
  {
  }

  lemma {:induction false} LastByte(s: seq<bv8>, k: nat)
    requires s != [] && k <= 8
    ensures |TakenBelow(s, 8 * (|s| - 1) + k)| == |TakenBelow(s[..|s| - 1], 8 * (|s| - 1))| + OnesBelow(s[|s| - 1], k)
  {
    hide TakenBelow, BitOf, Bit;
    if k == 0 {
      SamePrefix(s);
    } else {
      LastByte(s, k - 1);
      NextTaken(s, 8 * (|s| - 1) + k - 1);
      BitAt(s, |s| - 1, k - 1);
    }
  }

  /** The constructor's count is the number of set bits. */
  lemma {:induction false} CountIsTaken(s: seq<bv8>)
    ensures CountBits(s) == |TakenBelow(s, 8 * |s|)|
  {
    if s != [] {
      CountIsTaken(s[..|s| - 1]);
      LastByte(s, 8);
      OnesAreBits(s[|s| - 1]);
    }
  }

  /** A stored bitmap of the right size with no bit set beyond the capacity. */
  ghost predicate WellFormed(s: seq<bv8>, capacity: nat) {
    |s| == Bytes(capacity) && forall i :: capacity <= i < 8 * |s| ==> !Bit(s, i)
  }

  lemma WellFormedCount(s: seq<bv8>, capacity: nat)
    requires WellFormed(s, capacity)
    ensures CountBits(s) == |TakenBelow(s, capacity)| <= capacity
    ensures |TakenBelow(s, capacity)| == capacity <==> forall i :: 0 <= i < capacity ==> Bit(s, i)
  {
    CountIsTaken(s);
    assert TakenBelow(s, 8 * |s|) == TakenBelow(s, capacity);
    TakenSize(s, capacity);
  }

  lemma {:induction false} TakenSize(s: seq<bv8>, n: nat)
    requires n <= 8 * |s|
    ensures |TakenBelow(s, n)| <= n
    ensures |TakenBelow(s, n)| == n <==> forall i :: 0 <= i < n ==> Bit(s, i)
  {
    if n > 0 {
      hide Bit;
      TakenSize(s, n - 1);
      NextTaken(s, n - 1);
    }
  }

  function WithBit(s: seq<bv8>, index: nat): seq<bv8>
    requires index < 8 * |s|
  {
    s[index / 8 := s[index / 8] | Mask(index % 8)]
  }

  function WithoutBit(s: seq<bv8>, index: nat): seq<bv8>
    requires index < 8 * |s|
  {
    s[index / 8 := s[index / 8] & !Mask(index % 8)]
  }

  /** Setting and clearing touch exactly one index. */
  lemma BitUpdates(s: seq<bv8>, index: nat, other: nat)
    requires index < 8 * |s| && other < 8 * |s|
    ensures Bit(WithBit(s, index), other) <==> other == index || Bit(s, other)
    ensures Bit(WithoutBit(s, index), other) <==> other != index && Bit(s, other)
  {
    hide Mask, BitOf;
    if other / 8 == index / 8 {
      SetBit(s[index / 8], index % 8, other % 8);
      ClearBit(s[index / 8], index % 8, other % 8);
    }
  }

  lemma UpdatesTaken(s: seq<bv8>, index: nat, capacity: nat)
    requires WellFormed(s, capacity) && index < capacity
    ensures WellFormed(WithBit(s, index), capacity) && WellFormed(WithoutBit(s, index), capacity)
    ensures TakenBelow(WithBit(s, index), capacity) == TakenBelow(s, capacity) + {index}
    ensures TakenBelow(WithoutBit(s, index), capacity) == TakenBelow(s, capacity) - {index}
  {
    hide WithBit, WithoutBit, Bit;
    assert |WithBit(s, index)| == |WithoutBit(s, index)| == |s| by { UpdateLength(s, index); }
    forall other | 0 <= other < 8 * |s|
      ensures Bit(WithBit(s, index), other) <==> other == index || Bit(s, other)
      ensures Bit(WithoutBit(s, index), other) <==> other != index && Bit(s, other)
    {
      BitUpdates(s, index, other);
    }
  }

  lemma UpdateLength(s: seq<bv8>, index: nat)
    requires index < 8 * |s|
    ensures |WithBit(s, index)| == |WithoutBit(s, index)| == |s|
  {
  }

  /** No index of this byte is left. */
  ghost predicate ByteUsedUp(s: seq<bv8>, byte: nat, capacity: nat)
    requires byte < |s|
  {
    forall bit :: 0 <= bit < 8 && 8 * byte + bit < capacity ==> BitOf(s[byte], bit)
  }

  /** The first n bytes from a start, wrapping around, are used up. */
  ghost predicate Scanned(s: seq<bv8>, start: nat, n: nat, capacity: nat)
    requires start < |s| && n <= |s|
  {
    forall j :: 0 <= j < n ==> ByteUsedUp(s, Wrap(start, j, |s|), capacity)
  }

  function Wrap(start: nat, j: nat, length: nat): (byte: nat)
    requires start < length
    ensures byte < length
  {
    (start + j) % length
  }

  lemma Residue(sum: nat, length: nat, rest: nat, times: nat)
    requires rest < length && sum == rest + times * length && times <= 1
    ensures sum % length == rest
  {
    if times == 1 {
      assert sum / length == 1;
    }
  }

  /** A full round from any start meets every byte. */
  lemma WrapsAround(start: nat, length: nat, byte: nat) returns (j: nat)
    requires start < length && byte < length
    ensures j < length && Wrap(start, j, length) == byte
  {
    if byte >= start {
      j := byte - start;
      Residue(start + j, length, byte, 0);
    } else {
      j := byte + length - start;
      Residue(start + j, length, byte, 1);
    }
  }

  /** If a full round found nothing, every index is taken. */
  lemma NothingLeft(s: seq<bv8>, capacity: nat, start: nat)
    requires WellFormed(s, capacity) && start < |s| && Scanned(s, start, |s|, capacity)
    ensures |TakenBelow(s, capacity)| == capacity
  {
    hide Bit, BitOf, Wrap, WellFormed;
    assert |s| == Bytes(capacity) by { WellFormedLength(s, capacity); }
    forall i | 0 <= i < capacity
      ensures Bit(s, i)
    {
      var j := WrapsAround(start, |s|, i / 8);
      assert ByteUsedUp(s, i / 8, capacity);
      BitAt(s, i / 8, i % 8);
    }
    WellFormedCount(s, capacity);
  }

  lemma WellFormedLength(s: seq<bv8>, capacity: nat)
    requires WellFormed(s, capacity)
    ensures |s| == Bytes(capacity)
  {
  }

  lemma FullByteUsedUp(s: seq<bv8>, byte: nat, capacity: nat)
    requires byte < |s| && s[byte] == 255
    ensures ByteUsedUp(s, byte, capacity)
  {
    hide BitOf;
    forall bit | 0 <= bit < 8
      ensures BitOf(s[byte], bit)
    {
      FullByte(s[byte], bit);
    }
  }

  class RandomBitmapIndexAllocator {
    const capacity: nat
    const bitmap: array<bv8>
    var allocatedCount: nat

    ghost predicate Valid()
      reads this, bitmap
    {
      WellFormed(bitmap[..], capacity) && allocatedCount == |Taken()|
    }

    ghost function Taken(): set<nat>
      requires bitmap.Length == Bytes(capacity)
      reads this, bitmap
    {
      TakenBelow(bitmap[..], capacity)
    }

    constructor (capacity: nat, existing: Option<seq<bv8>>)
      ensures this.capacity == capacity && fresh(bitmap)
      ensures existing.Some? ==> bitmap[..] == existing.value
      ensures existing.None? ==> Valid() && Taken() == {} && capacity <= 8 * bitmap.Length < capacity + 8
      ensures existing.Some? && WellFormed(existing.value, capacity) ==> Valid()
      ensures allocatedCount == CountBits(bitmap[..])
    {
      this.capacity := capacity;
      var bytes := if existing.Some? then existing.value else seq(Bytes(capacity), _ => 0);
      var copy := new bv8[|bytes|](i requires 0 <= i < |bytes| => bytes[i]);
      bitmap := copy;
      var count := 0;
      var i := 0;
      while i < |bytes|
        invariant 0 <= i <= |bytes| && count == CountBits(bytes[..i])
      {
        assert bytes[..i + 1][..i] == bytes[..i];
        if bytes[i] != 0 {
          count := count + Ones(bytes[i]);
        }
        i := i + 1;
      }
      allocatedCount := count;
      new;
      assert bytes[..|bytes|] == bytes && bitmap[..] == bytes;
      if existing.None? {
        forall k | 0 <= k < 8 * |bytes|
          ensures !Bit(bytes, k)
        {
          ZeroByte(k % 8);
        }
      }
      if WellFormed(bytes, capacity) {
        WellFormedCount(bytes, capacity);
      }
    }

    method IsSet(index: nat) returns (b: bool)
      requires index < 8 * bitmap.Length
      ensures b <==> Bit(bitmap[..], index)
    {
      b := bitmap[index / 8] & Mask(index % 8) != 0;
    }

    method Set(index: nat)
      requires index < 8 * bitmap.Length
      modifies bitmap
      ensures bitmap[..] == WithBit(old(bitmap[..]), index)
    {
      bitmap[index / 8] := bitmap[index / 8] | Mask(index % 8);
    }

    method Clear(index: nat)
      requires index < 8 * bitmap.Length
      modifies bitmap
      ensures bitmap[..] == WithoutBit(old(bitmap[..]), index)
    {
      bitmap[index / 8] := bitmap[index / 8] & !Mask(index % 8);
    }

    /** Takes a clear index: the common end of the random and the scanning phase. */
    method Take(index: nat)
      requires Valid() && index < capacity && !Bit(bitmap[..], index)
      modifies this, bitmap
      ensures Valid() && allocatedCount == old(allocatedCount) + 1
      ensures bitmap[..] == WithBit(old(bitmap[..]), index)
      ensures index !in old(Taken()) && Taken() == old(Taken()) + {index}
    {
      UpdatesTaken(bitmap[..], index, capacity);
      Set(index);
      allocatedCount := allocatedCount + 1;
    }

    method Allocate() returns (r: Result<nat, string>)
      requires Valid()
      modifies this, bitmap
      ensures Valid()
      ensures r.Err? <==> old(|Taken()|) == capacity
      ensures r.Err? ==> r.error == NO_INDEXES_LEFT && bitmap[..] == old(bitmap[..]) && allocatedCount == old(allocatedCount)
      ensures r.Ok? ==> r.value < capacity && r.value !in old(Taken()) && Taken() == old(Taken()) + {r.value}
      ensures r.Ok? ==> bitmap[..] == WithBit(old(bitmap[..]), r.value)
    {
      if allocatedCount == capacity {
        return Err(NO_INDEXES_LEFT);
      }
      WellFormedCount(bitmap[..], capacity);
      var i := 0;
      while i < MAX_RANDOM_ATTEMPTS
        invariant Valid() && bitmap[..] == old(bitmap[..]) && allocatedCount == old(allocatedCount)
      {
        var idx: nat :| idx < capacity;
        var taken := IsSet(idx);
        if !taken {
          Take(idx);
          return Ok(idx);
        }
        i := i + 1;
      }
      r := Scan();
    }

    /** The eight indices of one byte, lowest first. */
    method ScanByte(byteIdx: nat) returns (found: Option<nat>)
      requires Valid() && byteIdx < bitmap.Length
      modifies this, bitmap
      ensures Valid()
      ensures found.None? ==> bitmap[..] == old(bitmap[..]) && allocatedCount == old(allocatedCount)
                              && ByteUsedUp(bitmap[..], byteIdx, capacity)
      ensures found.Some? ==> found.value < capacity && found.value !in old(Taken())
                              && Taken() == old(Taken()) + {found.value}
                              && bitmap[..] == WithBit(old(bitmap[..]), found.value)
    {
      if bitmap[byteIdx] == 255 {
        FullByteUsedUp(bitmap[..], byteIdx, capacity);
        return None;
      }
      var bit := 0;
      while bit < 8
        invariant 0 <= bit <= 8
        invariant Valid() && bitmap[..] == old(bitmap[..]) && allocatedCount == old(allocatedCount)
        invariant forall k :: 0 <= k < bit && 8 * byteIdx + k < capacity ==> BitOf(bitmap[..][byteIdx], k)
      {
        var idx := 8 * byteIdx + bit;
        if idx < capacity {
          BitAt(bitmap[..], byteIdx, bit);
          var taken := IsSet(idx);
          if !taken {
            Take(idx);
            return Some(idx);
          }
        }
        bit := bit + 1;
      }
      found := None;
    }

    /** The fallback: every byte once, starting anywhere. */
    method Scan() returns (r: Result<nat, string>)
      requires Valid() && allocatedCount < capacity
      modifies this, bitmap
      ensures Valid() && r.Ok?
      ensures r.value < capacity && r.value !in old(Taken()) && Taken() == old(Taken()) + {r.value}
      ensures bitmap[..] == WithBit(old(bitmap[..]), r.value)
    {
      hide BitOf, ByteUsedUp, WellFormed, WithBit, Wrap;
      assert bitmap.Length == Bytes(capacity) by { WellFormedLength(bitmap[..], capacity); }
      var startByte: nat :| startByte < bitmap.Length;
      var i := 0;
      while i < bitmap.Length
        invariant 0 <= i <= bitmap.Length
        invariant Valid() && bitmap[..] == old(bitmap[..]) && allocatedCount == old(allocatedCount)
        invariant Scanned(bitmap[..], startByte, i, capacity)
      {
        var found := ScanByte(Wrap(startByte, i, bitmap.Length));
        if found.Some? {
          return Ok(found.value);
        }
        i := i + 1;
      }
      NothingLeft(bitmap[..], capacity, startByte);
      assert false;
      r := Err(NO_INDEXES_LEFT);
    }

    method IsIndexAllocated(index: int) returns (r: Result<bool, string>)
      requires Valid()
      ensures r.Err? <==> index < 0 || index >= capacity
      ensures r.Ok? ==> r.value == (index in Taken())
    {
      if index < 0 || index >= capacity {
        return Err(INVALID_INDEX);
      }
      var b := IsSet(index);
      r := Ok(b);
    }

    method Release(index: int) returns (r: Result<bool, string>)
      requires Valid()
      modifies this, bitmap
      ensures Valid()
      ensures r.Err? <==> index < 0 || index >= capacity
      ensures r.Err? ==> bitmap[..] == old(bitmap[..]) && allocatedCount == old(allocatedCount)
      ensures r.Ok? ==> r.value == (index in old(Taken())) && Taken() == old(Taken()) - {index}
      ensures r.Ok? ==> bitmap[..] == if r.value then WithoutBit(old(bitmap[..]), index) else old(bitmap[..])
    {
      if index < 0 || index >= capacity {
        return Err(INVALID_INDEX);
      }
      var taken := IsSet(index);
      if taken {
        UpdatesTaken(bitmap[..], index, capacity);
        Clear(index);
        assert index in old(Taken());
        allocatedCount := allocatedCount - 1;
      }
      r := Ok(taken);
    }

    method Export() returns (bytes: seq<bv8>)
      ensures bytes == bitmap[..]
    {
      bytes := bitmap[..];
    }
  }

  lemma ZeroByte(bit: nat)
    requires bit < 8
    ensures !BitOf(0, bit)
  {
  }

  /** Storing and reloading a bitmap loses nothing: the recount finds the same indices. */
  lemma ReloadIsExact(s: seq<bv8>, capacity: nat)
    requires WellFormed(s, capacity)
    ensures CountBits(s) == |TakenBelow(s, capacity)|
    ensures forall index :: 0 <= index < capacity && index !in TakenBelow(s, capacity) ==>
              CountBits(WithBit(s, index)) == CountBits(s) + 1
              && WithoutBit(WithBit(s, index), index) == s
  {
    WellFormedCount(s, capacity);
    forall index | 0 <= index < capacity && index !in TakenBelow(s, capacity)
      ensures CountBits(WithBit(s, index)) == CountBits(s) + 1
      ensures WithoutBit(WithBit(s, index), index) == s
    {
      UpdatesTaken(s, index, capacity);
      WellFormedCount(WithBit(s, index), capacity);
      assert !Bit(s, index);
      SetThenClear(s[index / 8], index % 8);
    }
  }

  lemma SetThenClear(b: bv8, bit: nat)
    requires bit < 8 && !BitOf(b, bit)
    ensures (b | Mask(bit)) & !Mask(bit) == b
  {
    MaskValues();
  }
}
