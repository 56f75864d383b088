/**
 Packet-header bits.  `Avail` is the bit string a reader still has in front of it
 once the bit after every 0xFF is dropped; `After` is the reader `n` bits on.
 `Stuff` is the writer of section B.10.1 of ISO/IEC 15444-1, and the main result
 is that reading undoes writing and the flush lands on the byte after the header.
 */
module BitStuffing {
  import opened Bytes
  import opened ChainReader

  // ------------------------------------------------------- bits as a sequence

  /** Bits past the end of the chain read as 0. */
  function At(s: seq<bool>, i: nat): bool {
    i < |s| && s[i]
  }

  /** The low `k` bits of a byte, most significant first. */
  function LowBits(b: nat, k: nat): (r: seq<bool>)
    ensures |r| == k
  {
    if k == 0 then [] else [Bit(b, k - 1)] + LowBits(b, k - 1)
  }

  function BytesToBits(data: seq<byte>, pos: nat, afterFF: bool): seq<bool>
    decreases |data| - pos
  {
    if pos >= |data| then []
    else LowBits(data[pos], if afterFF then 7 else 8) + BytesToBits(data, pos + 1, data[pos] == 0xFF)
  }

  function Avail(data: seq<byte>, rd: Reader): seq<bool> {
    LowBits(rd.tmp, rd.bits) + BytesToBits(data, rd.pos, rd.tmp == 0xFF)
  }

  /** The reader after `n` single-bit reads. */
  function After(data: seq<byte>, rd: Reader, n: nat): Reader {
    if n == 0 then rd else ReadBit(data, After(data, rd, n - 1)).1
  }

  /** `n` bits from `i` on, as a number. */
  function BitsVal(s: seq<bool>, i: nat, n: nat): nat {
    if n == 0 then 0 else 2 * BitsVal(s, i, n - 1) + ToNat(At(s, i + n - 1))
  }

  lemma {:induction false} ZeroBit(k: nat)
    ensures !Bit(0, k)
  {
    if k > 0 { ZeroBit(k - 1); }
  }

  lemma ZeroLowBits(k: nat, j: nat)
    ensures !At(LowBits(0, k), j)
  {
    if k > 0 {
      ZeroBit(k - 1);
      if j > 0 { ZeroLowBits(k - 1, j - 1); }
    }
  }

  /** One read takes the front bit and leaves the rest. */
  lemma ReadBitIsFront(data: seq<byte>, rd: Reader, j: nat)
    ensures ReadBit(data, rd).0 == At(Avail(data, rd), 0)
    ensures At(Avail(data, ReadBit(data, rd).1), j) == At(Avail(data, rd), j + 1)
  {
    hide Bit;
    var r := Refill(data, rd);
    if rd.bits == 0 && rd.pos >= |data| {
      ZeroLowBits(r.bits, 0);
      ZeroLowBits(r.bits - 1, j);
      assert Avail(data, rd) == [];
    } else {
      assert LowBits(rd.tmp, 0) == [];
      assert Avail(data, rd) == Avail(data, r);
      var next := r.(bits := r.bits - 1);
      assert Avail(data, r) == [Bit(r.tmp, r.bits - 1)] + Avail(data, next);
    }
  }

  /** The bit view of the reader: `n` reads on, the next bit is bit `n` of `Avail`. */
  lemma {:induction false} AfterIsAt(data: seq<byte>, rd: Reader, n: nat, j: nat)
    ensures At(Avail(data, After(data, rd, n)), j) == At(Avail(data, rd), n + j)
  {
    if n > 0 {
      ReadBitIsFront(data, After(data, rd, n - 1), j);
      AfterIsAt(data, rd, n - 1, j + 1);
    }
  }

  lemma {:induction false} NextBit(data: seq<byte>, rd: Reader, n: nat)
    ensures ReadBit(data, After(data, rd, n)) == (At(Avail(data, rd), n), After(data, rd, n + 1))
  {
    ReadBitIsFront(data, After(data, rd, n), 0);
    AfterIsAt(data, rd, n, 0);
  }

  lemma {:induction false} NextBits(data: seq<byte>, rd: Reader, i: nat, n: nat)
    ensures ReadBits(data, After(data, rd, i), n) == (BitsVal(Avail(data, rd), i, n), After(data, rd, i + n))
  {
    if n > 0 {
      NextBits(data, rd, i, n - 1);
      NextBit(data, rd, i + n - 1);
    }
  }

  lemma {:induction false} AfterAfter(data: seq<byte>, rd: Reader, m: nat, n: nat)
    ensures After(data, After(data, rd, m), n) == After(data, rd, m + n)
  {
    if n > 0 { AfterAfter(data, rd, m, n - 1); }
  }

  lemma {:induction false} AfterMonotone(data: seq<byte>, rd: Reader, m: nat, n: nat)
    requires m <= n
    ensures After(data, rd, m).pos <= After(data, rd, n).pos
    decreases n
  {
    if m < n { AfterMonotone(data, rd, m, n - 1); }
  }

  /** The two agree from byte `from` up to byte `to`. */
  predicate SameBytes(a: seq<byte>, b: seq<byte>, from: nat, to: nat) {
    to <= |a| && to <= |b| && forall j :: from <= j < to ==> a[j] == b[j]
  }

  /** Bit reads that end where two byte sequences still agree, short of the end of the first, are the same on both. */
  lemma {:induction false} AfterAgrees(a: seq<byte>, b: seq<byte>, m: nat, rd: Reader, n: nat)
    requires SameBytes(a, b, rd.pos, m) && After(a, rd, n).pos <= m && After(a, rd, n).pos < |a|
    ensures After(b, rd, n) == After(a, rd, n)
    ensures forall j :: 0 <= j < n ==> At(Avail(b, rd), j) == At(Avail(a, rd), j)
  {
    if n > 0 {
      AfterMonotone(a, rd, 0, n - 1);
      AfterMonotone(a, rd, n - 1, n);
      AfterAgrees(a, b, m, rd, n - 1);
      NextBit(a, rd, n - 1);
      NextBit(b, rd, n - 1);
    }
  }

  // ------------------------------------------------------------------ writer

  /** The first `cap` bits of `bits`, padded with zeros, as one byte. */
  function Pack(bits: seq<bool>, cap: nat): (v: nat)
    ensures v < Pow2(cap)
  {
    if cap == 0 then 0
    else if bits == [] then 0
    else (if bits[0] then Pow2(cap - 1) else 0) + Pack(bits[1..], cap - 1)
  }

  lemma PowersOfTwo()
    ensures Pow2(7) == 128 && Pow2(8) == 256
  {
    assert Pow2(4) == 16;
  }

  /**
   Section B.10.1 of ISO/IEC 15444-1: eight bits to a byte, seven after an 0xFF
   (whose top bit is the stuffed 0), and a final 0xFF is followed by a stuffed byte.
   */
  function Stuff(bits: seq<bool>, afterFF: bool): (r: seq<byte>)
    ensures bits != [] ==> r != []
    decreases |bits|
  {
    if bits == [] then (if afterFF then [0] else [])
    else
      var cap := if afterFF then 7 else 8;
      PowersOfTwo();
      var b := Pack(bits, cap);
      [b] + Stuff(if |bits| <= cap then [] else bits[cap..], b == 0xFF)
  }

  lemma {:induction false} TopBit(v: nat, k: nat)
    requires v < Pow2(k + 1)
    ensures Bit(v, k) <==> v >= Pow2(k)
  {
    if k > 0 { TopBit(v / 2, k - 1); }
  }

  lemma {:induction false} DropHighBit(v: nat, k: nat, j: nat)
    requires j < k
    ensures Bit(v + Pow2(k), j) == Bit(v, j)
  {
    if j > 0 {
      assert (v + Pow2(k)) / 2 == v / 2 + Pow2(k - 1);
      DropHighBit(v / 2, k - 1, j - 1);
    }
  }

  lemma {:induction false} DropHighLowBits(v: nat, k: nat, n: nat)
    requires n <= k
    ensures LowBits(v + Pow2(k), n) == LowBits(v, n)
  {
    if n > 0 {
      DropHighBit(v, k, n - 1);
      DropHighLowBits(v, k, n - 1);
    }
  }

  /** Reading a packed byte gives the packed bits back. */
  lemma {:induction false} UnpackPacked(bits: seq<bool>, cap: nat, j: nat)
    requires j < cap
    ensures LowBits(Pack(bits, cap), cap)[j] == At(bits, j)
  {
    var v := Pack(bits, cap);
    if bits == [] {
      ZeroLowBits(cap, j);
    } else {
      var rest := Pack(bits[1..], cap - 1);
      TopBit(v, cap - 1);
      if bits[0] { DropHighLowBits(rest, cap - 1, cap - 1); }
      assert LowBits(v, cap - 1) == LowBits(rest, cap - 1);
      if j > 0 { UnpackPacked(bits[1..], cap - 1, j - 1); }
    }
  }

  predicate HoldsAt(data: seq<byte>, pos: nat, w: seq<byte>) {
    pos + |w| <= |data| && data[pos..pos + |w|] == w
  }

  lemma HoldsTail(data: seq<byte>, pos: nat, w: seq<byte>)
    requires HoldsAt(data, pos, w) && w != []
    ensures data[pos] == w[0] && HoldsAt(data, pos + 1, w[1..])
  {
    assert data[pos..pos + |w|][0] == w[0];
    assert data[pos + 1..pos + |w|] == data[pos..pos + |w|][1..];
  }

  /** Wherever a stuffed bit string lies in the data, the bits found there are the ones written. */
  lemma {:induction false} StuffedBits(data: seq<byte>, pos: nat, bits: seq<bool>, afterFF: bool, j: nat)
    requires HoldsAt(data, pos, Stuff(bits, afterFF)) && j < |bits|
    ensures At(BytesToBits(data, pos, afterFF), j) == bits[j]
    decreases |bits|
  {
    var cap := if afterFF then 7 else 8;
    var w := Stuff(bits, afterFF);
    var rest := if |bits| <= cap then [] else bits[cap..];
    HoldsTail(data, pos, w);
    assert w[1..] == Stuff(rest, w[0] == 0xFF);
    if j < cap {
      UnpackPacked(bits, cap, j);
    } else {
      StuffedBits(data, pos + 1, rest, w[0] == 0xFF, j - cap);
    }
  }

  /** Within one byte the reader only counts its bits down. */
  lemma {:induction false} AfterInByte(data: seq<byte>, pos: nat, tmp: byte, k: nat)
    requires pos < |data| && 1 <= k <= (if tmp == 0xFF then 7 else 8)
    ensures After(data, Reader(pos, tmp, 0), k)
         == Reader(pos + 1, data[pos], (if tmp == 0xFF then 7 else 8) - k)
  {
    if k > 1 { AfterInByte(data, pos, tmp, k - 1); }
    else { assert After(data, Reader(pos, tmp, 0), 0) == Reader(pos, tmp, 0); }
  }

  /** After the last written bit, the flush is at the end of what was written. */
  lemma {:induction false} FlushEndsStuffed(data: seq<byte>, pos: nat, tmp: byte, bits: seq<bool>)
    requires bits != [] && HoldsAt(data, pos, Stuff(bits, tmp == 0xFF))
    ensures FlushBits(After(data, Reader(pos, tmp, 0), |bits|))
         == Reader(pos + |Stuff(bits, tmp == 0xFF)|, 0, 0)
    decreases |bits|
  {
    var cap := if tmp == 0xFF then 7 else 8;
    var w := Stuff(bits, tmp == 0xFF);
    HoldsTail(data, pos, w);
    if |bits| <= cap {
      AfterInByte(data, pos, tmp, |bits|);
    } else {
      AfterInByte(data, pos, tmp, cap);
      AfterAfter(data, Reader(pos, tmp, 0), cap, |bits| - cap);
      assert w[1..] == Stuff(bits[cap..], w[0] == 0xFF);
      FlushEndsStuffed(data, pos + 1, w[0], bits[cap..]);
    }
  }

  /**
   The round trip: a non-empty bit string written anywhere in the data is read back
   bit for bit by a byte-aligned reader, and flushing then stops right behind it.
   */
  lemma {:induction false} StuffingRoundTrip(before: seq<byte>, bits: seq<bool>, behind: seq<byte>)
    requires bits != []
    ensures var data := before + Stuff(bits, false) + behind;
            var rd := Reader(|before|, 0, 0);
            && (forall j :: 0 <= j < |bits| ==> At(Avail(data, rd), j) == bits[j])
            && (forall i, n :: 0 <= i && 0 <= n && i + n <= |bits| ==>
                  ReadBits(data, After(data, rd, i), n) == (BitsVal(bits, i, n), After(data, rd, i + n)))
            && FlushBits(After(data, rd, |bits|)) == Reader(|before + Stuff(bits, false)|, 0, 0)
  {
    var w := Stuff(bits, false);
    var data := before + w + behind;
    var rd := Reader(|before|, 0, 0);
    assert data[|before|..|before| + |w|] == w;
    assert Avail(data, rd) == BytesToBits(data, |before|, false);
    forall j | 0 <= j < |bits| ensures At(Avail(data, rd), j) == bits[j] {
      StuffedBits(data, |before|, bits, false, j);
    }
    forall i, n | 0 <= i && 0 <= n && i + n <= |bits|
      ensures ReadBits(data, After(data, rd, i), n) == (BitsVal(bits, i, n), After(data, rd, i + n))
    {
      NextBits(data, rd, i, n);
      SameBitsVal(Avail(data, rd), bits, i, n);
    }
    FlushEndsStuffed(data, |before|, 0, bits);
  }

  lemma {:induction false} SameBitsVal(s: seq<bool>, t: seq<bool>, i: nat, n: nat)
    requires forall j :: 0 <= j < i + n ==> At(s, j) == At(t, j)
    ensures BitsVal(s, i, n) == BitsVal(t, i, n)
  {
    if n > 0 { SameBitsVal(s, t, i, n - 1); }
  }
}
