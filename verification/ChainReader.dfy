/**
 The chain reader: a cursor over a growing list of packet chunks, with a bit
 reader on top.  `Reader` and the functions on it are the flat view, a single
 byte sequence with a position; `Codestream` is the reader as it is written,
 and every method of it is proved to do on its chunks what the flat function
 does on their concatenation.
 */
module ChainReader {
  import opened Bytes

  datatype Option<T> = None | Some(value: T)

  /** Position in the flat bytes, the byte the bit reader is in, and how many of its bits are left. */
  datatype Reader = Reader(pos: nat, tmp: byte, bits: nat)

  // ---------------------------------------------------------------- flat view

  function ReadByte(data: seq<byte>, rd: Reader): (byte, Reader) {
    if rd.pos >= |data| then (0, rd) else (data[rd.pos], rd.(pos := rd.pos + 1))
  }

  function ReadWord(data: seq<byte>, rd: Reader): (nat, Reader) {
    var (hi, r1) := ReadByte(data, rd);
    var (lo, r2) := ReadByte(data, r1);
    (256 * hi + lo, r2)
  }

  /** A sixteen-bit number in network order is read back. */
  lemma WordRead(before: seq<byte>, v: nat, behind: seq<byte>, tmp: byte, bits: nat)
    requires v < 65536
    ensures ReadWord(before + [v / 256, v % 256] + behind, Reader(|before|, tmp, bits))
            == (v, Reader(|before| + 2, tmp, bits))
  {
    var data := before + [v / 256, v % 256] + behind;
    assert data[|before|] == v / 256 && data[|before| + 1] == v % 256;
  }

  /** Load the next byte when the current one is used up; seven bits follow an 0xFF. */
  function Refill(data: seq<byte>, rd: Reader): (r: Reader)
    ensures r.bits > 0
  {
    if rd.bits == 0 then
      var (b, r) := ReadByte(data, rd);
      Reader(r.pos, b, if rd.tmp == 0xFF then 7 else 8)
    else rd
  }

  function ReadBit(data: seq<byte>, rd: Reader): (bool, Reader) {
    var r := Refill(data, rd);
    (Bit(r.tmp, r.bits - 1), r.(bits := r.bits - 1))
  }

  /** The next `n` bits, most significant first, as a number. */
  function ReadBits(data: seq<byte>, rd: Reader, n: nat): (nat, Reader) {
    if n == 0 then (0, rd)
    else
      var (v, r) := ReadBits(data, rd, n - 1);
      var (b, r') := ReadBit(data, r);
      (2 * v + ToNat(b), r')
  }

  function FlushBits(rd: Reader): Reader {
    Reader(if rd.tmp == 0xFF then rd.pos + 1 else rd.pos, 0, 0)
  }

  /** `len` contiguous bytes at the cursor; a request past the end is padded with zeros. */
  function Take(data: seq<byte>, rd: Reader, len: nat): (r: (Option<seq<byte>>, Reader))
    ensures r.0.Some? ==> |r.0.value| == len
  {
    if rd.pos >= |data| then (None, rd)
    else
      var n := Min(len, |data| - rd.pos);
      (Some(data[rd.pos..rd.pos + n] + Zeros(len - n)), rd.(pos := rd.pos + n))
  }

  /** Byte by byte, what a take gives: the data as far as it goes, zeros behind; nothing from past its end. */
  lemma {:induction false} TakeShows(data: seq<byte>, rd: Reader, len: nat)
    ensures var (t, r) := Take(data, rd, len);
            && (t.Some? <==> rd.pos < |data|)
            && (t.Some? ==> forall k :: 0 <= k < len ==>
                  t.value[k] == if rd.pos + k < |data| then data[rd.pos + k] else 0)
            && r == rd.(pos := if rd.pos + len <= |data| then rd.pos + len else if t.Some? then |data| else rd.pos)
  {
    if rd.pos < |data| { assert data[rd.pos..][0] == data[rd.pos]; }
  }

  // ------------------------------------------------------------ chunked reader

  class Codestream {
    var chunks: seq<seq<byte>>
    var staging: seq<seq<byte>>
    var curChunk: nat
    var curOffset: nat
    var consumed: nat
    var tmp: byte
    var last: byte
    var bits: nat

    ghost predicate Valid()
      reads this
    {
      && (forall k :: 0 <= k < |chunks| ==> |chunks[k]| > 0)
      && curChunk <= |chunks|
      && consumed == |Flatten(chunks[..curChunk])|
      && (curChunk < |chunks| ==> curOffset < |chunks[curChunk]|)
      && bits <= 7
    }

    /** The bytes of the chain. */
    ghost function Data(): seq<byte>
      reads this
    {
      Flatten(chunks)
    }

    /** The flat reader this cursor stands for. */
    ghost function Rd(): Reader
      reads this
    {
      Reader(consumed + curOffset, tmp, bits)
    }

    constructor ()
      ensures Valid() && chunks == [] && staging == [] && Rd() == Reader(0, 0, 0)
    {
      chunks, staging := [], [];
      curChunk, curOffset, consumed := 0, 0, 0;
      tmp, last, bits := 0, 0, 0;
    }

    /** The cursor is inside the chain exactly when it has not walked past the last chunk. */
    lemma {:induction false} AtCursor()
      requires Valid()
      ensures curChunk < |chunks| <==> Rd().pos < |Data()|
      ensures curChunk < |chunks| ==>
                && Data()[Rd().pos] == chunks[curChunk][curOffset]
                && consumed + |chunks[curChunk]| <= |Data()|
                && Data()[Rd().pos..consumed + |chunks[curChunk]|] == chunks[curChunk][curOffset..]
    {
      hide Flatten;
      if curChunk < |chunks| {
        FlattenPrefix(chunks, curChunk);
      } else {
        assert chunks[..curChunk] == chunks;
      }
    }

    /**
     Appending leaves the cursor where it is in the flat view too.  The cursor still
     names the byte it stands on exactly when the chunk has bytes and the cursor had
     not run further past the end than the new chunk reaches.
     */
    method AppendChunk(chunk: seq<byte>)
      requires Valid()
      modifies this`chunks
      ensures Valid() <==> |chunk| > 0 && (old(curChunk < |chunks|) || old(curOffset) < |chunk|)
      ensures chunks == old(chunks) + [chunk]
      ensures Data() == old(Data()) + chunk && Rd() == old(Rd())
    {
      assert (chunks + [chunk])[..|chunks|] == chunks;
      assert (chunks + [chunk])[..curChunk] == chunks[..curChunk];
      ghost var n := |chunks|;
      chunks := chunks + [chunk];
      assert chunks[n] == chunk;
    }

    method Clear()
      modifies this
      ensures Valid() && chunks == [] && staging == [] && Rd() == Reader(0, 0, 0)
    {
      chunks, staging := [], [];
      curChunk, curOffset, consumed := 0, 0, 0;
      tmp, last, bits := 0, 0, 0;
    }

    /** Walk the cursor forward by `n` bytes. */
    method Advance(n: nat)
      requires Valid()
      modifies this`curChunk, this`curOffset, this`consumed
      ensures Valid()
      ensures Rd() == old(Rd()).(pos := old(Rd()).pos + n)
    {
      curOffset := curOffset + n;
      while curChunk < |chunks| && curOffset >= |chunks[curChunk]|
        invariant curChunk <= |chunks|
        invariant consumed == |Flatten(chunks[..curChunk])|
        invariant consumed + curOffset == old(consumed + curOffset) + n
        decreases |chunks| - curChunk
      {
        FlattenPrefix(chunks, curChunk);
        curOffset := curOffset - |chunks[curChunk]|;
        consumed := consumed + |chunks[curChunk]|;
        curChunk := curChunk + 1;
      }
    }

    method GetByte() returns (b: byte)
      requires Valid()
      modifies this`curChunk, this`curOffset, this`consumed
      ensures Valid()
      ensures (b, Rd()) == ReadByte(Data(), old(Rd()))
    {
      AtCursor();
      if curChunk >= |chunks| {
        return 0;
      }
      b := chunks[curChunk][curOffset];
      curOffset := curOffset + 1;
      if curOffset == |chunks[curChunk]| {
        FlattenPrefix(chunks, curChunk);
        consumed := consumed + |chunks[curChunk]|;
        curChunk := curChunk + 1;
        curOffset := 0;
      }
    }

    method GetWord() returns (w: nat)
      requires Valid()
      modifies this`curChunk, this`curOffset, this`consumed
      ensures Valid()
      ensures (w, Rd()) == ReadWord(Data(), old(Rd()))
    {
      var hi: int := GetByte();
      var lo: int := GetByte();
      w := 256 * hi + lo;
    }

    method GetBit() returns (b: bool)
      requires Valid()
      modifies this`curChunk, this`curOffset, this`consumed, this`tmp, this`last, this`bits
      ensures Valid()
      ensures (b, Rd()) == ReadBit(Data(), old(Rd()))
    {
      hide Bit, Flatten;
      if bits == 0 {
        var left := if tmp == 0xFF then 7 else 8;
        last := tmp;
        var next := GetByte();
        tmp := next;
        bits := left - 1;
      } else {
        bits := bits - 1;
      }
      b := Bit(tmp, bits);
    }

    method GetBits(n: nat) returns (v: nat)
      requires Valid()
      modifies this`curChunk, this`curOffset, this`consumed, this`tmp, this`last, this`bits
      ensures Valid()
      ensures (v, Rd()) == ReadBits(Data(), old(Rd()), n)
    {
      v := 0;
      for k := 0 to n
        invariant Valid()
        invariant (v, Rd()) == ReadBits(Data(), old(Rd()), k)
      {
        var b := GetBit();
        v := 2 * v + ToNat(b);
      }
    }

    method Flush()
      requires Valid()
      modifies this`curChunk, this`curOffset, this`consumed, this`tmp, this`bits
      ensures Valid()
      ensures Rd() == FlushBits(old(Rd()))
    {
      if tmp == 0xFF {
        Advance(1);
      }
      tmp, bits := 0, 0;
    }

    /** Absolute seek; a target past the end leaves the cursor there, and reads return 0. */
    method Reset(p: nat)
      requires Valid()
      modifies this`curChunk, this`curOffset, this`consumed, this`tmp, this`last, this`bits
      ensures Valid()
      ensures Rd() == Reader(p, 0, 0)
    {
      last, bits, tmp := 0, 0, 0;
      curChunk, curOffset, consumed := 0, 0, 0;
      var remaining: nat := p;
      while curChunk < |chunks| && remaining >= |chunks[curChunk]|
        invariant curChunk <= |chunks|
        invariant consumed == |Flatten(chunks[..curChunk])|
        invariant consumed + remaining == p && tmp == 0 && bits == 0
        decreases |chunks| - curChunk
      {
        FlattenPrefix(chunks, curChunk);
        remaining := remaining - |chunks[curChunk]|;
        consumed := consumed + |chunks[curChunk]|;
        curChunk := curChunk + 1;
      }
      curOffset := remaining;
    }

    /** A slice of the current chunk when it fits, a staged copy of the pieces when it does not. */
    method TakeContiguous(len: nat) returns (r: Option<seq<byte>>)
      requires Valid()
      modifies this`curChunk, this`curOffset, this`consumed, this`staging
      ensures Valid()
      ensures (r, Rd()) == Take(Data(), old(Rd()), len)
      ensures staging == old(staging) || (r.Some? && staging == old(staging) + [r.value])
    {
      AtCursor();
      if curChunk >= |chunks| {
        return None;
      }
      if len == 0 {
        assert Data()[Rd().pos..Rd().pos] + Zeros(0) == [];
        return Some([]);
      }
      if curOffset + len <= |chunks[curChunk]| {
        r := Some(chunks[curChunk][curOffset..][..len]);
        Piece(Data(), Rd().pos, Rd().pos, chunks[curChunk][curOffset..], len);
        Advance(len);
        return;
      }
      var copy := CopyOut(len);
      copy := copy + Zeros(len - |copy|);
      staging := staging + [copy];
      r := Some(copy);
    }

    /** What the chain holds of the next `len` bytes, copied chunk by chunk. */
    method CopyOut(len: nat) returns (copy: seq<byte>)
      requires Valid() && Rd().pos < |Data()|
      modifies this`curChunk, this`curOffset, this`consumed
      ensures Valid() && |copy| == Min(len, |Data()| - old(Rd()).pos)
      ensures copy == Data()[old(Rd()).pos..old(Rd()).pos + |copy|]
      ensures Rd() == old(Rd()).(pos := old(Rd()).pos + |copy|)
    {
      ghost var data, p := Data(), Rd().pos;
      copy := [];
      while |copy| < len && curChunk < |chunks|
        invariant Valid() && Data() == data
        invariant |copy| <= len && p + |copy| <= |data|
        invariant Rd() == old(Rd()).(pos := p + |copy|)
        invariant copy == data[p..p + |copy|]
        decreases len - |copy|
      {
        AtCursor();
        var avail := |chunks[curChunk]| - curOffset;
        var n := Min(len - |copy|, avail);
        var piece := chunks[curChunk][curOffset..][..n];
        Piece(data, p, p + |copy|, chunks[curChunk][curOffset..], n);
        copy := copy + piece;
        Advance(n);
      }
      AtCursor();
    }
  }

  /** A slice continued by the first `n` bytes of the rest of a chunk. */
  lemma Piece(data: seq<byte>, p: nat, q: nat, rest: seq<byte>, n: nat)
    requires p <= q && q + |rest| <= |data| && n <= |rest| && data[q..q + |rest|] == rest
    ensures data[p..q] + rest[..n] == data[p..q + n]
    ensures rest[..n] == data[q..q + n] == data[q..q + n] + Zeros(0)
  {
    assert rest[..n] == data[q..q + |rest|][..n] == data[q..q + n];
  }

  lemma OneChunk(chunk: seq<byte>)
    ensures Flatten([chunk]) == chunk
  {
    assert [chunk][..0] == [];
  }

  /** A header ends in 0xFF at the very end of the chain: the flush skips a byte that is not there yet. */
  method FlushPastTheEnd() returns (cs: Codestream)
    ensures fresh(cs) && cs.Valid() && cs.chunks == [[0xFF]] && cs.curChunk == 1 && cs.curOffset == 1
  {
    hide Bit, Flatten;
    OneChunk([0xFF]);
    cs := new Codestream();
    cs.AppendChunk([0xFF]);
    assert cs.chunks == [[0xFF]];
    var bit := cs.GetBit();
    assert cs.Rd() == Reader(1, 0xFF, 7);
    cs.Flush();
    cs.AtCursor();
    assert cs.chunks[..1] == cs.chunks;
  }

  /**
   A use that runs into the condition of `AppendChunk`: the one-byte chunk that comes next
   leaves the cursor on its own chunk but outside it.
   */
  method OvershootThenAppend() returns (cs: Codestream)
    ensures fresh(cs) && cs.chunks == [[0xFF], [7]] && cs.curChunk == 1 && cs.curOffset == 1 && !cs.Valid()
  {
    cs := FlushPastTheEnd();
    cs.AppendChunk([7]);
  }

  // ------------------------------------------- chunking makes no difference

  datatype Op = OpByte | OpWord | OpBit | OpBits(n: nat) | OpFlush | OpReset(p: nat) | OpTake(len: nat)

  datatype Answer = Num(v: nat) | Flag(b: bool) | Done | Body(bytes: Option<seq<byte>>)

  /** One operation on the flat bytes. */
  function ApplyOp(data: seq<byte>, rd: Reader, op: Op): (Answer, Reader) {
    match op
    case OpByte => var (b, r) := ReadByte(data, rd); (Num(b), r)
    case OpWord => var (w, r) := ReadWord(data, rd); (Num(w), r)
    case OpBit => var (b, r) := ReadBit(data, rd); (Flag(b), r)
    case OpBits(n) => var (v, r) := ReadBits(data, rd, n); (Num(v), r)
    case OpFlush => (Done, FlushBits(rd))
    case OpReset(p) => (Done, Reader(p, 0, 0))
    case OpTake(len) => var (t, r) := Take(data, rd, len); (Body(t), r)
  }

  function ApplyOps(data: seq<byte>, rd: Reader, ops: seq<Op>): (seq<Answer>, Reader) {
    if ops == [] then ([], rd)
    else
      var (xs, r) := ApplyOps(data, rd, ops[..|ops| - 1]);
      var (a, r') := ApplyOp(data, r, ops[|ops| - 1]);
      (xs + [a], r')
  }

  method Perform(cs: Codestream, op: Op) returns (a: Answer)
    requires cs.Valid()
    modifies cs
    ensures cs.Valid() && cs.chunks == old(cs.chunks)
    ensures (a, cs.Rd()) == ApplyOp(cs.Data(), old(cs.Rd()), op)
  {
    match op
    case OpByte => var b := cs.GetByte(); a := Num(b);
    case OpWord => var w := cs.GetWord(); a := Num(w);
    case OpBit => var b := cs.GetBit(); a := Flag(b);
    case OpBits(n) => var v := cs.GetBits(n); a := Num(v);
    case OpFlush => cs.Flush(); a := Done;
    case OpReset(p) => cs.Reset(p); a := Done;
    case OpTake(len) => var t := cs.TakeContiguous(len); a := Body(t);
  }

  /**
   Two chains cut differently out of the same bytes answer every sequence of
   operations alike and end at the same place.
   */
  method PerformOnBoth(a: Codestream, b: Codestream, ops: seq<Op>) returns (fromA: seq<Answer>, fromB: seq<Answer>)
    requires a != b && a.Valid() && b.Valid()
    requires a.Data() == b.Data() && a.Rd() == b.Rd()
    modifies a, b
    ensures a.Valid() && b.Valid() && a.chunks == old(a.chunks) && b.chunks == old(b.chunks)
    ensures fromA == fromB && a.Rd() == b.Rd()
    ensures (fromA, a.Rd()) == ApplyOps(old(a.Data()), old(a.Rd()), ops)
  {
    fromA, fromB := [], [];
    ghost var data, rd := a.Data(), a.Rd();
    for k := 0 to |ops|
      invariant a.Valid() && b.Valid() && a.chunks == old(a.chunks) && b.chunks == old(b.chunks)
      invariant fromA == fromB && a.Rd() == b.Rd()
      invariant (fromA, a.Rd()) == ApplyOps(data, rd, ops[..k])
    {
      var x := Perform(a, ops[k]);
      var y := Perform(b, ops[k]);
      fromA, fromB := fromA + [x], fromB + [y];
      assert ops[..k + 1][..k] == ops[..k];
    }
    assert ops[..|ops|] == ops;
  }
}
