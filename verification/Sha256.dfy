/** The incremental digest object.  `message` is the concatenation of everything passed to
    Update; Valid() says what the buffer and the chaining value are in terms of it. */
module Sha256 {
  import opened Common
  import opened Bytes
  import opened Sha256Spec

  // ---------------------------------------------------------------- one block

  /** The shift-and-or rotation of the source is the standard's ROTR. */
  lemma RotateRightIsRotr(v: word)
    ensures (v >> 2) | (v << 30) == v.RotateRight(2)
    ensures (v >> 6) | (v << 26) == v.RotateRight(6)
    ensures (v >> 7) | (v << 25) == v.RotateRight(7)
    ensures (v >> 11) | (v << 21) == v.RotateRight(11)
    ensures (v >> 13) | (v << 19) == v.RotateRight(13)
    ensures (v >> 17) | (v << 15) == v.RotateRight(17)
    ensures (v >> 18) | (v << 14) == v.RotateRight(18)
    ensures (v >> 19) | (v << 13) == v.RotateRight(19)
    ensures (v >> 22) | (v << 10) == v.RotateRight(22)
    ensures (v >> 25) | (v << 7) == v.RotateRight(25)
  {
  }

  lemma PlusCommutes(x: word, y: word)
    ensures Plus(x, y) == Plus(y, x)
  {
  }

  lemma PlusAssociates(x: word, y: word, z: word)
    ensures Plus(Plus(x, y), z) == Plus(x, Plus(y, z))
  {
    assert Plus(x + y, z) == Plus(x, y + z);
  }

  /** The source adds the schedule terms in the reverse of the standard's order. */
  lemma SumOrder(a: word, b: word, c: word, d: word)
    ensures Plus(Plus(Plus(a, b), c), d) == Plus(Plus(Plus(d, c), b), a)
  {
    hide *;
    PlusCommutes(Plus(Plus(a, b), c), d);
    PlusCommutes(Plus(a, b), c);
    PlusCommutes(a, b);
    PlusAssociates(d, c, Plus(b, a));
    PlusAssociates(Plus(d, c), b, a);
  }

  method Rotations0(w: word) returns (s: word)
    ensures s == SmallSigma0(w)
  {
    RotateRightIsRotr(w);
    s := ((w >> 7) | (w << 25)) ^ ((w >> 18) | (w << 14)) ^ (w >> 3);
  }

  method Rotations1(w: word) returns (s: word)
    ensures s == SmallSigma1(w)
  {
    RotateRightIsRotr(w);
    s := ((w >> 17) | (w << 15)) ^ ((w >> 19) | (w << 13)) ^ (w >> 10);
  }

  method Sum0(a: word) returns (s: word)
    ensures s == BigSigma0(a)
  {
    RotateRightIsRotr(a);
    s := ((a >> 2) | (a << 30)) ^ ((a >> 13) | (a << 19)) ^ ((a >> 22) | (a << 10));
  }

  method Sum1(e: word) returns (s: word)
    ensures s == BigSigma1(e)
  {
    RotateRightIsRotr(e);
    s := ((e >> 6) | (e << 26)) ^ ((e >> 11) | (e << 21)) ^ ((e >> 25) | (e << 7));
  }

  method NextWord(w16: word, w15: word, w7: word, w2: word) returns (w: word)
    ensures w == Plus(Plus(Plus(SmallSigma1(w2), w7), SmallSigma0(w15)), w16)
  {
    hide *;
    var s0 := Rotations0(w15);
    var s1 := Rotations1(w2);
    w := Plus(Plus(Plus(w16, s0), w7), s1);
    SumOrder(w16, s0, w7, s1);
  }

  lemma ScheduleStep(block: seq<byte>, t: nat)
    requires |block| == BLOCK && t < 64
    ensures t < 16 ==>
      Schedule(block, t) == BigEndianWord(block[4 * t], block[4 * t + 1], block[4 * t + 2], block[4 * t + 3])
    ensures t >= 16 ==>
      Schedule(block, t) == Plus(Plus(Plus(SmallSigma1(Schedule(block, t - 2)), Schedule(block, t - 7)),
                                      SmallSigma0(Schedule(block, t - 15))), Schedule(block, t - 16))
  {
    hide BigEndianWord, SmallSigma0, SmallSigma1, Plus;
  }

  /** The word loops of Transform: the schedule of the block, in an array. */
  method ExpandBlock(block: seq<byte>) returns (words: array<word>)
    requires |block| == BLOCK
    ensures fresh(words) && words.Length == 64
    ensures forall t :: 0 <= t < 64 ==> words[t] == Schedule(block, t)
  {
    hide Schedule, BigEndianWord, SmallSigma0, SmallSigma1, Plus;
    words := new word[64](_ => 0);
    for index := 0 to 16
      invariant forall t :: 0 <= t < index ==> words[t] == Schedule(block, t)
    {
      ScheduleStep(block, index);
      var offset := index * 4;
      words[index] := BigEndianWord(block[offset], block[offset + 1], block[offset + 2], block[offset + 3]);
    }
    for index := 16 to 64
      invariant forall t :: 0 <= t < index ==> words[t] == Schedule(block, t)
    {
      ScheduleStep(block, index);
      words[index] := NextWord(words[index - 16], words[index - 15], words[index - 7], words[index - 2]);
    }
  }

  method Choose(e: word, f: word, g: word) returns (c: word)
    ensures c == Ch(e, f, g)
  {
    c := (e & f) ^ (!e & g);
  }

  method Majority(a: word, b: word, c: word) returns (m: word)
    ensures m == Maj(a, b, c)
  {
    m := (a & b) ^ (a & c) ^ (b & c);
  }

  /** One iteration of the compression loop. */
  method MixRound(v: Words, k: word, w: word) returns (r: Words)
    ensures r == Round(v, k, w)
  {
    hide Ch, Maj, BigSigma0, BigSigma1, Plus;
    var sum1 := Sum1(v.e);
    var choose := Choose(v.e, v.f, v.g);
    var temp1 := Plus(Plus(Plus(Plus(v.h, sum1), choose), k), w);
    var sum0 := Sum0(v.a);
    var majority := Majority(v.a, v.b, v.c);
    var temp2 := Plus(sum0, majority);
    r := Words(Plus(temp1, temp2), v.a, v.b, v.c, Plus(v.d, temp1), v.e, v.f, v.g);
  }

  lemma RoundsStep(start: Words, block: seq<byte>, t: nat)
    requires |block| == BLOCK && t < 64
    ensures Rounds(start, block, t + 1) == Round(Rounds(start, block, t), K[t], Schedule(block, t))
  {
    hide Round, Schedule;
  }

  method Transform(state: Words, block: seq<byte>) returns (next: Words)
    requires |block| == BLOCK
    ensures next == Compress(state, block)
  {
    var words := ExpandBlock(block);
    var v := state;
    for index := 0 to 64
      invariant forall t :: 0 <= t < 64 ==> words[t] == Schedule(block, t)
      invariant v == Rounds(state, block, index)
    {
      RoundsStep(state, block, index);
      v := MixRound(v, K[index], words[index]);
    }
    next := Words(Plus(state.a, v.a), Plus(state.b, v.b), Plus(state.c, v.c), Plus(state.d, v.d),
                  Plus(state.e, v.e), Plus(state.f, v.f), Plus(state.g, v.g), Plus(state.h, v.h));
  }

  // ---------------------------------------------------------------- the object

  class Sha256 {
    var state: Words
    const buffer: array<byte>
    var totalBytes: nat
    var bufferedBytes: nat
    var finalized: bool
    ghost var message: seq<byte>
    ghost var covered: nat

    /** The chaining value covers the whole blocks of the message; the buffer holds the
        rest, fewer than 64 bytes between calls. */
    ghost predicate Buffered()
      reads this`state, this`bufferedBytes, this`message, this`covered, buffer
    {
      && buffer.Length == BLOCK && bufferedBytes < BLOCK
      && covered + bufferedBytes == |message| && covered % BLOCK == 0
      && buffer[..bufferedBytes] == message[covered..]
      && state == HashBlocks(H0, message[..covered])
    }

    ghost predicate Valid()
      reads this, buffer
    {
      buffer.Length == BLOCK && totalBytes == |message| % TWO_TO_64 && (!finalized ==> Buffered())
    }

    constructor ()
      ensures Valid() && fresh(buffer) && message == [] && !finalized
    {
      state := H0;
      buffer := new byte[BLOCK](_ => 0);
      totalBytes, bufferedBytes, finalized := 0, 0, false;
      message, covered := [], 0;
    }

    /** The first part of Update: fill a partly filled buffer and compress it when full. */
    method TopUp(bytes: seq<byte>) returns (offset: nat)
      requires Buffered() && bufferedBytes > 0
      modifies this`state, this`bufferedBytes, this`message, this`covered, buffer
      ensures Buffered() && offset == Min(|bytes|, BLOCK - old(bufferedBytes))
      ensures message == old(message) + bytes[..offset]
      ensures bufferedBytes == 0 || offset == |bytes|
    {
      hide HashBlocks, Compress;
      var copied := Min(|bytes|, BLOCK - bufferedBytes);
      ghost var front := message[..covered];
      forall i | 0 <= i < copied {
        buffer[bufferedBytes + i] := bytes[i];
      }
      message := message + bytes[..copied];
      bufferedBytes := bufferedBytes + copied;
      offset := copied;
      assert message == front + buffer[..bufferedBytes];
      if bufferedBytes == BLOCK {
        assert message[..covered] == front && buffer[..BLOCK] == buffer[..];
        CompressBuffer();
      }
    }

    /** A full buffer is compressed and starts over. */
    method CompressBuffer()
      requires buffer.Length == BLOCK && covered + BLOCK == |message| && covered % BLOCK == 0
      requires message == message[..covered] + buffer[..] && state == HashBlocks(H0, message[..covered])
      modifies this`state, this`bufferedBytes, this`covered
      ensures Buffered() && bufferedBytes == 0
    {
      hide HashBlocks, Compress;
      HashNextBlock(H0, message[..covered], buffer[..]);
      state := Transform(state, buffer[..]);
      bufferedBytes := 0;
      covered := covered + BLOCK;
      assert message[..covered] == message;
    }

    /** The second part of Update: compress one block straight from the input. */
    method WholeBlock(block: seq<byte>)
      requires Buffered() && bufferedBytes == 0 && |block| == BLOCK
      modifies this`state, this`message, this`covered
      ensures Buffered() && message == old(message) + block
    {
      hide HashBlocks, Compress;
      assert message[..covered] == message;
      state := Transform(state, block);
      HashNextBlock(H0, message, block);
      message := message + block;
      covered := covered + BLOCK;
      assert message[..covered] == message;
    }

    /** The last part of Update: keep the tail for the next call. */
    method Keep(tail: seq<byte>)
      requires Buffered() && bufferedBytes == 0 && |tail| < BLOCK
      modifies this`bufferedBytes, this`message, buffer
      ensures Buffered() && message == old(message) + tail
    {
      hide HashBlocks, Compress;
      bufferedBytes := |tail|;
      forall i | 0 <= i < |tail| {
        buffer[i] := tail[i];
      }
      message := message + tail;
      assert message[..covered] == old(message)[..covered];
      assert buffer[..bufferedBytes] == tail;
    }

    /** The loops of Update over the bytes not yet buffered. */
    method Absorb(bytes: seq<byte>)
      requires Buffered()
      modifies this`state, this`bufferedBytes, this`message, this`covered, buffer
      ensures Buffered() && message == old(message) + bytes
    {
      hide HashBlocks, Compress, Buffered;
      var offset := 0;
      if bufferedBytes > 0 {
        offset := TopUp(bytes);
      }
      assert message == old(message) + bytes[..offset];
      while |bytes| - offset >= BLOCK
        invariant offset <= |bytes| && Buffered()
        invariant message == old(message) + bytes[..offset]
        invariant bufferedBytes == 0 || offset == |bytes|
      {
        WholeBlock(bytes[offset..offset + BLOCK]);
        assert bytes[..offset + BLOCK] == bytes[..offset] + bytes[offset..offset + BLOCK];
        offset := offset + BLOCK;
      }
      if offset < |bytes| {
        Keep(bytes[offset..]);
      }
      assert bytes == bytes[..offset] + bytes[offset..];
    }

    /** Update appends `bytes` to the message; after Finalize it fails and changes nothing. */
    method Update(bytes: seq<byte>) returns (ok: bool)
      requires Valid()
      modifies this, buffer
      ensures Valid() && ok == !old(finalized) && finalized == old(finalized)
      ensures message == if ok then old(message) + bytes else old(message)
      ensures !ok ==> unchanged(this) && unchanged(buffer)
    {
      hide Buffered, HashBlocks;
      if finalized {
        return false;
      }
      totalBytes := (totalBytes + |bytes|) % TWO_TO_64;
      Absorb(bytes);
      ok := true;
    }

    /** Zeros and length complete the block that the buffer has begun. */
    method LastBlock(totalBits: nat, ghost front: seq<byte>)
      requires buffer.Length == BLOCK && bufferedBytes <= 56
      requires |front| % BLOCK == 0 && state == HashBlocks(H0, front)
      modifies this`state, buffer
      ensures state == HashBlocks(H0,
                                  front + (old(buffer[..bufferedBytes]) + Zeros(56 - bufferedBytes)
                                           + BigEndian(totalBits, 8)))
    {
      hide HashBlocks, Compress;
      ZeroFill(bufferedBytes, 56);
      WriteLength(totalBits);
      state := Transform(state, buffer[..]);
      HashNextBlock(H0, front, buffer[..]);
      assert buffer[..] == old(buffer[..bufferedBytes]) + Zeros(56 - bufferedBytes) + BigEndian(totalBits, 8);
    }

    /** The marker byte and zeros fill a block that has no room for the length. */
    method MarkerBlock(ghost front: seq<byte>, ghost tail: seq<byte>)
      requires buffer.Length == BLOCK && 56 < bufferedBytes <= BLOCK && bufferedBytes == |tail| + 1
      requires buffer[..bufferedBytes] == tail + [0x80]
      requires |front| % BLOCK == 0 && state == HashBlocks(H0, front)
      modifies this`state, buffer
      ensures state == HashBlocks(H0, front + (tail + [0x80] + Zeros(63 - |tail|)))
    {
      hide HashBlocks, Compress;
      ZeroFill(bufferedBytes, BLOCK);
      assert buffer[..] == tail + [0x80] + Zeros(63 - |tail|);
      state := Transform(state, buffer[..]);
      HashNextBlock(H0, front, buffer[..]);
    }

    /** The tail of Finalize: marker, zeros and length fill one or two more blocks. */
    method Close(totalBits: nat)
      requires Buffered() && totalBits == 8 * |message| % TWO_TO_64
      modifies this`state, this`bufferedBytes, buffer
      ensures state == HashBlocks(H0, Pad(message))
    {
      hide HashBlocks, Compress, BigEndian, Pad, ZeroCount;
      ghost var front, tail := message[..covered], message[covered..];
      assert message == front + tail;
      PadSplits(front, tail);
      buffer[bufferedBytes] := 0x80;
      bufferedBytes := bufferedBytes + 1;
      assert buffer[..bufferedBytes] == tail + [0x80];
      if bufferedBytes > 56 {
        ghost var block := tail + [0x80] + Zeros(63 - |tail|);
        MarkerBlock(front, tail);
        bufferedBytes := 0;
        LastBlock(totalBits, front + block);
        assert front + block + ([] + Zeros(56) + LengthField(|message|)) == front + LastBlocks(|message|, tail);
      } else {
        LastBlock(totalBits, front);
      }
    }

    method ZeroFill(from: nat, to: nat)
      requires buffer.Length == BLOCK && from <= to <= BLOCK
      modifies buffer
      ensures buffer[..] == old(buffer[..from]) + Zeros(to - from) + old(buffer[to..])
    {
      forall i | from <= i < to {
        buffer[i] := 0;
      }
    }

    method WriteLength(totalBits: nat)
      requires buffer.Length == BLOCK
      modifies buffer
      ensures buffer[..] == old(buffer[..56]) + BigEndian(totalBits, 8)
    {
      hide BigEndian, ByteOf, Pow256;
      for index := 0 to 8
        invariant buffer[..56] == old(buffer[..56])
        invariant forall i :: 0 <= i < index ==> buffer[56 + i] == BigEndian(totalBits, 8)[i]
      {
        BigEndianAt(totalBits, 8, index);
        buffer[56 + index] := ByteOf(totalBits / Pow256(7 - index));
      }
    }

    /** Finalize returns the FIPS 180-4 digest of everything absorbed, once. */
    method Finalize() returns (digest: Option<seq<byte>>)
      requires Valid()
      modifies this, buffer
      ensures Valid() && finalized && message == old(message)
      ensures old(finalized) ==> digest == None
      ensures !old(finalized) ==> digest == Some(Digest(message))
    {
      if finalized {
        return None;
      }
      finalized := true;
      TotalBits(|message|);
      var totalBits := totalBytes * 8 % TWO_TO_64;
      Close(totalBits);
      digest := Some(DigestBytes(state));
    }
  }

  /** Counting bytes modulo 2^64 loses nothing of the bit count modulo 2^64. */
  lemma TotalBits(length: nat)
    ensures (length % TWO_TO_64) * 8 % TWO_TO_64 == 8 * length % TWO_TO_64
  {
    EightTimesLow(length, TWO_TO_64);
  }

  lemma EightTimesLow(length: nat, d: nat)
    requires d > 0
    ensures (length % d) * 8 % d == 8 * length % d
  {
    var q, r := length / d, length % d;
    var p, low := r * 8 / d, r * 8 % d;
    assert length == d * q + r && r * 8 == d * p + low;
    assert d * (p + 8 * q) == d * p + 8 * (d * q);
    DivUnique(8 * length, d, p + 8 * q, low);
  }

  function Flatten(chunks: seq<seq<byte>>): seq<byte> {
    if chunks == [] then [] else chunks[0] + Flatten(chunks[1..])
  }

  /** Streaming: however a message is split into updates, the digest is the one-shot hash
      of the whole message. */
  method HashChunks(chunks: seq<seq<byte>>) returns (digest: seq<byte>)
    ensures digest == Digest(Flatten(chunks))
  {
    hide Sha256.Valid, Digest;
    var hasher := new Sha256();
    for index := 0 to |chunks|
      invariant hasher.Valid() && fresh(hasher) && fresh(hasher.buffer) && !hasher.finalized
      invariant hasher.message + Flatten(chunks[index..]) == Flatten(chunks)
    {
      var _ := hasher.Update(chunks[index]);
      assert chunks[index..][1..] == chunks[index + 1..];
    }
    var result := hasher.Finalize();
    assert hasher.message == Flatten(chunks);
    digest := result.value;
  }
}
