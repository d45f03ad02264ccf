/** The pieces the planner payloads are made of: little-endian C integers, and slices of a
    scratch buffer gathered into one contiguous blob. */
module Wire {
  import opened Common
  import opened Bytes

  // ---------------------------------------------------------------- integers

  function IntBytes(v: int): (s: bytes)
    ensures |s| == 4
  {
    Le32(v % TWO_TO_32)
  }

  function ReadInt(b: bytes): int
    requires |b| >= 4
  {
    Signed32(Value(b[..4]))
  }

  predicate Fits(v: int) {
    -INT32_MAX - 1 <= v <= INT32_MAX
  }

  predicate AllFit(vs: seq<int>) {
    forall i :: 0 <= i < |vs| ==> Fits(vs[i])
  }

  lemma ReadIntBytes(v: int, rest: bytes)
    requires Fits(v)
    ensures ReadInt(IntBytes(v) + rest) == v
  {
    Le32RoundTrip(v % TWO_TO_32);
    assert (IntBytes(v) + rest)[..4] == IntBytes(v);
  }

  function Words(vs: seq<int>): (s: bytes)
    ensures |s| == 4 * |vs|
  {
    if vs == [] then [] else IntBytes(vs[0]) + Words(vs[1..])
  }

  function ReadWords(b: bytes, n: nat): (vs: seq<int>)
    requires |b| >= 4 * n
    ensures |vs| == n
  {
    if n == 0 then [] else [ReadInt(b)] + ReadWords(b[4..], n - 1)
  }

  lemma {:induction false} ReadWordsBack(vs: seq<int>, rest: bytes)
    requires AllFit(vs)
    ensures ReadWords(Words(vs) + rest, |vs|) == vs
  {
    hide ReadInt, IntBytes;
    if vs != [] {
      var b := Words(vs) + rest;
      assert b == IntBytes(vs[0]) + (Words(vs[1..]) + rest);
      ReadIntBytes(vs[0], Words(vs[1..]) + rest);
      assert b[4..] == Words(vs[1..]) + rest;
      ReadWordsBack(vs[1..], rest);
      assert vs == [vs[0]] + vs[1..];
    }
  }

  lemma {:induction false} WordsAppend(a: seq<int>, b: seq<int>)
    ensures Words(a + b) == Words(a) + Words(b)
  {
    hide IntBytes;
    if a == [] {
      assert a + b == b;
    } else {
      WordsAppend(a[1..], b);
      assert (a + b)[1..] == a[1..] + b && (a + b)[0] == a[0];
      ConcatAssociates(IntBytes(a[0]), Words(a[1..]), Words(b));
    }
  }

  /** The four bytes that AppendInt pushes, low byte first. */
  method AppendInt(output: bytes, value: int) returns (longer: bytes)
    ensures longer == output + IntBytes(value)
  {
    var raw := value % TWO_TO_32;
    longer := output + [ByteOf(raw)];
    longer := longer + [ByteOf(raw / 0x100)];
    longer := longer + [ByteOf(raw / 0x1_0000)];
    longer := longer + [ByteOf(raw / 0x100_0000)];
    FourBytes(raw);
  }

  lemma FourBytes(raw: nat)
    requires raw < TWO_TO_32
    ensures Le32(raw) == [ByteOf(raw), ByteOf(raw / 0x100), ByteOf(raw / 0x1_0000), ByteOf(raw / 0x100_0000)]
  {
    assert LittleEndian(raw, 4) == [ByteOf(raw)] + LittleEndian(raw / 256, 3);
    assert LittleEndian(raw / 256, 3) == [ByteOf(raw / 256)] + LittleEndian(raw / 256 / 256, 2);
    assert LittleEndian(raw / 256 / 256, 2) == [ByteOf(raw / 256 / 256)] + LittleEndian(raw / 256 / 256 / 256, 1);
    assert LittleEndian(raw / 256 / 256 / 256, 1) == [ByteOf(raw / 256 / 256 / 256)] + [];
    assert raw / 256 / 256 == raw / 0x1_0000 && raw / 256 / 256 / 256 == raw / 0x100_0000;
  }

  method AppendInts(output: bytes, values: seq<int>) returns (longer: bytes)
    ensures longer == output + Words(values)
  {
    longer := output;
    for i := 0 to |values|
      invariant longer == output + Words(values[..i])
    {
      longer := AppendInt(longer, values[i]);
      WordsAppend(values[..i], [values[i]]);
      assert values[..i + 1] == values[..i] + [values[i]];
      assert Words([values[i]]) == IntBytes(values[i]) + Words([values[i]][1..]);
    }
    assert values[..|values|] == values;
  }

  /** Where the parts of a payload lie. */
  lemma FiveParts(a: bytes, b: bytes, c: bytes, d: bytes, e: bytes)
    ensures var s := a + b + c + d + e;
      && |s| == |a| + |b| + |c| + |d| + |e|
      && s[..|a|] == a && s[|a|..|a| + |b|] == b && s[|a| + |b|..|a| + |b| + |c|] == c
      && s[|a| + |b| + |c|..|a| + |b| + |c| + |d|] == d && s[|a| + |b| + |c| + |d|..] == e
  {
  }

  // ---------------------------------------------------------------- slices

  datatype Slice = Slice(offset: int, size: int)

  /** The slices that the rebasing loop accepts; an empty one may carry any offset. */
  predicate SliceOk(scratch: bytes, s: Slice) {
    s.size <= 0 || (0 <= s.offset && s.offset + s.size <= |scratch|)
  }

  predicate SlicesOk(scratch: bytes, ss: seq<Slice>) {
    forall i :: 0 <= i < |ss| ==> SliceOk(scratch, ss[i])
  }

  function Piece(scratch: bytes, s: Slice): (b: bytes)
    requires SliceOk(scratch, s)
    ensures |b| == Max(0, s.size)
  {
    if s.size <= 0 then [] else scratch[s.offset..s.offset + s.size]
  }

  function Start(ss: seq<Slice>, i: nat): nat
    requires i <= |ss|
  {
    if i == 0 then 0 else Start(ss, i - 1) + Max(0, ss[i - 1].size)
  }

  function Gather(scratch: bytes, ss: seq<Slice>): bytes
    requires SlicesOk(scratch, ss)
  {
    if ss == [] then [] else Gather(scratch, ss[..|ss| - 1]) + Piece(scratch, ss[|ss| - 1])
  }

  lemma {:induction false} StartOfPrefix(ss: seq<Slice>, n: nat, i: nat)
    requires i <= n <= |ss|
    ensures Start(ss[..n], i) == Start(ss, i)
  {
    if i > 0 {
      StartOfPrefix(ss, n, i - 1);
    }
  }

  /** The gathered slices tile the blob in order, and each keeps its bytes. */
  lemma {:induction false} GatherTiles(scratch: bytes, ss: seq<Slice>, i: nat)
    requires SlicesOk(scratch, ss) && i < |ss|
    ensures |Gather(scratch, ss)| == Start(ss, |ss|)
    ensures Start(ss, i) + Max(0, ss[i].size) == Start(ss, i + 1) <= Start(ss, |ss|)
    ensures Gather(scratch, ss)[Start(ss, i)..Start(ss, i + 1)] == Piece(scratch, ss[i])
  {
    hide Piece, SliceOk;
    var n := |ss| - 1;
    var init := ss[..n];
    GatherLength(scratch, init);
    GatherLength(scratch, ss);
    StartOfPrefix(ss, n, n);
    if i < n {
      GatherTiles(scratch, init, i);
      StartOfPrefix(ss, n, i);
      StartOfPrefix(ss, n, i + 1);
      PrefixSlice(Gather(scratch, init), Piece(scratch, ss[n]), Start(ss, i), Start(ss, i + 1));
    }
  }

  lemma PrefixSlice(a: bytes, b: bytes, lo: nat, hi: nat)
    requires lo <= hi <= |a|
    ensures (a + b)[lo..hi] == a[lo..hi]
  {
  }

  lemma {:induction false} GatherLength(scratch: bytes, ss: seq<Slice>)
    requires SlicesOk(scratch, ss)
    ensures |Gather(scratch, ss)| == Start(ss, |ss|)
  {
    hide SliceOk;
    if ss != [] {
      GatherLength(scratch, ss[..|ss| - 1]);
      StartOfPrefix(ss, |ss| - 1, |ss| - 1);
    }
  }

  lemma GatherNothing(scratch: bytes, ss: seq<Slice>)
    ensures SlicesOk(scratch, ss[..0]) && Gather(scratch, ss[..0]) == []
  {
  }

  /** One turn of a gathering loop. */
  lemma GatherStep(scratch: bytes, ss: seq<Slice>, k: nat)
    requires k < |ss| && SlicesOk(scratch, ss[..k])
    ensures |Gather(scratch, ss[..k])| == Start(ss, k)
    ensures SliceOk(scratch, ss[k]) ==>
      SlicesOk(scratch, ss[..k + 1]) && Gather(scratch, ss[..k + 1]) == Gather(scratch, ss[..k]) + Piece(scratch, ss[k])
    ensures !SliceOk(scratch, ss[k]) ==> !SlicesOk(scratch, ss)
  {
    hide Piece, Gather, Start;
    GatherLength(scratch, ss[..k]);
    StartOfPrefix(ss, k, k);
    if SliceOk(scratch, ss[k]) {
      GatherAppend(scratch, ss[..k], ss[k]);
      assert ss[..k + 1] == ss[..k] + [ss[k]];
    }
  }

  lemma GatherAppend(scratch: bytes, ss: seq<Slice>, s: Slice)
    requires SlicesOk(scratch, ss) && SliceOk(scratch, s)
    ensures SlicesOk(scratch, ss + [s]) && Gather(scratch, ss + [s]) == Gather(scratch, ss) + Piece(scratch, s)
  {
    hide Piece, SliceOk;
    assert (ss + [s])[..|ss|] == ss;
  }
}
