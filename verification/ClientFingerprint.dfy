/** The request fingerprint as the Python client computes it, packed with `struct` and numpy, and that
    it feeds the same bytes to the hash as the native side does. */
module ClientFingerprint {
  import opened Common
  import opened Bytes
  import opened RequestFingerprint

  // ---------------------------------------------------------------- struct.pack

  /** "<I": four bytes, low byte first. */
  function PackUnsigned(x: nat): (b: bytes)
    ensures |b| == 4
  {
    [ByteOf(x), ByteOf(x / 0x100), ByteOf(x / 0x1_0000), ByteOf(x / 0x100_0000)]
  }

  /** "<i": the same of the two's complement. */
  function PackSigned(x: int32): (b: bytes)
    ensures |b| == 4
  {
    PackUnsigned(if x < 0 then x + 0x1_0000_0000 else x)
  }

  /** "<Q". */
  function PackWide(x: uint64): bytes {
    [ByteOf(x), ByteOf(x / 0x100), ByteOf(x / 0x1_0000), ByteOf(x / 0x100_0000), ByteOf(x / 0x1_0000_0000),
     ByteOf(x / 0x100_0000_0000), ByteOf(x / 0x1_0000_0000_0000), ByteOf(x / 0x100_0000_0000_0000)]
  }

  /** A run of "i" in one format. */
  function PackAll(values: seq<int32>): bytes {
    if values == [] then [] else PackSigned(values[0]) + PackAll(values[1..])
  }

  /** The size of an array, then the array as little-endian 32-bit integers. */
  function PackArray(values: seq<int32>): bytes {
    PackUnsigned(|values|) + PackAll(values)
  }

  // ---------------------------------------------------------------- what the client hashes

  function ClientPreimage(r: Request): bytes
    requires RequestOk(r)
  {
    match r
    case Consequence(token, hc, hv, worlds, cc, cv, candidates, root, coin, seed, cells, caps) =>
      Ascii("ptcg-rl/native-consequence-request/v5") + [0] + PackUnsigned(|token|) + token
        + PackAll([worlds, candidates, root, cells, caps.engineSteps, caps.forcedSteps, caps.observationBytes])
        + [if coin then 1 else 0] + PackWide(seed)
        + PackArray(hc) + PackArray(hv) + PackArray(cc) + PackArray(cv)
    case Open(token, hc, hv, worlds, cc, cv, candidates, root, coin, slots, caps) =>
      Ascii("ptcg-rl/native-planning-session-open/v1") + [0] + PackUnsigned(|token|) + token
        + PackAll([worlds, candidates, root, slots, caps.engineSteps, caps.forcedSteps, caps.observationBytes])
        + [if coin then 1 else 0]
        + PackArray(hc) + PackArray(hv) + PackArray(cc) + PackArray(cv)
    case Continue(generation, slots, counts, values, caps) =>
      Ascii("ptcg-rl/native-planning-session-continue/v1") + [0]
        + PackAll([generation, |slots|, caps.engineSteps, caps.forcedSteps, caps.observationBytes])
        + PackArray(slots) + PackArray(counts) + PackArray(values)
  }

  // ---------------------------------------------------------------- field by field

  lemma UnsignedIs(x: nat)
    ensures PackUnsigned(x) == Le32(x)
  {
    assert LittleEndian(x / 0x100_0000, 1) == [ByteOf(x / 0x100_0000)];
    assert LittleEndian(x / 0x1_0000, 2) == [ByteOf(x / 0x1_0000)] + LittleEndian(x / 0x100_0000, 1);
    assert LittleEndian(x / 0x100, 3) == [ByteOf(x / 0x100)] + LittleEndian(x / 0x1_0000, 2);
  }

  lemma SignedIs(x: int32)
    ensures PackSigned(x) == Le32(Unsigned32(x))
  {
    hide Le32, PackUnsigned;
    UnsignedIs(Unsigned32(x));
  }

  lemma WideIs(x: uint64)
    ensures PackWide(x) == LittleEndian(x, 8)
  {
    hide LittleEndian, ByteOf;
    var x1, x2, x3, x4 := x / 0x100, x / 0x1_0000, x / 0x100_0000, x / 0x1_0000_0000;
    var x5, x6, x7 := x / 0x100_0000_0000, x / 0x1_0000_0000_0000, x / 0x100_0000_0000_0000;
    NextByte(x, x1, 7);
    NextByte(x1, x2, 6);
    NextByte(x2, x3, 5);
    NextByte(x3, x4, 4);
    NextByte(x4, x5, 3);
    NextByte(x5, x6, 2);
    NextByte(x6, x7, 1);
    NextByte(x7, x7 / 0x100, 0);
    NoBytes(x7 / 0x100);
  }

  lemma NextByte(x: nat, y: nat, n: nat)
    requires y == x / 256
    ensures LittleEndian(x, n + 1) == [ByteOf(x)] + LittleEndian(y, n)
  {
  }

  lemma NoBytes(x: nat)
    ensures LittleEndian(x, 0) == []
  {
  }

  lemma {:induction false} PackAppend(a: seq<int32>, b: seq<int32>)
    ensures PackAll(a + b) == PackAll(a) + PackAll(b)
  {
    hide PackSigned;
    if a == [] {
      assert a + b == b;
    } else {
      PackAppend(a[1..], b);
      assert (a + b)[1..] == a[1..] + b;
      ConcatAssociates(PackSigned(a[0]), PackAll(a[1..]), PackAll(b));
    }
  }

  lemma {:induction false} AllIs(values: seq<int32>)
    ensures PackAll(values) == WordsOf(values)
  {
    hide PackSigned, Le32;
    if values != [] {
      var n := |values| - 1;
      AllIs(values[..n]);
      PackAppend(values[..n], [values[n]]);
      SignedIs(values[n]);
      assert values == values[..n] + [values[n]] && [values[n]][1..] == [];
      assert PackAll([values[n]]) == PackSigned(values[n]) + PackAll([]);
    }
  }

  lemma ArrayIs(values: seq<int32>)
    ensures PackArray(values) == EncodeField(Integers(values))
  {
    hide PackAll, WordsOf, PackUnsigned;
    AllIs(values);
    UnsignedIs(|values|);
  }

  function WordFields(values: seq<int32>): (fields: seq<Field>)
    ensures |fields| == |values|
  {
    seq(|values|, i requires 0 <= i < |values| => Word(values[i]))
  }

  lemma {:induction false} EncodeAppend(a: seq<Field>, b: seq<Field>)
    ensures EncodeFields(a + b) == EncodeFields(a) + EncodeFields(b)
  {
    hide EncodeField;
    if a == [] {
      assert a + b == b;
    } else {
      EncodeAppend(a[1..], b);
      assert (a + b)[1..] == a[1..] + b;
      ConcatAssociates(EncodeField(a[0]), EncodeFields(a[1..]), EncodeFields(b));
    }
  }

  lemma EncodeOne(f: Field)
    ensures EncodeFields([f]) == EncodeField(f)
  {
    hide EncodeField;
    assert [f][1..] == [] && EncodeFields([]) == [];
    assert EncodeField(f) + [] == EncodeField(f);
  }

  lemma {:induction false} EncodeWords(values: seq<int32>)
    ensures EncodeFields(WordFields(values)) == PackAll(values)
  {
    hide PackSigned, Le32;
    if values != [] {
      EncodeWords(values[1..]);
      SignedIs(values[0]);
      assert WordFields(values)[1..] == WordFields(values[1..]);
    }
  }

  /** The four arrays of a grid. */
  lemma FourArrays(a: seq<int32>, b: seq<int32>, c: seq<int32>, d: seq<int32>)
    ensures EncodeFields([Integers(a), Integers(b), Integers(c), Integers(d)])
         == PackArray(a) + PackArray(b) + PackArray(c) + PackArray(d)
  {
    hide EncodeField, PackArray;
    ThreeArrays(a, b, c);
    ArrayIs(d);
    EncodeOne(Integers(d));
    EncodeAppend([Integers(a), Integers(b), Integers(c)], [Integers(d)]);
    assert [Integers(a), Integers(b), Integers(c)] + [Integers(d)]
        == [Integers(a), Integers(b), Integers(c), Integers(d)];
  }

  lemma ThreeArrays(a: seq<int32>, b: seq<int32>, c: seq<int32>)
    ensures EncodeFields([Integers(a), Integers(b), Integers(c)]) == PackArray(a) + PackArray(b) + PackArray(c)
  {
    hide EncodeField, PackArray;
    ArrayIs(a);
    ArrayIs(b);
    ArrayIs(c);
    EncodeOne(Integers(a));
    EncodeOne(Integers(b));
    EncodeOne(Integers(c));
    EncodeAppend([Integers(a)], [Integers(b)]);
    EncodeAppend([Integers(a)] + [Integers(b)], [Integers(c)]);
    assert [Integers(a)] + [Integers(b)] + [Integers(c)] == [Integers(a), Integers(b), Integers(c)];
  }

  lemma CountedIs(token: bytes)
    ensures EncodeFields([Counted(token)]) == PackUnsigned(|token|) + token
  {
    hide PackUnsigned, Le32;
    EncodeOne(Counted(token));
    UnsignedIs(|token|);
  }

  // ---------------------------------------------------------------- the same bytes

  /** Client and native side hash the same bytes for the same request, whatever it is. */
  lemma ClientAgrees(r: Request)
    requires RequestOk(r)
    ensures ClientPreimage(r) == Preimage(r)
  {
    match r
    case Consequence(token, hc, hv, worlds, cc, cv, candidates, root, coin, seed, cells, caps) => ConsequenceAgrees(r);
    case Open(token, hc, hv, worlds, cc, cv, candidates, root, coin, slots, caps) => OpenAgrees(r);
    case Continue(generation, slots, counts, values, caps) => ContinueAgrees(r);
  }

  lemma ContinueAgrees(r: Request)
    requires RequestOk(r) && r.Continue?
    ensures ClientPreimage(r) == Preimage(r)
  {
    hide PackArray, PackAll, EncodeFields, Ascii;
    var words: seq<int32> := [r.generation, |r.parentSlots|, r.caps.engineSteps, r.caps.forcedSteps,
                              r.caps.observationBytes];
    var arrays := [Integers(r.parentSlots), Integers(r.actionCounts), Integers(r.actionValues)];
    EncodeWords(words);
    ThreeArrays(r.parentSlots, r.actionCounts, r.actionValues);
    EncodeAppend(WordFields(words), arrays);
    assert Fields(r) == WordFields(words) + arrays;
  }

  lemma OpenAgrees(r: Request)
    requires RequestOk(r) && r.Open?
    ensures ClientPreimage(r) == Preimage(r)
  {
    hide PackArray, PackAll, EncodeFields, EncodeField, Ascii;
    var words: seq<int32> := [r.worldCount, r.candidateCount, r.rootPlayer, r.maxStateSlots, r.caps.engineSteps,
                              r.caps.forcedSteps, r.caps.observationBytes];
    var arrays := [Integers(r.hiddenCounts), Integers(r.hiddenValues), Integers(r.candidateCounts),
                   Integers(r.candidateValues)];
    var token, coin := [Counted(r.token)], [Flag(r.manualCoin)];
    EncodeWords(words);
    CountedIs(r.token);
    FlagIs(r.manualCoin);
    FourArrays(r.hiddenCounts, r.hiddenValues, r.candidateCounts, r.candidateValues);
    FourParts(token, WordFields(words), coin, arrays);
    assert Fields(r) == token + WordFields(words) + coin + arrays;
    hide Fields;
    Reassociates(Domain(r), PackUnsigned(|r.token|), r.token, PackAll(words), EncodeFields(coin),
                 PackArray(r.hiddenCounts), PackArray(r.hiddenValues), PackArray(r.candidateCounts),
                 PackArray(r.candidateValues));
  }

  lemma ConsequenceAgrees(r: Request)
    requires RequestOk(r) && r.Consequence?
    ensures ClientPreimage(r) == Preimage(r)
  {
    hide PackArray, PackAll, EncodeFields, EncodeField, Ascii, PackWide;
    var words: seq<int32> := [r.worldCount, r.candidateCount, r.rootPlayer, r.maxCells, r.caps.engineSteps,
                              r.caps.forcedSteps, r.caps.observationBytes];
    var arrays := [Integers(r.hiddenCounts), Integers(r.hiddenValues), Integers(r.candidateCounts),
                   Integers(r.candidateValues)];
    var token, coin := [Counted(r.token)], [Flag(r.manualCoin), Wide(r.seed)];
    EncodeWords(words);
    CountedIs(r.token);
    CoinAndSeed(r.manualCoin, r.seed);
    FourArrays(r.hiddenCounts, r.hiddenValues, r.candidateCounts, r.candidateValues);
    FourParts(token, WordFields(words), coin, arrays);
    assert Fields(r) == token + WordFields(words) + coin + arrays;
    hide Fields;
    Reassociates(Domain(r), PackUnsigned(|r.token|), r.token, PackAll(words), EncodeFields(coin),
                 PackArray(r.hiddenCounts), PackArray(r.hiddenValues), PackArray(r.candidateCounts),
                 PackArray(r.candidateValues));
  }

  lemma Reassociates(t: bytes, n: bytes, k: bytes, w: bytes, c: bytes, a1: bytes, a2: bytes, a3: bytes, a4: bytes)
    ensures t + n + k + w + c + a1 + a2 + a3 + a4 == t + (n + k + w + c + (a1 + a2 + a3 + a4))
  {
  }

  lemma FlagIs(coin: bool)
    ensures EncodeFields([Flag(coin)]) == [if coin then 1 else 0]
  {
    EncodeOne(Flag(coin));
  }

  lemma CoinAndSeed(coin: bool, seed: uint64)
    ensures EncodeFields([Flag(coin), Wide(seed)]) == [if coin then 1 else 0] + PackWide(seed)
  {
    hide PackWide, LittleEndian, EncodeFields;
    FlagIs(coin);
    EncodeOne(Wide(seed));
    WideIs(seed);
    EncodeAppend([Flag(coin)], [Wide(seed)]);
    assert [Flag(coin)] + [Wide(seed)] == [Flag(coin), Wide(seed)];
  }

  lemma FourParts(a: seq<Field>, b: seq<Field>, c: seq<Field>, d: seq<Field>)
    ensures EncodeFields(a + b + c + d) == EncodeFields(a) + EncodeFields(b) + EncodeFields(c) + EncodeFields(d)
  {
    EncodeAppend(a, b);
    EncodeAppend(a + b, c);
    EncodeAppend(a + b + c, d);
  }
}
