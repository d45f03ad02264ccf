/** What the request fingerprints hash.  A request is fed to the digest as a domain string
    followed by fields; the resulting byte string determines the request. */
module RequestFingerprint {
  import opened Common
  import opened Bytes
  import opened Sha256Spec
  import S = Sha256

  /** Lengths travel as C ints. */
  predicate CountOk(n: nat) {
    n <= INT32_MAX
  }

  datatype Field =
    | Word(value: int32)
    | Flag(set_: bool)
    | Wide(wide: uint64)
    | Counted(data: bytes)
    | Integers(values: seq<int32>)

  predicate FieldOk(f: Field) {
    match f
    case Counted(data) => CountOk(|data|)
    case Integers(values) => CountOk(|values|)
    case _ => true
  }

  lemma WideInjective(x: uint64, y: uint64)
    requires LittleEndian(x, 8) == LittleEndian(y, 8)
    ensures x == y
  {
    assert Pow256(8) == UINT64_MAX + 1;
    LittleEndianRoundTrip(x, 8);
    LittleEndianRoundTrip(y, 8);
  }

  // ---------------------------------------------------------------- fields

  function WordsOf(values: seq<int32>): (s: bytes)
    ensures |s| == 4 * |values|
  {
    if values == [] then [] else WordsOf(values[..|values| - 1]) + Le32(Unsigned32(values[|values| - 1]))
  }

  function EncodeField(f: Field): bytes {
    match f
    case Word(value) => Le32(Unsigned32(value))
    case Flag(b) => [if b then 1 else 0]
    case Wide(wide) => LittleEndian(wide, 8)
    case Counted(data) => Le32(|data|) + data
    case Integers(values) => Le32(|values|) + WordsOf(values)
  }

  function EncodeFields(fields: seq<Field>): bytes {
    if fields == [] then [] else EncodeField(fields[0]) + EncodeFields(fields[1..])
  }

  lemma {:induction false} WordsInjective(xs: seq<int32>, ys: seq<int32>)
    requires |xs| == |ys| && WordsOf(xs) == WordsOf(ys)
    ensures xs == ys
  {
    if xs != [] {
      var n := |xs| - 1;
      SplitEqual(WordsOf(xs[..n]), Le32(Unsigned32(xs[n])), WordsOf(ys[..n]), Le32(Unsigned32(ys[n])));
      WordsInjective(xs[..n], ys[..n]);
      WordInjective(xs[n], ys[n]);
      assert xs == xs[..n] + [xs[n]] && ys == ys[..n] + [ys[n]];
    }
  }

  /** A length prefix makes the field self-delimiting. */
  lemma CountedSplit(n: nat, a: bytes, s: bytes, m: nat, b: bytes, t: bytes, width: nat)
    requires CountOk(n) && CountOk(m) && |a| == width * n && |b| == width * m
    requires Le32(n) + a + s == Le32(m) + b + t
    ensures n == m && a == b && s == t
  {
    assert Le32(n) + a + s == Le32(n) + (a + s) && Le32(m) + b + t == Le32(m) + (b + t);
    SplitEqual(Le32(n), a + s, Le32(m), b + t);
    Le32Injective(n, m);
    SplitEqual(a, s, b, t);
  }

  lemma FieldInjective(f: Field, s: bytes, g: Field, t: bytes)
    requires FieldOk(f) && FieldOk(g) && Kind(f) == Kind(g)
    requires EncodeField(f) + s == EncodeField(g) + t
    ensures f == g && s == t
  {
    match f
    case Word(value) =>
      SplitEqual(EncodeField(f), s, EncodeField(g), t);
      WordInjective(value, g.value);
    case Flag(b) =>
      SplitEqual(EncodeField(f), s, EncodeField(g), t);
      assert EncodeField(f)[0] == EncodeField(g)[0];
    case Wide(wide) =>
      SplitEqual(EncodeField(f), s, EncodeField(g), t);
      WideInjective(wide, g.wide);
    case Counted(data) =>
      CountedSplit(|data|, data, s, |g.data|, g.data, t, 1);
    case Integers(values) =>
      CountedSplit(|values|, WordsOf(values), s, |g.values|, WordsOf(g.values), t, 4);
      WordsInjective(values, g.values);
  }

  /** Field lists of one layout are determined by their bytes. */
  lemma {:induction false} FieldsInjective(fs: seq<Field>, gs: seq<Field>)
    requires |fs| == |gs| && forall i :: 0 <= i < |fs| ==>
      FieldOk(fs[i]) && FieldOk(gs[i]) && Kind(fs[i]) == Kind(gs[i])
    requires EncodeFields(fs) == EncodeFields(gs)
    ensures fs == gs
  {
    hide EncodeField, FieldOk, Kind;
    if fs != [] {
      FieldInjective(fs[0], EncodeFields(fs[1..]), gs[0], EncodeFields(gs[1..]));
      FieldsInjective(fs[1..], gs[1..]);
      assert fs == [fs[0]] + fs[1..] && gs == [gs[0]] + gs[1..];
    }
  }

  // ---------------------------------------------------------------- requests

  datatype Caps = Caps(engineSteps: int32, forcedSteps: int32, observationBytes: int32)

  datatype Request =
    | Consequence(token: bytes, hiddenCounts: seq<int32>, hiddenValues: seq<int32>, worldCount: int32,
                  candidateCounts: seq<int32>, candidateValues: seq<int32>, candidateCount: int32,
                  rootPlayer: int32, manualCoin: bool, seed: uint64, maxCells: int32, caps: Caps)
    | Open(token: bytes, hiddenCounts: seq<int32>, hiddenValues: seq<int32>, worldCount: int32,
           candidateCounts: seq<int32>, candidateValues: seq<int32>, candidateCount: int32,
           rootPlayer: int32, manualCoin: bool, maxStateSlots: int32, caps: Caps)
    | Continue(generation: int32, parentSlots: seq<int32>, actionCounts: seq<int32>, actionValues: seq<int32>,
               caps: Caps)

  function Ascii(s: string): (r: bytes)
    ensures |r| == |s| && forall i :: 0 <= i < |s| ==> r[i] == ByteOf(s[i] as int)
  {
    seq(|s|, i requires 0 <= i < |s| => ByteOf(s[i] as int))
  }

  /** The domain strings end in an explicit NUL; the terminator C adds is not hashed. */
  function Domain(r: Request): bytes {
    match r
    case Consequence(_, _, _, _, _, _, _, _, _, _, _, _) => Ascii("ptcg-rl/native-consequence-request/v5") + [0]
    case Open(_, _, _, _, _, _, _, _, _, _, _) => Ascii("ptcg-rl/native-planning-session-open/v1") + [0]
    case Continue(_, _, _, _, _) => Ascii("ptcg-rl/native-planning-session-continue/v1") + [0]
  }

  predicate RequestOk(r: Request) {
    match r
    case Continue(_, slots, counts, values, _) => CountOk(|slots|) && CountOk(|counts|) && CountOk(|values|)
    case _ => CountOk(|r.token|) && CountOk(|r.hiddenCounts|) && CountOk(|r.hiddenValues|)
              && CountOk(|r.candidateCounts|) && CountOk(|r.candidateValues|)
  }

  function Fields(r: Request): seq<Field>
    requires RequestOk(r)
  {
    match r
    case Consequence(token, hc, hv, worlds, cc, cv, candidates, root, coin, seed, cells, caps) =>
      [Counted(token), Word(worlds), Word(candidates), Word(root), Word(cells), Word(caps.engineSteps),
       Word(caps.forcedSteps), Word(caps.observationBytes), Flag(coin), Wide(seed),
       Integers(hc), Integers(hv), Integers(cc), Integers(cv)]
    case Open(token, hc, hv, worlds, cc, cv, candidates, root, coin, slots, caps) =>
      [Counted(token), Word(worlds), Word(candidates), Word(root), Word(slots), Word(caps.engineSteps),
       Word(caps.forcedSteps), Word(caps.observationBytes), Flag(coin),
       Integers(hc), Integers(hv), Integers(cc), Integers(cv)]
    case Continue(generation, slots, counts, values, caps) =>
      [Word(generation), Word(|slots|), Word(caps.engineSteps), Word(caps.forcedSteps),
       Word(caps.observationBytes), Integers(slots), Integers(counts), Integers(values)]
  }

  /** The bytes a request feeds to the digest. */
  function Preimage(r: Request): bytes
    requires RequestOk(r)
  {
    Domain(r) + EncodeFields(Fields(r))
  }

  /** Where the domain strings first differ. */
  lemma DomainMarks(r: Request)
    ensures |Domain(r)| > 32
    ensures Domain(r)[15] == if r.Consequence? then 99 else 112
    ensures !r.Consequence? ==> Domain(r)[32] == if r.Open? then 111 else 99
  {
  }

  /** The domain strings separate the three kinds of request. */
  lemma KindsDisjoint(r: Request, q: Request)
    requires RequestOk(r) && RequestOk(q) && Preimage(r) == Preimage(q)
    ensures (r.Consequence? <==> q.Consequence?) && (r.Open? <==> q.Open?)
  {
    hide EncodeFields, Fields, Domain;
    DomainMarks(r);
    DomainMarks(q);
    assert Preimage(r)[15] == Domain(r)[15] && Preimage(q)[15] == Domain(q)[15];
    assert Preimage(r)[32] == Domain(r)[32] && Preimage(q)[32] == Domain(q)[32];
  }

  lemma FieldsLayout(r: Request)
    requires RequestOk(r)
    ensures forall i :: 0 <= i < |Fields(r)| ==> FieldOk(Fields(r)[i])
  {
  }

  function Kind(f: Field): nat {
    match f case Word(_) => 0 case Flag(_) => 1 case Wide(_) => 2 case Counted(_) => 3 case Integers(_) => 4
  }

  function Layout(r: Request): seq<nat> {
    match r
    case Consequence(_, _, _, _, _, _, _, _, _, _, _, _) => [3, 0, 0, 0, 0, 0, 0, 0, 1, 2, 4, 4, 4, 4]
    case Open(_, _, _, _, _, _, _, _, _, _, _) => [3, 0, 0, 0, 0, 0, 0, 0, 1, 4, 4, 4, 4]
    case Continue(_, _, _, _, _) => [0, 0, 0, 0, 0, 4, 4, 4]
  }

  lemma FieldsFollowLayout(r: Request)
    requires RequestOk(r)
    ensures |Fields(r)| == |Layout(r)|
    ensures forall i :: 0 <= i < |Fields(r)| ==> Kind(Fields(r)[i]) == Layout(r)[i]
  {
  }

  lemma SameLayout(r: Request, q: Request)
    requires RequestOk(r) && RequestOk(q)
    requires (r.Consequence? <==> q.Consequence?) && (r.Open? <==> q.Open?)
    ensures |Domain(r)| == |Domain(q)| && |Fields(r)| == |Fields(q)|
    ensures forall i :: 0 <= i < |Fields(r)| ==> Kind(Fields(r)[i]) == Kind(Fields(q)[i])
  {
    hide Fields, Kind;
    FieldsFollowLayout(r);
    FieldsFollowLayout(q);
  }

  /** Two requests that feed the same bytes to the digest are the same request. */
  lemma PreimageInjective(r: Request, q: Request)
    requires RequestOk(r) && RequestOk(q) && Preimage(r) == Preimage(q)
    ensures r == q
  {
    hide EncodeFields, Fields, FieldOk, Kind, Domain;
    KindsDisjoint(r, q);
    SameLayout(r, q);
    FieldsLayout(r);
    FieldsLayout(q);
    SplitEqual(Domain(r), EncodeFields(Fields(r)), Domain(q), EncodeFields(Fields(q)));
    FieldsInjective(Fields(r), Fields(q));
    FieldsDetermine(r, q);
  }

  lemma FieldsDetermine(r: Request, q: Request)
    requires RequestOk(r) && RequestOk(q) && Fields(r) == Fields(q)
    requires (r.Consequence? <==> q.Consequence?) && (r.Open? <==> q.Open?)
    ensures r == q
  {
    var f, g := Fields(r), Fields(q);
    assert forall i :: 0 <= i < |f| ==> f[i] == g[i];
    match r
    case Consequence(_, _, _, _, _, _, _, _, _, _, _, _) =>
      assert f[0] == g[0] && f[1] == g[1] && f[2] == g[2] && f[3] == g[3] && f[4] == g[4] && f[5] == g[5]
          && f[6] == g[6];
      assert f[7] == g[7] && f[8] == g[8] && f[9] == g[9] && f[10] == g[10] && f[11] == g[11] && f[12] == g[12]
          && f[13] == g[13];
    case Open(_, _, _, _, _, _, _, _, _, _, _) =>
      assert f[0] == g[0] && f[1] == g[1] && f[2] == g[2] && f[3] == g[3] && f[4] == g[4] && f[5] == g[5]
          && f[6] == g[6];
      assert f[7] == g[7] && f[8] == g[8] && f[9] == g[9] && f[10] == g[10] && f[11] == g[11] && f[12] == g[12];
    case Continue(_, _, _, _, _) =>
      assert f[0] == g[0] && f[1] == g[1] && f[2] == g[2] && f[3] == g[3] && f[4] == g[4];
      assert f[5] == g[5] && f[6] == g[6] && f[7] == g[7];
  }

  // ---------------------------------------------------------------- feeding the digest

  method UpdateLittleEndian32(digest: S.Sha256, x: nat)
    requires digest.Valid() && !digest.finalized
    modifies digest, digest.buffer
    ensures digest.Valid() && !digest.finalized && digest.message == old(digest.message) + Le32(x)
  {
    hide S.Sha256.Valid, Le32;
    var _ := digest.Update(Le32(x));
  }

  lemma WordsOfStep(values: seq<int32>, i: nat)
    requires i < |values|
    ensures WordsOf(values[..i + 1]) == WordsOf(values[..i]) + Le32(Unsigned32(values[i]))
  {
    assert values[..i + 1][..i] == values[..i];
  }

  method UpdateIntegers(digest: S.Sha256, values: seq<int32>)
    requires digest.Valid() && !digest.finalized && CountOk(|values|)
    modifies digest, digest.buffer
    ensures digest.Valid() && !digest.finalized
    ensures digest.message == old(digest.message) + EncodeField(Integers(values))
  {
    hide S.Sha256.Valid, Le32, WordsOf;
    UpdateLittleEndian32(digest, |values|);
    ghost var base := digest.message;
    assert WordsOf(values[..0]) == [];
    for index := 0 to |values|
      invariant digest.Valid() && !digest.finalized
      invariant digest.message == base + WordsOf(values[..index])
    {
      UpdateLittleEndian32(digest, Unsigned32(values[index]));
      WordsOfStep(values, index);
    }
    assert values[..|values|] == values;
  }

  method UpdateField(digest: S.Sha256, f: Field)
    requires digest.Valid() && !digest.finalized && FieldOk(f)
    modifies digest, digest.buffer
    ensures digest.Valid() && !digest.finalized
    ensures digest.message == old(digest.message) + EncodeField(f)
  {
    hide S.Sha256.Valid, LittleEndian, WordsOf;
    match f {
      case Word(value) => var _ := digest.Update(Le32(Unsigned32(value)));
      case Flag(b) => var _ := digest.Update([if b then 1 else 0]);
      case Wide(wide) => var _ := digest.Update(LittleEndian(wide, 8));
      case Counted(data) =>
        var _ := digest.Update(Le32(|data|));
        var _ := digest.Update(data);
      case Integers(values) => UpdateIntegers(digest, values);
    }
  }

  method UpdateFields(digest: S.Sha256, fields: seq<Field>)
    requires digest.Valid() && !digest.finalized && forall i :: 0 <= i < |fields| ==> FieldOk(fields[i])
    modifies digest, digest.buffer
    ensures digest.Valid() && !digest.finalized
    ensures digest.message == old(digest.message) + EncodeFields(fields)
  {
    hide S.Sha256.Valid, EncodeField, FieldOk;
    for index := 0 to |fields|
      invariant digest.Valid() && !digest.finalized
      invariant digest.message + EncodeFields(fields[index..]) == old(digest.message) + EncodeFields(fields)
    {
      UpdateField(digest, fields[index]);
      assert fields[index..][1..] == fields[index + 1..];
    }
  }

  /** The three fingerprint functions: the digest of the request's byte string. */
  method Fingerprint(r: Request) returns (digest: bytes)
    requires RequestOk(r)
    ensures digest == Digest(Preimage(r))
  {
    hide S.Sha256.Valid, Domain, Fields, EncodeFields, FieldOk, Digest;
    FieldsLayout(r);
    var hasher := new S.Sha256();
    var _ := hasher.Update(Domain(r));
    assert hasher.message == Domain(r);
    UpdateFields(hasher, Fields(r));
    var result := hasher.Finalize();
    digest := result.value;
  }
}
