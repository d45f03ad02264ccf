/** The binary answer of a session call: eight header words, two fingerprints, fourteen
    words a row, then every row's observation, contiguous and in row order. */
module SessionPayload {
  import opened Common
  import opened Bytes
  import opened TransitionModel
  import opened SessionModel
  import opened SessionTransition
  import opened Wire

  const MAGIC := 0x31534745
  const PAYLOAD_VERSION := 5
  const METADATA_WIDTH: nat := 14
  const HEADER_BYTES: nat := 96

  datatype Payload = Payload(kind: int, generation: int, request: bytes, producer: bytes,
                             rows: seq<CellMetadata>, observations: bytes)

  // ---------------------------------------------------------------- rows

  function MetadataInts(c: CellMetadata): (v: seq<int>)
    ensures |v| == METADATA_WIDTH
  {
    [c.error, if c.rulesExact then 1 else 0, c.endpoint.Code(), c.rootPlayer, c.leafPlayer, c.leafContext,
     c.transitionSteps, c.forcedSteps, c.observationOffset, c.observationSize, c.result, c.leafSelectType,
     c.sessionGeneration, c.stateSlot]
  }

  function EndpointOf(code: int): Option<Endpoint> {
    match code
    case 0 => Some(Invalid)
    case 1 => Some(Terminal)
    case 2 => Some(SameSeatMain)
    case 3 => Some(TurnHandoff)
    case 4 => Some(RootStrategicPrompt)
    case 5 => Some(ChancePrompt)
    case _ => None
  }

  function CellOf(v: seq<int>): Option<CellMetadata>
    requires |v| == METADATA_WIDTH && AllFit(v)
  {
    if v[1] != 0 && v[1] != 1 then None
    else if EndpointOf(v[2]).None? then None
    else if v[6] < 0 || v[7] < 0 || v[8] < 0 || v[9] < 0 then None
    else
      Some(CellMetadata(v[0], v[1] == 1, EndpointOf(v[2]).value, v[3], v[4], v[5], v[6], v[7], v[8], v[9],
                        v[10], v[11], v[12], v[13]))
  }

  predicate RowFits(c: CellMetadata) {
    Fits(c.transitionSteps) && Fits(c.forcedSteps) && Fits(c.observationOffset) && Fits(c.observationSize)
    && Fits(c.sessionGeneration) && Fits(c.stateSlot)
  }

  lemma CellRoundTrip(c: CellMetadata)
    requires RowFits(c)
    ensures AllFit(MetadataInts(c)) && CellOf(MetadataInts(c)) == Some(c)
  {
    var v := MetadataInts(c);
    assert Fits(c.error) && Fits(c.rootPlayer) && Fits(c.leafPlayer) && Fits(c.leafContext) && Fits(c.result)
        && Fits(c.leafSelectType);
  }

  function EncodeRows(rows: seq<CellMetadata>): (b: bytes)
    ensures |b| == 56 * |rows|
  {
    if rows == [] then [] else Words(MetadataInts(rows[0])) + EncodeRows(rows[1..])
  }

  function DecodeRows(b: bytes, n: nat): Option<seq<CellMetadata>>
    requires |b| == 56 * n
  {
    if n == 0 then Some([])
    else
      var v := ReadWords(b[..56], METADATA_WIDTH);
      if !AllFit(v) then None
      else
        match (CellOf(v), DecodeRows(b[56..], n - 1))
        case (Some(c), Some(rest)) => Some([c] + rest)
        case _ => None
  }

  lemma {:induction false} RowsRoundTrip(rows: seq<CellMetadata>)
    requires forall i :: 0 <= i < |rows| ==> RowFits(rows[i])
    ensures DecodeRows(EncodeRows(rows), |rows|) == Some(rows)
  {
    hide MetadataInts, CellOf, Words, ReadWords, AllFit, RowFits;
    if rows != [] {
      var b := EncodeRows(rows);
      var v := MetadataInts(rows[0]);
      CellRoundTrip(rows[0]);
      RowsRoundTrip(rows[1..]);
      ReadWordsBack(v, []);
      assert b[..56] == Words(v) + [] && b[56..] == EncodeRows(rows[1..]);
      assert rows == [rows[0]] + rows[1..];
    }
  }

  // ---------------------------------------------------------------- the whole payload

  function HeaderInts(p: Payload): (v: seq<int>)
    ensures |v| == 8
  {
    [MAGIC, PAYLOAD_VERSION, p.kind, p.generation, |p.rows|, METADATA_WIDTH, |p.observations|, 0]
  }

  function Encode(p: Payload): bytes {
    Words(HeaderInts(p)) + p.request + p.producer + EncodeRows(p.rows) + p.observations
  }

  predicate PayloadFits(p: Payload) {
    && Fits(p.kind) && Fits(p.generation) && Fits(|p.rows|) && Fits(|p.observations|)
    && |p.request| == FINGERPRINT_BYTES && |p.producer| == FINGERPRINT_BYTES
    && forall i :: 0 <= i < |p.rows| ==> RowFits(p.rows[i])
  }

  /** Reading by the published layout. */
  function Decode(b: bytes): Option<Payload> {
    if |b| < HEADER_BYTES then None
    else
      var h := ReadWords(b[..32], 8);
      if h[0] != MAGIC || h[1] != PAYLOAD_VERSION || h[5] != METADATA_WIDTH || h[7] != 0 then None
      else if h[4] < 0 || h[6] < 0 || |b| != HEADER_BYTES + 56 * h[4] + h[6] then None
      else
        var end := HEADER_BYTES + 56 * h[4];
        match DecodeRows(b[HEADER_BYTES..end], h[4])
        case None => None
        case Some(rows) => Some(Payload(h[2], h[3], b[32..64], b[64..96], rows, b[end..]))
  }

  /** Every header word, fingerprint, metadata field and observation byte is recovered. */
  lemma PayloadRoundTrip(p: Payload)
    requires PayloadFits(p)
    ensures Decode(Encode(p)) == Some(p)
  {
    hide Words, ReadWords, EncodeRows, DecodeRows, RowFits;
    var header, rows := Words(HeaderInts(p)), EncodeRows(p.rows);
    assert AllFit(HeaderInts(p));
    ReadWordsBack(HeaderInts(p), []);
    RowsRoundTrip(p.rows);
    var b := Encode(p);
    FiveParts(header, p.request, p.producer, rows, p.observations);
    assert b[..32] == header + [];
  }

  // ---------------------------------------------------------------- rebasing

  function SliceOf(c: CellMetadata): Slice {
    Slice(c.observationOffset, c.observationSize)
  }

  function SlicesOf(rows: seq<CellMetadata>): (ss: seq<Slice>)
    ensures |ss| == |rows|
  {
    seq(|rows|, i requires 0 <= i < |rows| => SliceOf(rows[i]))
  }

  function Rebase(rows: seq<CellMetadata>): (rebased: seq<CellMetadata>)
    ensures |rebased| == |rows|
  {
    seq(|rows|, i requires 0 <= i < |rows| => rows[i].(observationOffset := Start(SlicesOf(rows), i)))
  }

  /** The rows a payload presents: all of them as they are, or in the order asked for. */
  function Ordered(metadata: seq<CellMetadata>, rowOrder: Option<seq<int>>): Option<seq<CellMetadata>> {
    match rowOrder
    case None => Some(metadata)
    case Some(order) =>
      if |order| != |metadata| || exists i :: 0 <= i < |order| && !(0 <= order[i] < |metadata|) then None
      else Some(seq(|order|, i requires 0 <= i < |order| => metadata[order[i]]))
  }

  function RebasedPayload(kind: int, generation: int, request: bytes, producer: bytes,
                          ordered: seq<CellMetadata>, scratch: bytes): Payload
    requires SlicesOk(scratch, SlicesOf(ordered))
  {
    Payload(kind, generation, request, producer, Rebase(ordered), Gather(scratch, SlicesOf(ordered)))
  }

  /** What a reader of the payload sees: the slices are contiguous in row order, they cover
      the blob, and row i carries exactly the bytes its scratch slice held. */
  lemma RebasedRowsTile(kind: int, generation: int, request: bytes, producer: bytes,
                        ordered: seq<CellMetadata>, scratch: bytes, i: nat)
    requires SlicesOk(scratch, SlicesOf(ordered)) && i < |ordered|
    ensures
      var p := RebasedPayload(kind, generation, request, producer, ordered, scratch);
      var end := p.rows[i].observationOffset + p.rows[i].observationSize;
      && p.rows[i] == ordered[i].(observationOffset := p.rows[i].observationOffset)
      && p.rows[0].observationOffset == 0
      && end == (if i + 1 < |p.rows| then p.rows[i + 1].observationOffset else |p.observations|)
      && end <= |p.observations|
      && p.observations[p.rows[i].observationOffset..end] == Piece(scratch, SliceOf(ordered[i]))
  {
    hide Start, Gather, SlicesOk, Piece, Rebase, SlicesOf, SliceOf;
    StartOfAll(ordered, scratch);
    GatherTiles(scratch, SlicesOf(ordered), i);
    RebaseAt(ordered, 0);
    RebaseAt(ordered, i);
    if i + 1 < |ordered| {
      RebaseAt(ordered, i + 1);
    }
  }

  lemma StartOfAll(rows: seq<CellMetadata>, scratch: bytes)
    requires SlicesOk(scratch, SlicesOf(rows))
    ensures Start(SlicesOf(rows), 0) == 0 && |Gather(scratch, SlicesOf(rows))| == Start(SlicesOf(rows), |rows|)
  {
    GatherLength(scratch, SlicesOf(rows));
  }

  lemma RebaseAt(rows: seq<CellMetadata>, i: nat)
    requires i < |rows|
    ensures Rebase(rows)[i] == rows[i].(observationOffset := Start(SlicesOf(rows), i))
    ensures SlicesOf(rows)[i] == SliceOf(rows[i]) && SliceOf(rows[i]).size == rows[i].observationSize
  {
    hide Start;
  }

  // ---------------------------------------------------------------- the builder

  method OrderRows(metadata: seq<CellMetadata>, rowOrder: Option<seq<int>>) returns (ordered: Option<seq<CellMetadata>>)
    ensures ordered == Ordered(metadata, rowOrder)
  {
    if rowOrder.None? {
      return Some(metadata);
    }
    var order := rowOrder.value;
    if |order| != |metadata| {
      return None;
    }
    var rows: seq<CellMetadata> := [];
    for k := 0 to |order|
      invariant |rows| == k
      invariant forall i :: 0 <= i < k ==> 0 <= order[i] < |metadata| && rows[i] == metadata[order[i]]
    {
      if order[k] < 0 || order[k] >= |metadata| {
        return None;
      }
      rows := rows + [metadata[order[k]]];
    }
    assert rows == Ordered(metadata, rowOrder).value;
    return Some(rows);
  }

  /** The rebasing loop; None when a row's slice lies outside the scratch buffer. */
  method RebaseRows(ordered: seq<CellMetadata>, scratch: bytes)
    returns (ok: bool, rows: seq<CellMetadata>, observations: bytes)
    ensures ok <==> SlicesOk(scratch, SlicesOf(ordered))
    ensures ok ==> rows == Rebase(ordered) && observations == Gather(scratch, SlicesOf(ordered))
  {
    hide Gather, Start, SlicesOk;
    ghost var ss := SlicesOf(ordered);
    rows, observations := ordered, [];
    GatherNothing(scratch, ss);
    for k := 0 to |ordered|
      invariant |rows| == |ordered|
      invariant SlicesOk(scratch, ss[..k]) && observations == Gather(scratch, ss[..k])
      invariant forall i :: 0 <= i < k ==> rows[i] == ordered[i].(observationOffset := Start(ss, i))
      invariant forall i :: k <= i < |ordered| ==> rows[i] == ordered[i]
    {
      var cell := ordered[k];
      GatherStep(scratch, ss, k);
      rows := rows[k := cell.(observationOffset := |observations|)];
      if cell.observationSize > 0 {
        if cell.observationOffset < 0 || cell.observationOffset + cell.observationSize > |scratch| {
          return false, rows, observations;
        }
        observations := observations + scratch[cell.observationOffset..cell.observationOffset + cell.observationSize];
      }
    }
    assert ss[..|ordered|] == ss && rows == Rebase(ordered);
    return true, rows, observations;
  }

  method BuildPayload(kind: int, generation: int, request: bytes, producer: bytes, metadata: seq<CellMetadata>,
                      scratch: bytes, rowOrder: Option<seq<int>>) returns (payload: Option<bytes>)
    ensures payload.None? <==>
      Ordered(metadata, rowOrder).None? || !SlicesOk(scratch, SlicesOf(Ordered(metadata, rowOrder).value))
    ensures payload.Some? ==>
      payload.value == Encode(RebasedPayload(kind, generation, request, producer, Ordered(metadata, rowOrder).value,
                                             scratch))
  {
    hide Words, Rebase, Gather, SlicesOf, MetadataInts;
    var ordered := OrderRows(metadata, rowOrder);
    if ordered.None? {
      return None;
    }
    var ok, rows, observations := RebaseRows(ordered.value, scratch);
    if !ok {
      return None;
    }
    var output: bytes := AppendInts([],
                                    [MAGIC, PAYLOAD_VERSION, kind, generation, |rows|, METADATA_WIDTH, |observations|,
                                     0]);
    output := output + request + producer;
    ghost var start := output;
    for k := 0 to |rows|
      invariant output == start + EncodeRows(rows[..k])
    {
      output := AppendInts(output, MetadataInts(rows[k]));
      EncodeOneMore(rows[..k], rows[k]);
      assert rows[..k + 1] == rows[..k] + [rows[k]];
    }
    assert rows[..|rows|] == rows;
    output := output + observations;
    return Some(output);
  }

  lemma {:induction false} EncodeOneMore(rows: seq<CellMetadata>, c: CellMetadata)
    ensures EncodeRows(rows + [c]) == EncodeRows(rows) + Words(MetadataInts(c))
  {
    hide Words, MetadataInts;
    if rows == [] {
      assert [c][1..] == [] && [] + [c] == [c];
    } else {
      EncodeOneMore(rows[1..], c);
      assert (rows + [c])[1..] == rows[1..] + [c] && (rows + [c])[0] == rows[0];
      ConcatAssociates(Words(MetadataInts(rows[0])), EncodeRows(rows[1..]), Words(MetadataInts(c)));
    }
  }
}
