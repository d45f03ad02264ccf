/** Rows running at the same time: any interleaving of their single writes leaves what running
    them one after the other leaves, because no two rows own a common location. */
module RowInterleaving {
  import opened Common
  import opened PublicState
  import opened PublicLogs
  import opened ArenaPlan
  import opened ArenaOutput
  import opened ArenaWrite
  import opened ArenaCommit

  // ---------------------------------------------------------------- single writes

  /** The locations a writing pass touches: cells of the output columns and slots of the lane. */
  datatype Location =
    | ScalarCell(row: nat) | OptionCell(index: nat) | CardCell(index: nat) | AttachmentCell(index: nat)
    | LogCell(index: nat) | GameOf(slot: nat) | TextOf(slot: nat)

  /** One value put into one location. */
  datatype Store =
    | PutScalars(row: nat, scalars: Scalars) | PutOption(index: nat, option: OptionRow)
    | PutCard(index: nat, card: CardRow)
    | PutAttachment(index: nat, attachment: AttachmentRow) | PutLog(index: nat, log: PublicLog)
    | PutGame(slot: nat, game: Option<BattleData>) | PutText(slot: nat, text: string)

  function At(s: Store): Location {
    match s
    case PutScalars(row, _) => ScalarCell(row)
    case PutOption(index, _) => OptionCell(index)
    case PutCard(index, _) => CardCell(index)
    case PutAttachment(index, _) => AttachmentCell(index)
    case PutLog(index, _) => LogCell(index)
    case PutGame(slot, _) => GameOf(slot)
    case PutText(slot, _) => TextOf(slot)
  }

  function PutAt<T>(s: seq<T>, i: nat, x: T): (t: seq<T>)
    ensures |t| == |s|
  {
    if i < |s| then s[i := x] else s
  }

  function Apply(c: Contents, s: Store): Contents {
    match s
    case PutScalars(row, x) => c.(scalars := PutAt(c.scalars, row, x))
    case PutOption(index, x) => c.(options := PutAt(c.options, index, x))
    case PutCard(index, x) => c.(cards := PutAt(c.cards, index, x))
    case PutAttachment(index, x) => c.(attachments := PutAt(c.attachments, index, x))
    case PutLog(index, x) => c.(logs := PutAt(c.logs, index, x))
    case PutGame(slot, x) => c.(slots := PutAt(c.slots, slot, x))
    case PutText(slot, x) => c.(observations := PutAt(c.observations, slot, x))
  }

  function ApplyAll(c: Contents, stores: seq<Store>): Contents {
    if stores == [] then c else Apply(ApplyAll(c, stores[..|stores| - 1]), stores[|stores| - 1])
  }

  lemma {:induction false} ApplyMore(c: Contents, a: seq<Store>, b: seq<Store>)
    ensures ApplyAll(c, a + b) == ApplyAll(ApplyAll(c, a), b)
  {
    hide Apply;
    if b == [] {
      assert a + b == a;
    } else {
      ApplyMore(c, a, b[..|b| - 1]);
      assert (a + b)[..|a + b| - 1] == a + b[..|b| - 1];
    }
  }

  /** What is in a location, as the write that would put it there. */
  function Read(c: Contents, at: Location): Option<Store> {
    match at
    case ScalarCell(row) => if row < |c.scalars| then Some(PutScalars(row, c.scalars[row])) else None
    case OptionCell(index) => if index < |c.options| then Some(PutOption(index, c.options[index])) else None
    case CardCell(index) => if index < |c.cards| then Some(PutCard(index, c.cards[index])) else None
    case AttachmentCell(index) =>
        if index < |c.attachments| then Some(PutAttachment(index, c.attachments[index])) else None
    case LogCell(index) => if index < |c.logs| then Some(PutLog(index, c.logs[index])) else None
    case GameOf(slot) => if slot < |c.slots| then Some(PutGame(slot, c.slots[slot])) else None
    case TextOf(slot) => if slot < |c.observations| then Some(PutText(slot, c.observations[slot])) else None
  }

  /** A write is read back where it was made, and nowhere else. */
  lemma ReadBack(c: Contents, s: Store, at: Location)
    ensures Read(Apply(c, s), at) == if At(s) == at && Read(c, at).Some? then Some(s) else Read(c, at)
  {
  }

  predicate SameSizes(a: Contents, b: Contents) {
    && |a.scalars| == |b.scalars| && |a.options| == |b.options| && |a.cards| == |b.cards|
    && |a.attachments| == |b.attachments| && |a.logs| == |b.logs| && |a.slots| == |b.slots|
    && |a.observations| == |b.observations|
  }

  /** Contents are what their locations hold. */
  lemma SameReads(a: Contents, b: Contents)
    requires SameSizes(a, b) && forall at :: Read(a, at) == Read(b, at)
    ensures a == b
  {
    forall i | 0 <= i < |a.scalars| ensures a.scalars[i] == b.scalars[i] {
      assert Read(a, ScalarCell(i)) == Read(b, ScalarCell(i));
    }
    forall i | 0 <= i < |a.options| ensures a.options[i] == b.options[i] {
      assert Read(a, OptionCell(i)) == Read(b, OptionCell(i));
    }
    forall i | 0 <= i < |a.cards| ensures a.cards[i] == b.cards[i] {
      assert Read(a, CardCell(i)) == Read(b, CardCell(i));
    }
    forall i | 0 <= i < |a.attachments| ensures a.attachments[i] == b.attachments[i] {
      assert Read(a, AttachmentCell(i)) == Read(b, AttachmentCell(i));
    }
    forall i | 0 <= i < |a.logs| ensures a.logs[i] == b.logs[i] {
      assert Read(a, LogCell(i)) == Read(b, LogCell(i));
    }
    forall i | 0 <= i < |a.slots| ensures a.slots[i] == b.slots[i] {
      assert Read(a, GameOf(i)) == Read(b, GameOf(i));
    }
    forall i | 0 <= i < |a.observations| ensures a.observations[i] == b.observations[i] {
      assert Read(a, TextOf(i)) == Read(b, TextOf(i));
    }
  }

  // ---------------------------------------------------------------- who owns what

  predicate Inside<T>(parts: seq<seq<T>>, r: nat, index: nat)
    requires r < |parts|
  {
    OffsetOf(parts, r) <= index < OffsetOf(parts, r + 1)
  }

  /** Row r may touch the location: its own scalar row, its planned stretches, its own slot. */
  predicate Owns(rows: seq<Row>, slots: seq<nat>, r: nat, at: Location) {
    && r < |rows| && r < |slots|
    && match at
       case ScalarCell(row) => row == r
       case OptionCell(index) => Inside(OptionParts(rows), r, index)
       case CardCell(index) => Inside(CardParts(rows), r, index)
       case AttachmentCell(index) => Inside(AttachmentParts(rows), r, index)
       case LogCell(index) => Inside(LogParts(rows), r, index)
       case GameOf(slot) => slot == slots[r]
       case TextOf(slot) => slot == slots[r]
  }

  lemma StretchesAreDisjoint<T>(parts: seq<seq<T>>, r: nat, q: nat, index: nat)
    requires r < |parts| && q < |parts| && Inside(parts, r, index) && Inside(parts, q, index)
    ensures r == q
  {
    if r < q {
      OffsetMonotone(parts, r + 1, q);
    } else if q < r {
      OffsetMonotone(parts, q + 1, r);
    }
  }

  lemma SameSlot(slots: seq<nat>, r: nat, q: nat)
    requires Distinct(slots) && r < |slots| && q < |slots|
    ensures slots[r] == slots[q] <==> r == q
  {
  }

  /** With unique slots no location has two owners. */
  lemma OwnersAreUnique(rows: seq<Row>, slots: seq<nat>, r: nat, q: nat, at: Location)
    requires Distinct(slots) && Owns(rows, slots, r, at) && Owns(rows, slots, q, at)
    ensures r == q
  {
    hide OptionParts, CardParts, AttachmentParts, LogParts, OffsetOf;
    match at
    case ScalarCell(row) =>
    case OptionCell(index) => StretchesAreDisjoint(OptionParts(rows), r, q, index);
    case CardCell(index) => StretchesAreDisjoint(CardParts(rows), r, q, index);
    case AttachmentCell(index) => StretchesAreDisjoint(AttachmentParts(rows), r, q, index);
    case LogCell(index) => StretchesAreDisjoint(LogParts(rows), r, q, index);
    case GameOf(slot) => SameSlot(slots, r, q);
    case TextOf(slot) => SameSlot(slots, r, q);
  }

  // ---------------------------------------------------------------- interleavings

  datatype Write = Write(row: nat, store: Store)

  /** Writes made one at a time, in whatever order the rows come to them. */
  function Run(c: Contents, writes: seq<Write>): Contents {
    if writes == [] then c else Apply(Run(c, writes[..|writes| - 1]), writes[|writes| - 1].store)
  }

  /** The writes of one row, in the order it made them. */
  function RowOf(writes: seq<Write>, r: nat): seq<Store> {
    if writes == [] then []
    else
      var last := writes[|writes| - 1];
      RowOf(writes[..|writes| - 1], r) + if last.row == r then [last.store] else []
  }

  ghost predicate Owned(rows: seq<Row>, slots: seq<nat>, writes: seq<Write>) {
    forall i :: 0 <= i < |writes| ==> Owns(rows, slots, writes[i].row, At(writes[i].store))
  }

  lemma {:induction false} RunKeepsSizes(c: Contents, writes: seq<Write>)
    ensures SameSizes(c, Run(c, writes))
  {
    if writes != [] {
      RunKeepsSizes(c, writes[..|writes| - 1]);
    }
  }

  /** A location sees only its owner's writes. */
  lemma {:induction false} OnlyTheOwner(rows: seq<Row>, slots: seq<nat>, c: Contents, writes: seq<Write>, r: nat,
                                        at: Location)
    requires Distinct(slots) && Owned(rows, slots, writes) && Owns(rows, slots, r, at)
    ensures Read(Run(c, writes), at) == Read(ApplyAll(c, RowOf(writes, r)), at)
    ensures Read(Run(c, writes), at).Some? <==> Read(c, at).Some?
  {
    hide Owns, Apply, Read;
    if writes != [] {
      var most, last := writes[..|writes| - 1], writes[|writes| - 1];
      OnlyTheOwner(rows, slots, c, most, r, at);
      ReadBack(Run(c, most), last.store, at);
      if last.row == r {
        ApplyMore(c, RowOf(most, r), [last.store]);
        ApplyOne(ApplyAll(c, RowOf(most, r)), last.store);
        ReadBack(ApplyAll(c, RowOf(most, r)), last.store, at);
      } else {
        assert RowOf(writes, r) == RowOf(most, r);
        if At(last.store) == at {
          OwnersAreUnique(rows, slots, r, last.row, at);
        }
      }
    }
  }

  lemma ApplyOne(c: Contents, s: Store)
    ensures ApplyAll(c, [s]) == Apply(c, s)
  {
    hide Apply;
    assert [s][..0] == [];
  }

  lemma {:induction false} Untouched(c: Contents, writes: seq<Write>, at: Location)
    requires forall i :: 0 <= i < |writes| ==> At(writes[i].store) != at
    ensures Read(Run(c, writes), at) == Read(c, at)
  {
    hide Apply, Read, At;
    if writes != [] {
      Untouched(c, writes[..|writes| - 1], at);
      ReadBack(Run(c, writes[..|writes| - 1]), writes[|writes| - 1].store, at);
    }
  }

  /** Two executions in which every row makes the same writes, however the rows interleave,
      end in the same contents; one of them may be the sequential one. */
  lemma InterleavingsAgree(rows: seq<Row>, slots: seq<nat>, c: Contents, a: seq<Write>, b: seq<Write>)
    requires Distinct(slots) && Owned(rows, slots, a) && Owned(rows, slots, b)
    requires forall r: nat :: r < |rows| ==> RowOf(a, r) == RowOf(b, r)
    ensures Run(c, a) == Run(c, b)
  {
    hide Owns, Read, At, SameSizes;
    forall at: Location ensures Read(Run(c, a), at) == Read(Run(c, b), at) {
      if r: nat :| r < |rows| && Owns(rows, slots, r, at) {
        OnlyTheOwner(rows, slots, c, a, r, at);
        OnlyTheOwner(rows, slots, c, b, r, at);
      } else {
        NobodyWrites(rows, slots, a, at);
        NobodyWrites(rows, slots, b, at);
        Untouched(c, a, at);
        Untouched(c, b, at);
      }
    }
    SizesAgree(c, a, b);
    SameReads(Run(c, a), Run(c, b));
  }

  lemma SizesAgree(c: Contents, a: seq<Write>, b: seq<Write>)
    ensures SameSizes(Run(c, a), Run(c, b))
  {
    RunKeepsSizes(c, a);
    RunKeepsSizes(c, b);
  }

  lemma NobodyWrites(rows: seq<Row>, slots: seq<nat>, writes: seq<Write>, at: Location)
    requires Owned(rows, slots, writes) && forall r: nat :: r < |rows| ==> !Owns(rows, slots, r, at)
    ensures forall i :: 0 <= i < |writes| ==> At(writes[i].store) != at
  {
    hide At;
    forall i | 0 <= i < |writes| ensures At(writes[i].store) != at {
      OwnerIsARow(rows, slots, writes[i].row, At(writes[i].store));
    }
  }

  lemma OwnerIsARow(rows: seq<Row>, slots: seq<nat>, r: nat, at: Location)
    requires Owns(rows, slots, r, at)
    ensures r < |rows|
  {
  }

  // ---------------------------------------------------------------- the writes of a row

  function OptionStores(values: seq<OptionRow>, base: nat): (stores: seq<Store>)
    ensures |stores| == |values|
  {
    seq(|values|, i requires 0 <= i < |values| => PutOption(base + i, values[i]))
  }

  function AttachmentStores(values: seq<AttachmentRow>, base: nat): (stores: seq<Store>)
    ensures |stores| == |values|
  {
    seq(|values|, i requires 0 <= i < |values| => PutAttachment(base + i, values[i]))
  }

  function LogStores(values: seq<PublicLog>, base: nat): (stores: seq<Store>)
    ensures |stores| == |values|
  {
    seq(|values|, i requires 0 <= i < |values| => PutLog(base + i, values[i]))
  }

  /** The traversal: each card is followed by its attachments. */
  function CardStores(shown: seq<Shown>, cardBase: nat, attachmentBase: nat): seq<Store> {
    if shown == [] then []
    else
      var n := |shown| - 1;
      CardStores(shown[..n], cardBase, attachmentBase) + [PutCard(cardBase + n, shown[n].card)]
        + AttachmentStores(Tags(shown[n].attached, cardBase + n),
                           attachmentBase + |AttachmentRows(shown[..n], cardBase)|)
  }

  /** What a successful row adds: its observation, its log delta and its moved cursors.  A row
      that cannot render its observation adds nothing. */
  function DeliveryStores(rows: seq<Row>, slots: seq<nat>, json: Renderer, r: nat): seq<Store>
    requires r < |rows| == |slots| && RowOk(rows[r]) && !CountThrows(rows[r])
  {
    if !IsSuccessfulOutput(rows[r]) || OutputThrows(rows[r], json) then []
    else
      [PutText(slots[r], json(rows[r].data.value).value)] + LogStores(LogParts(rows)[r], OffsetOf(LogParts(rows), r))
        + [PutGame(slots[r], AfterOutput(rows[r]))]
  }

  /** Everything the writing pass stores for one row, in the order it does so. */
  ghost function RowStores(rows: seq<Row>, slots: seq<nat>, json: Renderer, r: nat): seq<Store>
    requires r < |rows| == |slots| && RowOk(rows[r]) && !CountThrows(rows[r])
  {
    [PutScalars(r, BareScalars(rows[r]))]
      + OptionStores(OptionParts(rows)[r], OffsetOf(OptionParts(rows), r))
      + CardStores(VisibleOf(rows[r]), OffsetOf(CardParts(rows), r), OffsetOf(AttachmentParts(rows), r))
      + [PutScalars(r, ScalarsOf(rows[r], OffsetOf(CardParts(rows), r)))]
      + DeliveryStores(rows, slots, json, r)
  }

  // ---------------------------------------------------------------- their effect

  lemma {:induction false} OptionsApplied(c: Contents, values: seq<OptionRow>, base: nat)
    requires base + |values| <= |c.options|
    ensures ApplyAll(c, OptionStores(values, base)) == c.(options := Patch(c.options, base, values))
  {
    var stores := OptionStores(values, base);
    if values != [] {
      var n := |values| - 1;
      OptionsApplied(c, values[..n], base);
      assert stores[..n] == OptionStores(values[..n], base);
      PatchOne(c.options, base, values[..n], values[n]);
      assert values == values[..n] + [values[n]];
    }
  }

  lemma {:induction false} AttachmentsApplied(c: Contents, values: seq<AttachmentRow>, base: nat)
    requires base + |values| <= |c.attachments|
    ensures ApplyAll(c, AttachmentStores(values, base)) == c.(attachments := Patch(c.attachments, base, values))
  {
    var stores := AttachmentStores(values, base);
    if values != [] {
      var n := |values| - 1;
      AttachmentsApplied(c, values[..n], base);
      assert stores[..n] == AttachmentStores(values[..n], base);
      PatchOne(c.attachments, base, values[..n], values[n]);
      assert values == values[..n] + [values[n]];
    }
  }

  lemma {:induction false} LogsApplied(c: Contents, values: seq<PublicLog>, base: nat)
    requires base + |values| <= |c.logs|
    ensures ApplyAll(c, LogStores(values, base)) == c.(logs := Patch(c.logs, base, values))
  {
    var stores := LogStores(values, base);
    if values != [] {
      var n := |values| - 1;
      LogsApplied(c, values[..n], base);
      assert stores[..n] == LogStores(values[..n], base);
      PatchOne(c.logs, base, values[..n], values[n]);
      assert values == values[..n] + [values[n]];
    }
  }

  lemma PatchMore<T>(s: seq<T>, base: nat, a: seq<T>, b: seq<T>)
    requires base + |a| + |b| <= |s|
    ensures Patch(Patch(s, base, a), base + |a|, b) == Patch(s, base, a + b)
  {
  }

  lemma {:induction false} CardsApplied(c: Contents, shown: seq<Shown>, cardBase: nat, attachmentBase: nat)
    requires cardBase + |shown| <= |c.cards| && attachmentBase + |AttachmentRows(shown, cardBase)| <= |c.attachments|
    ensures ApplyAll(c, CardStores(shown, cardBase, attachmentBase))
      == c.(cards := Patch(c.cards, cardBase, CardRows(shown)),
            attachments := Patch(c.attachments, attachmentBase, AttachmentRows(shown, cardBase)))
  {
    hide Patch, Tags, Apply, AttachmentStores;
    if shown == [] {
      NoPatch(c.cards, cardBase);
      NoPatch(c.attachments, attachmentBase);
    } else {
      var n := |shown| - 1;
      var most, put := CardStores(shown[..n], cardBase, attachmentBase), PutCard(cardBase + n, shown[n].card);
      var tags, start := Tags(shown[n].attached, cardBase + n), attachmentBase + |AttachmentRows(shown[..n], cardBase)|;
      CardsApplied(c, shown[..n], cardBase, attachmentBase);
      ApplyMore(c, most, [put]);
      ApplyMore(c, most + [put], AttachmentStores(tags, start));
      CardApplied(c, ApplyAll(c, most), shown, cardBase, attachmentBase);
    }
  }

  /** One more card and its attachments. */
  lemma CardApplied(c: Contents, d: Contents, shown: seq<Shown>, cardBase: nat, attachmentBase: nat)
    requires shown != []
    requires cardBase + |shown| <= |c.cards| && attachmentBase + |AttachmentRows(shown, cardBase)| <= |c.attachments|
    requires var n := |shown| - 1;
      d == c.(cards := Patch(c.cards, cardBase, CardRows(shown[..n])),
              attachments := Patch(c.attachments, attachmentBase, AttachmentRows(shown[..n], cardBase)))
    ensures var n := |shown| - 1;
      ApplyAll(ApplyAll(d, [PutCard(cardBase + n, shown[n].card)]),
               AttachmentStores(Tags(shown[n].attached, cardBase + n),
                                attachmentBase + |AttachmentRows(shown[..n], cardBase)|))
      == c.(cards := Patch(c.cards, cardBase, CardRows(shown)),
            attachments := Patch(c.attachments, attachmentBase, AttachmentRows(shown, cardBase)))
  {
    hide Patch, Tags, ApplyAll, AttachmentStores;
    var n := |shown| - 1;
    var put, tags := PutCard(cardBase + n, shown[n].card), Tags(shown[n].attached, cardBase + n);
    var start := attachmentBase + |AttachmentRows(shown[..n], cardBase)|;
    ApplyOne(d, put);
    PatchOne(c.cards, cardBase, CardRows(shown[..n]), shown[n].card);
    assert CardRows(shown) == CardRows(shown[..n]) + [shown[n].card];
    AttachmentsApplied(Apply(d, put), tags, start);
    PatchMore(c.attachments, attachmentBase, AttachmentRows(shown[..n], cardBase), tags);
  }

  lemma NoPatch<T>(s: seq<T>, base: nat)
    requires base <= |s|
    ensures Patch(s, base, []) == s
  {
  }

  /** Running a row's writes alone is what the writing pass does for that row. */
  lemma RowApplied(c: Contents, rows: seq<Row>, slots: seq<nat>, json: Renderer, r: nat)
    requires r < |rows| == |slots| && slots[r] < |c.slots| == |c.observations| && r < |c.scalars|
    requires RowOk(rows[r]) && !CountThrows(rows[r]) && c.slots[slots[r]] == rows[r].data
    requires OffsetOf(OptionParts(rows), r) + |OptionParts(rows)[r]| <= |c.options|
    requires OffsetOf(CardParts(rows), r) + |CardParts(rows)[r]| <= |c.cards|
    requires OffsetOf(AttachmentParts(rows), r) + |AttachmentParts(rows)[r]| <= |c.attachments|
    requires OffsetOf(LogParts(rows), r) + |LogParts(rows)[r]| <= |c.logs|
    ensures ApplyAll(c, RowStores(rows, slots, json, r)) == WithRow(c, rows, slots, json, r)
  {
    hide OffsetOf, Visible, AttachmentRows, CardRows, Patch, CountThrows, RowOk, ScalarsOf, AfterOutput, Apply,
         ApplyAll, OutputThrows, ObservationOf,
         OptionStores, CardStores, DeliveryStores, OptionParts, LogParts, CardParts, AttachmentParts, LogsOf;
    var o, k, a := OffsetOf(OptionParts(rows), r), OffsetOf(CardParts(rows), r), OffsetOf(AttachmentParts(rows), r);
    CardPartsOf(rows, r);
    var options, cards := OptionStores(OptionParts(rows)[r], o), CardStores(VisibleOf(rows[r]), k, a);
    var bare, line := PutScalars(r, BareScalars(rows[r])), PutScalars(r, ScalarsOf(rows[r], k));
    ApplyOne(c, bare);
    PutLine(c, r, BareScalars(rows[r]));
    var c0 := Apply(c, bare);
    ApplyMore(c, [bare], options);
    OptionsApplied(c0, OptionParts(rows)[r], o);
    var c1 := ApplyAll(c0, options);
    ApplyMore(c, [bare] + options, cards);
    CardsApplied(c1, VisibleOf(rows[r]), k, a);
    var c2 := ApplyAll(c1, cards);
    ApplyMore(c, [bare] + options + cards, [line]);
    ApplyOne(c2, line);
    var c3 := Apply(c2, line);
    PutLine(c2, r, ScalarsOf(rows[r], k));
    ApplyMore(c, [bare] + options + cards + [line], DeliveryStores(rows, slots, json, r));
    DeliveryApplied(c3, rows, slots, json, r);
  }

  lemma PutLine(c: Contents, r: nat, x: Scalars)
    requires r < |c.scalars|
    ensures Apply(c, PutScalars(r, x)) == c.(scalars := c.scalars[r := x])
  {
  }

  lemma CardPartsOf(rows: seq<Row>, r: nat)
    requires r < |rows|
    ensures CardParts(rows)[r] == CardRows(VisibleOf(rows[r]))
    ensures AttachmentParts(rows)[r] == AttachmentRows(VisibleOf(rows[r]), OffsetOf(CardParts(rows), r))
  {
    hide CardRows, AttachmentRows, Visible;
  }

  lemma DeliveryApplied(c: Contents, rows: seq<Row>, slots: seq<nat>, json: Renderer, r: nat)
    requires r < |rows| == |slots| && slots[r] < |c.slots| == |c.observations|
    requires RowOk(rows[r]) && !CountThrows(rows[r]) && c.slots[slots[r]] == rows[r].data
    requires OffsetOf(LogParts(rows), r) + |LogParts(rows)[r]| <= |c.logs|
    ensures ApplyAll(c, DeliveryStores(rows, slots, json, r))
      == c.(logs := if OutputThrows(rows[r], json) then c.logs
                    else Patch(c.logs, OffsetOf(LogParts(rows), r), LogParts(rows)[r]),
            slots := if OutputThrows(rows[r], json) then c.slots else c.slots[slots[r] := AfterOutput(rows[r])],
            observations := c.observations[slots[r] := ObservationOf(rows[r], json, c.observations[slots[r]])])
  {
    hide OffsetOf, LogParts, CountThrows, RowOk, Patch, ApplyAll, LogStores, Unread;
    var parts, base := LogParts(rows), OffsetOf(LogParts(rows), r);
    if OutputThrows(rows[r], json) {
      ApplyNone(c);
      assert c.observations[slots[r] := c.observations[slots[r]]] == c.observations;
    } else if IsSuccessfulOutput(rows[r]) {
      var text, game := PutText(slots[r], json(rows[r].data.value).value), PutGame(slots[r], AfterOutput(rows[r]));
      var logs := LogStores(parts[r], base);
      ApplyMore(c, [text], logs);
      ApplyOne(c, text);
      LogsApplied(Apply(c, text), parts[r], base);
      ApplyMore(c, [text] + logs, [game]);
      ApplyOne(ApplyAll(c, [text] + logs), game);
    } else {
      NoLogs(rows, r);
      NoPatch(c.logs, base);
      ApplyNone(c);
      assert c.slots[slots[r] := c.slots[slots[r]]] == c.slots;
      assert c.observations[slots[r] := c.observations[slots[r]]] == c.observations;
    }
  }

  lemma ApplyNone(c: Contents)
    ensures ApplyAll(c, []) == c
  {
  }

  lemma NoLogs(rows: seq<Row>, r: nat)
    requires r < |rows| && !IsSuccessfulOutput(rows[r])
    ensures LogParts(rows)[r] == []
  {
    hide Unread;
  }

  // ---------------------------------------------------------------- and their owner

  ghost predicate AllOwned(rows: seq<Row>, slots: seq<nat>, r: nat, stores: seq<Store>) {
    forall i :: 0 <= i < |stores| ==> Owns(rows, slots, r, At(stores[i]))
  }

  lemma AllOwnedTogether(rows: seq<Row>, slots: seq<nat>, r: nat, a: seq<Store>, b: seq<Store>)
    requires AllOwned(rows, slots, r, a) && AllOwned(rows, slots, r, b)
    ensures AllOwned(rows, slots, r, a + b)
  {
    hide Owns, At;
  }

  lemma InsidePart<T>(parts: seq<seq<T>>, r: nat, i: nat)
    requires r < |parts| && i < |parts[r]|
    ensures Inside(parts, r, OffsetOf(parts, r) + i)
  {
    hide OffsetOf;
    OffsetStep(parts, r);
  }

  lemma OptionsOwned(rows: seq<Row>, slots: seq<nat>, r: nat)
    requires r < |rows| == |slots|
    ensures AllOwned(rows, slots, r, OptionStores(OptionParts(rows)[r], OffsetOf(OptionParts(rows), r)))
  {
    hide OffsetOf, OptionParts, Inside;
    var stores := OptionStores(OptionParts(rows)[r], OffsetOf(OptionParts(rows), r));
    forall i | 0 <= i < |stores| ensures Owns(rows, slots, r, At(stores[i])) {
      InsidePart(OptionParts(rows), r, i);
    }
  }

  lemma LogsOwned(rows: seq<Row>, slots: seq<nat>, r: nat)
    requires r < |rows| == |slots|
    ensures AllOwned(rows, slots, r, LogStores(LogParts(rows)[r], OffsetOf(LogParts(rows), r)))
  {
    hide OffsetOf, LogParts, Inside;
    var stores := LogStores(LogParts(rows)[r], OffsetOf(LogParts(rows), r));
    forall i | 0 <= i < |stores| ensures Owns(rows, slots, r, At(stores[i])) {
      InsidePart(LogParts(rows), r, i);
    }
  }

  lemma {:induction false} CardsOwned(rows: seq<Row>, slots: seq<nat>, r: nat, n: nat)
    requires r < |rows| == |slots| && n <= |VisibleOf(rows[r])|
    ensures AllOwned(rows, slots, r,
                     CardStores(VisibleOf(rows[r])[..n], OffsetOf(CardParts(rows), r),
                                OffsetOf(AttachmentParts(rows), r)))
  {
    hide OffsetOf, CardParts, AttachmentParts, VisibleOf, AttachmentRows, Tags, AllOwned, AttachmentStores;
    var shown, k, a := VisibleOf(rows[r]), OffsetOf(CardParts(rows), r), OffsetOf(AttachmentParts(rows), r);
    if n == 0 {
      NothingOwned(rows, slots, r);
    } else {
      CardsOwned(rows, slots, r, n - 1);
      assert shown[..n][..n - 1] == shown[..n - 1];
      var most := CardStores(shown[..n - 1], k, a);
      CardOwned(rows, slots, r, n - 1);
      AllOwnedTogether(rows, slots, r, most, [PutCard(k + (n - 1), shown[n - 1].card)]);
      TagsOwned(rows, slots, r, n - 1);
      AllOwnedTogether(rows, slots, r, most + [PutCard(k + (n - 1), shown[n - 1].card)],
                       AttachmentStores(Tags(shown[n - 1].attached, k + (n - 1)),
                                        a + |AttachmentRows(shown[..n - 1], k)|));
    }
  }

  lemma NothingOwned(rows: seq<Row>, slots: seq<nat>, r: nat)
    ensures AllOwned(rows, slots, r, [])
  {
  }

  lemma CardOwned(rows: seq<Row>, slots: seq<nat>, r: nat, i: nat)
    requires r < |rows| == |slots| && i < |VisibleOf(rows[r])|
    ensures AllOwned(rows, slots, r, [PutCard(OffsetOf(CardParts(rows), r) + i, VisibleOf(rows[r])[i].card)])
  {
    hide OffsetOf, CardParts, AttachmentParts, VisibleOf, Inside;
    CardPartsOf(rows, r);
    InsidePart(CardParts(rows), r, i);
  }

  lemma TagsOwned(rows: seq<Row>, slots: seq<nat>, r: nat, i: nat)
    requires r < |rows| == |slots| && i < |VisibleOf(rows[r])|
    ensures var shown, k, a := VisibleOf(rows[r]), OffsetOf(CardParts(rows), r), OffsetOf(AttachmentParts(rows), r);
      AllOwned(rows, slots, r, AttachmentStores(Tags(shown[i].attached, k + i), a + |AttachmentRows(shown[..i], k)|))
  {
    hide OffsetOf, CardParts, AttachmentParts, VisibleOf, Inside, AttachmentRows;
    var shown, k := VisibleOf(rows[r]), OffsetOf(CardParts(rows), r);
    CardPartsOf(rows, r);
    TagsFit(shown, k, i);
    var first := |AttachmentRows(shown[..i], k)|;
    var stores := AttachmentStores(Tags(shown[i].attached, k + i), OffsetOf(AttachmentParts(rows), r) + first);
    forall j | 0 <= j < |stores| ensures Owns(rows, slots, r, At(stores[j])) {
      InsidePart(AttachmentParts(rows), r, first + j);
    }
  }

  lemma TagsFit(shown: seq<Shown>, cardBase: nat, i: nat)
    requires i < |shown|
    ensures |AttachmentRows(shown[..i], cardBase)| + |shown[i].attached| <= |AttachmentRows(shown, cardBase)|
  {
    assert shown[..i + 1][..i] == shown[..i] && shown[..i + 1] <= shown;
    AttachmentsOfPrefix(shown[..i + 1], shown, cardBase);
  }

  /** Every write of a row is made in a location the row owns. */
  lemma RowOwned(rows: seq<Row>, slots: seq<nat>, json: Renderer, r: nat)
    requires r < |rows| == |slots| && RowOk(rows[r]) && !CountThrows(rows[r])
    ensures AllOwned(rows, slots, r, RowStores(rows, slots, json, r))
  {
    hide OffsetOf, OptionParts, CardParts, AttachmentParts, VisibleOf, CountThrows, RowOk, AllOwned, OptionStores,
         CardStores,
         DeliveryStores, ScalarsOf, BareScalars;
    var o, k, a := OffsetOf(OptionParts(rows), r), OffsetOf(CardParts(rows), r), OffsetOf(AttachmentParts(rows), r);
    var options, cards := OptionStores(OptionParts(rows)[r], o), CardStores(VisibleOf(rows[r]), k, a);
    var bare, line := PutScalars(r, BareScalars(rows[r])), PutScalars(r, ScalarsOf(rows[r], k));
    OwnOne(rows, slots, r, bare);
    OptionsOwned(rows, slots, r);
    AllOwnedTogether(rows, slots, r, [bare], options);
    CardsOwned(rows, slots, r, |VisibleOf(rows[r])|);
    assert VisibleOf(rows[r])[..|VisibleOf(rows[r])|] == VisibleOf(rows[r]);
    AllOwnedTogether(rows, slots, r, [bare] + options, cards);
    OwnOne(rows, slots, r, line);
    AllOwnedTogether(rows, slots, r, [bare] + options + cards, [line]);
    DeliveryOwned(rows, slots, json, r);
    AllOwnedTogether(rows, slots, r, [bare] + options + cards + [line], DeliveryStores(rows, slots, json, r));
  }

  lemma DeliveryOwned(rows: seq<Row>, slots: seq<nat>, json: Renderer, r: nat)
    requires r < |rows| == |slots| && RowOk(rows[r]) && !CountThrows(rows[r])
    ensures AllOwned(rows, slots, r, DeliveryStores(rows, slots, json, r))
  {
    hide OffsetOf, LogParts, CountThrows, RowOk, AllOwned, LogStores, AfterOutput;
    if IsSuccessfulOutput(rows[r]) && !OutputThrows(rows[r], json) {
      var text, game := PutText(slots[r], json(rows[r].data.value).value), PutGame(slots[r], AfterOutput(rows[r]));
      var logs := LogStores(LogParts(rows)[r], OffsetOf(LogParts(rows), r));
      OwnOne(rows, slots, r, text);
      LogsOwned(rows, slots, r);
      AllOwnedTogether(rows, slots, r, [text], logs);
      OwnOne(rows, slots, r, game);
      AllOwnedTogether(rows, slots, r, [text] + logs, [game]);
    } else {
      NothingOwned(rows, slots, r);
    }
  }

  lemma OwnOne(rows: seq<Row>, slots: seq<nat>, r: nat, s: Store)
    requires r < |rows| == |slots|
    requires At(s) == ScalarCell(r) || At(s) == TextOf(slots[r]) || At(s) == GameOf(slots[r])
    ensures AllOwned(rows, slots, r, [s])
  {
  }

  // ---------------------------------------------------------------- the parallel writing pass

  /** An execution of the parallel loop: the rows entered make their writes in their own order,
      interleaved in any way; a row that was skipped makes none. */
  ghost predicate Interleaves(writes: seq<Write>, rows: seq<Row>, slots: seq<nat>, json: Renderer, entered: set<nat>)
    requires |rows| == |slots| && forall i :: 0 <= i < |rows| ==> RowOk(rows[i]) && !CountThrows(rows[i])
  {
    && (forall i :: 0 <= i < |writes| ==> writes[i].row < |rows|)
    && forall r: nat :: r < |rows| ==>
         RowOf(writes, r) == if r in entered then RowStores(rows, slots, json, r) else []
  }

  function MadeBy(r: nat, stores: seq<Store>): (writes: seq<Write>)
    ensures |writes| == |stores|
  {
    seq(|stores|, i requires 0 <= i < |stores| => Write(r, stores[i]))
  }

  /** The rows entered among the first k, one after the other. */
  ghost function Sequential(rows: seq<Row>, slots: seq<nat>, json: Renderer, entered: set<nat>, k: nat): seq<Write>
    requires k <= |rows| == |slots| && forall i :: 0 <= i < |rows| ==> RowOk(rows[i]) && !CountThrows(rows[i])
  {
    if k == 0 then []
    else if k - 1 !in entered then Sequential(rows, slots, json, entered, k - 1)
    else Sequential(rows, slots, json, entered, k - 1) + MadeBy(k - 1, RowStores(rows, slots, json, k - 1))
  }

  lemma {:induction false} RunMadeBy(c: Contents, writes: seq<Write>, r: nat, stores: seq<Store>)
    ensures Run(c, writes + MadeBy(r, stores)) == ApplyAll(Run(c, writes), stores)
  {
    hide Apply;
    var all := writes + MadeBy(r, stores);
    if stores == [] {
      assert all == writes;
    } else {
      var n := |stores| - 1;
      RunMadeBy(c, writes, r, stores[..n]);
      assert all[..|all| - 1] == writes + MadeBy(r, stores[..n]);
    }
  }

  lemma {:induction false} RowOfMadeBy(writes: seq<Write>, r: nat, stores: seq<Store>, q: nat)
    ensures RowOf(writes + MadeBy(r, stores), q) == RowOf(writes, q) + if q == r then stores else []
  {
    var all := writes + MadeBy(r, stores);
    if stores == [] {
      assert all == writes;
    } else {
      var n := |stores| - 1;
      RowOfMadeBy(writes, r, stores[..n], q);
      assert all[..|all| - 1] == writes + MadeBy(r, stores[..n]);
      assert stores == stores[..n] + [stores[n]];
    }
  }

  lemma {:induction false} RowOfSequential(rows: seq<Row>, slots: seq<nat>, json: Renderer, entered: set<nat>, k: nat,
                                           q: nat)
    requires k <= |rows| == |slots| && forall i :: 0 <= i < |rows| ==> RowOk(rows[i]) && !CountThrows(rows[i])
    ensures RowOf(Sequential(rows, slots, json, entered, k), q)
         == if q < k && q in entered then RowStores(rows, slots, json, q) else []
    ensures RowsBelow(Sequential(rows, slots, json, entered, k), k)
  {
    hide RowStores, RowOk, CountThrows, RowOf, MadeBy, RowsBelow;
    if k == 0 {
      NoWrites(q);
    } else {
      RowOfSequential(rows, slots, json, entered, k - 1, q);
      var before := Sequential(rows, slots, json, entered, k - 1);
      if k - 1 in entered {
        var stores := RowStores(rows, slots, json, k - 1);
        RowOfMadeBy(before, k - 1, stores, q);
        RowsStayBelow(before, k - 1, stores);
      } else {
        RowsStayBelow(before, k - 1, []);
        assert before + MadeBy(k - 1, []) == before;
      }
    }
  }

  ghost predicate RowsBelow(writes: seq<Write>, k: nat) {
    forall i :: 0 <= i < |writes| ==> writes[i].row < k
  }

  lemma NoWrites(q: nat)
    ensures RowOf([], q) == [] && RowsBelow([], 0)
  {
  }

  lemma RowsStayBelow(before: seq<Write>, r: nat, stores: seq<Store>)
    requires RowsBelow(before, r)
    ensures RowsBelow(before + MadeBy(r, stores), r + 1)
  {
  }

  /** A write belongs to the list of its row. */
  lemma {:induction false} WriteIsListed(writes: seq<Write>, i: nat)
    requires i < |writes|
    ensures exists j :: 0 <= j < |RowOf(writes, writes[i].row)| && RowOf(writes, writes[i].row)[j] == writes[i].store
  {
    var n := |writes| - 1;
    var r := writes[i].row;
    if i == n {
      assert RowOf(writes, r)[|RowOf(writes, r)| - 1] == writes[i].store;
    } else {
      WriteIsListed(writes[..n], i);
      var j :| 0 <= j < |RowOf(writes[..n], r)| && RowOf(writes[..n], r)[j] == writes[i].store;
      assert RowOf(writes, r)[j] == writes[i].store;
    }
  }

  lemma InterleavingIsOwned(writes: seq<Write>, rows: seq<Row>, slots: seq<nat>, json: Renderer, entered: set<nat>)
    requires |rows| == |slots| && forall i :: 0 <= i < |rows| ==> RowOk(rows[i]) && !CountThrows(rows[i])
    requires Interleaves(writes, rows, slots, json, entered)
    ensures Owned(rows, slots, writes)
  {
    hide RowStores, RowOk, CountThrows, Owns, At;
    forall i | 0 <= i < |writes| ensures Owns(rows, slots, writes[i].row, At(writes[i].store)) {
      var r := writes[i].row;
      WriteIsListed(writes, i);
      RowOwned(rows, slots, json, r);
    }
  }

  /** One more row of the sequential execution. */
  lemma NextRowWrites(c0: Contents, c: Contents, rows: seq<Row>, slots: seq<nat>, json: Renderer, done: set<nat>,
                      r: nat)
    requires r < |rows| == |slots| && r !in done && BatchOk(rows, slots, c0.slots)
    requires Written(c0, c, rows, slots, json, done)
    ensures Written(c0, ApplyAll(c, RowStores(rows, slots, json, r)), rows, slots, json, done + {r})
  {
    hide RowStores, Written, RowOk, CountThrows, OffsetOf, OptionParts, CardParts, AttachmentParts, LogParts, WithRow,
         ApplyAll;
    WrittenRoom(c0, c, rows, slots, json, done, r);
    RowApplied(c, rows, slots, json, r);
    WrittenStep(c0, c, rows, slots, json, done, r);
  }

  lemma {:induction false} SequentialWrites(c0: Contents, rows: seq<Row>, slots: seq<nat>, json: Renderer,
                                            entered: set<nat>, k: nat)
    requires k <= |rows| == |slots| && BatchOk(rows, slots, c0.slots) && Written(c0, c0, rows, slots, json, {})
    ensures Written(c0, Run(c0, Sequential(rows, slots, json, entered, k)), rows, slots, json, AllRows(k) * entered)
  {
    hide RowStores, Written, RowOk, CountThrows, Distinct, Run, ApplyAll, AllRows, MadeBy;
    EnteredBelow(entered, k);
    if k == 0 {
      RunNothing(c0);
    } else {
      SequentialWrites(c0, rows, slots, json, entered, k - 1);
      if k - 1 in entered {
        var before := Sequential(rows, slots, json, entered, k - 1);
        RunMadeBy(c0, before, k - 1, RowStores(rows, slots, json, k - 1));
        NextRowWrites(c0, Run(c0, before), rows, slots, json, AllRows(k - 1) * entered, k - 1);
      }
    }
  }

  lemma RunNothing(c: Contents)
    ensures Run(c, []) == c
  {
  }

  lemma EnteredBelow(entered: set<nat>, k: nat)
    ensures AllRows(0) * entered == {}
    ensures k > 0 ==>
      && k - 1 !in AllRows(k - 1) * entered
      && AllRows(k) * entered
           == if k - 1 in entered then AllRows(k - 1) * entered + {k - 1} else AllRows(k - 1) * entered
  {
  }

  /** Every interleaving of the writes of the rows entered leaves those rows written, up to
      where they throw, and nothing else. */
  lemma InterleavingWrites(c0: Contents, writes: seq<Write>, rows: seq<Row>, slots: seq<nat>, json: Renderer,
                           entered: set<nat>)
    requires BatchOk(rows, slots, c0.slots) && Written(c0, c0, rows, slots, json, {}) && entered <= AllRows(|rows|)
    requires Interleaves(writes, rows, slots, json, entered)
    ensures Written(c0, Run(c0, writes), rows, slots, json, entered)
  {
    hide RowStores, Written, RowOk, CountThrows, Owned, Run, RowOf, Sequential;
    var sequential := Sequential(rows, slots, json, entered, |rows|);
    forall r: nat | r < |rows|
      ensures RowOf(sequential, r) == if r in entered then RowStores(rows, slots, json, r) else []
    {
      RowOfSequential(rows, slots, json, entered, |rows|, r);
    }
    RowOfSequential(rows, slots, json, entered, |rows|, 0);
    InterleavingIsOwned(writes, rows, slots, json, entered);
    InterleavingIsOwned(sequential, rows, slots, json, entered);
    InterleavingsAgree(rows, slots, c0, writes, sequential);
    SequentialWrites(c0, rows, slots, json, entered, |rows|);
    assert AllRows(|rows|) * entered == entered;
  }
}
