/** TraversePublicState: zone after zone into a sink, the same code for counting and writing. */
module PublicTraversal {
  import opened Common
  import opened PublicState
  import opened PublicStateSink
  import opened PublicCompleteness

  function Frame(sink: Sink): set<object> {
    if sink.output == null then {sink} else {sink, sink.output.cards, sink.output.attachments}
  }

  /** Room for the whole is room for every first part of it. */
  lemma RoomForPrefix(sink: Sink, part: seq<Shown>, whole: seq<Shown>)
    requires part <= whole && sink.Room(whole)
    ensures sink.Room(part)
  {
    hide AttachmentRows;
    AttachmentsOfPrefix(part, whole, sink.cardBase);
  }

  /** Where a loop over a zone stands. */
  lemma ZoneStep(sink: Sink, before: seq<Shown>, zone: seq<Shown>, k: nat)
    requires k < |zone| && sink.Room(before + zone)
    ensures sink.Room(before + zone[..k] + [zone[k]]) && before + zone[..k] + [zone[k]] == before + zone[..k + 1]
  {
    hide sink.Room;
    assert before + zone[..k + 1] <= before + zone;
    assert before + zone[..k] + [zone[k]] == before + zone[..k + 1];
    RoomForPrefix(sink, before + zone[..k + 1], before + zone);
  }

  /** Active, bench and prize cards: hidden while face down. */
  method AppendFaceUp(sink: Sink, refs: seq<nat>, owner: int, area: int, pokemon: bool)
    requires sink.Valid() && sink.Room(sink.shown + FaceUp(sink.view, refs, owner, area, pokemon))
    modifies Frame(sink)
    ensures sink.Valid() && sink.shown == old(sink.shown) + FaceUp(sink.view, refs, owner, area, pokemon)
  {
    hide sink.Valid, sink.Room, Attached;
    ghost var before, zone := sink.shown, FaceUp(sink.view, refs, owner, area, pokemon);
    for index := 0 to |refs|
      invariant sink.Valid() && sink.shown == before + zone[..index]
    {
      ZoneStep(sink, before, zone, index);
      if sink.view.card(refs[index]).reverse && sink.view.selectPlayer != 2 {
        var _ := sink.AppendHiddenCard(owner, area, index);
      } else {
        var _ := sink.AppendCard(refs[index], area, index, pokemon, pokemon);
      }
    }
    assert zone[..|refs|] == zone;
  }

  method AppendPlain(sink: Sink, refs: seq<nat>, area: int)
    requires sink.Valid() && sink.Room(sink.shown + Plain(sink.view, refs, area))
    modifies Frame(sink)
    ensures sink.Valid() && sink.shown == old(sink.shown) + Plain(sink.view, refs, area)
  {
    hide sink.Valid, sink.Room;
    ghost var before, zone := sink.shown, Plain(sink.view, refs, area);
    for index := 0 to |refs|
      invariant sink.Valid() && sink.shown == before + zone[..index]
    {
      ZoneStep(sink, before, zone, index);
      var _ := sink.AppendCard(refs[index], area, index, false, false);
    }
    assert zone[..|refs|] == zone;
  }

  method AppendRedacted(sink: Sink, refs: seq<nat>, owner: int)
    requires sink.Valid() && sink.Room(sink.shown + Redacted(refs, owner))
    modifies Frame(sink)
    ensures sink.Valid() && sink.shown == old(sink.shown) + Redacted(refs, owner)
  {
    hide sink.Valid, sink.Room;
    ghost var before, zone := sink.shown, Redacted(refs, owner);
    for index := 0 to |refs|
      invariant sink.Valid() && sink.shown == before + zone[..index]
    {
      ZoneStep(sink, before, zone, index);
      var _ := sink.AppendHiddenCard(owner, LOOKING, index);
    }
    assert zone[..|refs|] == zone;
  }

  /** One more part of a whole laid out in order. */
  lemma NextPart(sink: Sink, before: seq<Shown>, done: seq<Shown>, part: seq<Shown>, whole: seq<Shown>)
    requires done + part <= whole && sink.Room(before + whole)
    ensures before + done + part == before + (done + part) && sink.Room(before + done + part)
  {
    hide sink.Room;
    ConcatAssociates(before, done, part);
    assert before + (done + part) <= before + whole;
    RoomForPrefix(sink, before + (done + part), before + whole);
  }

  method AppendSide(sink: Sink, i: int)
    requires sink.Valid() && sink.Room(sink.shown + Side(sink.view, i))
    modifies Frame(sink)
    ensures sink.Valid() && sink.shown == old(sink.shown) + Side(sink.view, i)
  {
    hide sink.Valid, sink.Room, FaceUp, Plain;
    var v, p := sink.view, PlayerAt(sink.view, i);
    ghost var before, whole := sink.shown, Side(v, i);
    ghost var s1 := FaceUp(v, p.active, i, ACTIVE, true);
    ghost var s2 := s1 + FaceUp(v, p.bench, i, BENCH, true);
    ghost var s3 := s2 + (if i == v.selectPlayer || v.selectPlayer == 2 then Plain(v, p.hand, HAND) else []);
    ghost var s4 := s3 + Plain(v, p.trash, DISCARD);
    assert whole == s4 + FaceUp(v, p.prize, i, PRIZE, false);
    assert s4 <= whole && s3 <= s4 && s2 <= s3 && s1 <= s2;
    NextPart(sink, before, [], s1, whole);
    assert [] + s1 == s1 && before + [] == before;
    AppendFaceUp(sink, p.active, i, ACTIVE, true);
    NextPart(sink, before, s1, FaceUp(v, p.bench, i, BENCH, true), whole);
    AppendFaceUp(sink, p.bench, i, BENCH, true);
    if i == v.selectPlayer || v.selectPlayer == 2 {
      NextPart(sink, before, s2, Plain(v, p.hand, HAND), whole);
      AppendPlain(sink, p.hand, HAND);
    } else {
      assert s3 == s2;
    }
    NextPart(sink, before, s3, Plain(v, p.trash, DISCARD), whole);
    AppendPlain(sink, p.trash, DISCARD);
    NextPart(sink, before, s4, FaceUp(v, p.prize, i, PRIZE, false), whole);
    AppendFaceUp(sink, p.prize, i, PRIZE, false);
  }

  method AppendLooking(sink: Sink) returns (mode: int)
    requires sink.Valid() && sink.Room(sink.shown + LookingCards(sink.view))
    modifies Frame(sink)
    ensures sink.Valid() && sink.shown == old(sink.shown) + LookingCards(sink.view) && mode == LookingMode(sink.view)
  {
    hide sink.Valid, sink.Room, Plain, Redacted;
    mode := LookingMode(sink.view);
    if mode == LOOKING_VISIBLE {
      AppendPlain(sink, sink.view.looking, LOOKING);
    } else if mode == LOOKING_REDACTED {
      AppendRedacted(sink, sink.view.looking, sink.view.selectPlayer);
    } else {
      assert sink.shown + [] == sink.shown;
    }
  }

  method AppendTable(sink: Sink) returns (mode: int)
    requires sink.Valid() && sink.Room(sink.shown + Table(sink.view)) && Traversable(sink.view)
    modifies Frame(sink)
    ensures sink.Valid() && sink.shown == old(sink.shown) + Table(sink.view) && mode == LookingMode(sink.view)
  {
    hide sink.Valid, sink.Room, Plain, Side, LookingCards, LookingMode;
    var v := sink.view;
    ghost var before, whole := sink.shown, Table(v);
    ghost var s1 := Side(v, First(v));
    ghost var s2 := s1 + Side(v, 1 - First(v));
    ghost var s3 := s2 + Plain(v, v.stadium, STADIUM);
    ghost var s4 := s3 + LookingCards(v);
    ghost var deck := if v.selectDeck then Plain(v, PlayerAt(v, v.selectPlayer).deck, DECK) else [];
    assert whole == s4 + deck;
    assert s4 <= whole && s3 <= s4 && s2 <= s3 && s1 <= s2;
    NextPart(sink, before, [], s1, whole);
    assert [] + s1 == s1 && before + [] == before;
    AppendSide(sink, First(v));
    NextPart(sink, before, s1, Side(v, 1 - First(v)), whole);
    AppendSide(sink, 1 - First(v));
    NextPart(sink, before, s2, Plain(v, v.stadium, STADIUM), whole);
    AppendPlain(sink, v.stadium, STADIUM);
    NextPart(sink, before, s3, LookingCards(v), whole);
    mode := AppendLooking(sink);
    if v.selectDeck {
      NextPart(sink, before, s4, deck, whole);
      AppendPlain(sink, PlayerAt(v, v.selectPlayer).deck, DECK);
    } else {
      assert whole == s4;
    }
  }

  /** The traversal shows exactly the visible cards, in order; the two virtual cards report
      the absolute rows they were given. */
  method TraversePublicState(sink: Sink) returns (mode: int, contextRow: Option<nat>, effectRow: Option<nat>)
    requires sink.Valid() && sink.shown == [] && sink.Room(Visible(sink.view)) && Traversable(sink.view)
    modifies Frame(sink)
    ensures sink.Valid() && sink.shown == Visible(sink.view) && mode == LookingMode(sink.view)
    ensures ShowsEverything(sink.view, sink.shown) && ModeMeans(sink.view, mode)
    ensures contextRow == ContextRow(sink.view, sink.cardBase) && effectRow == EffectRow(sink.view, sink.cardBase)
  {
    hide sink.Valid, sink.Room, Table, LookingMode, Traversable, ShowsEverything, ModeMeans;
    var v := sink.view;
    TraversalShows(v);
    ghost var whole := Visible(v);
    ghost var s2 := Table(v) + Virtual(v, v.contextCard, 0);
    assert whole == s2 + Virtual(v, v.effectCard, 1) && s2 <= whole && Table(v) <= s2;
    RoomForPrefix(sink, Table(v), whole);
    RoomForPrefix(sink, s2, whole);
    assert sink.shown + Table(v) == Table(v);
    mode := AppendTable(sink);
    contextRow, effectRow := None, None;
    if v.contextCard.Some? {
      var row := sink.AppendCard(v.contextCard.value, VIRTUAL, 0, false, false);
      contextRow := Some(row);
    } else {
      assert s2 == Table(v);
    }
    if v.effectCard.Some? {
      var row := sink.AppendCard(v.effectCard.value, VIRTUAL, 1, false, false);
      effectRow := Some(row);
    } else {
      assert whole == s2;
    }
  }

  lemma TraversalShows(v: View)
    ensures ShowsEverything(v, Visible(v)) && ModeMeans(v, LookingMode(v))
  {
    hide ShowsEverything, Visible, RowsIn;
    VisibleShowsEverything(v);
    AreasInOrder(v);
  }

  /** The absolute rows of the virtual cards, when there are any. */
  function ContextRow(v: View, cardBase: nat): Option<nat> {
    if v.contextCard.None? then None else Some(cardBase + |Table(v)|)
  }

  function EffectRow(v: View, cardBase: nat): Option<nat> {
    if v.effectCard.None? then None else Some(cardBase + |Table(v)| + |Virtual(v, v.contextCard, 0)|)
  }

  /** They point at the virtual cards and nothing else. */
  lemma VirtualRowsPoint(v: View)
    ensures ContextRow(v, 0).Some? ==>
      (ContextRow(v, 0).value < |Visible(v)|
       && Visible(v)[ContextRow(v, 0).value] == ShowCard(v, v.contextCard.value, VIRTUAL, 0, false, false))
    ensures EffectRow(v, 0).Some? ==>
      (EffectRow(v, 0).value == |Visible(v)| - 1
       && Visible(v)[EffectRow(v, 0).value] == ShowCard(v, v.effectCard.value, VIRTUAL, 1, false, false))
  {
    hide Table;
  }

  /** Counting is the traversal without an output. */
  method CountPublicState(v: View) returns (visibleCards: nat, attachments: nat)
    requires Traversable(v)
    ensures visibleCards == |Visible(v)| && attachments == |AttachmentRows(Visible(v), 0)|
  {
    hide Visible, Traversable;
    var sink := new Sink(v, null, 0, 0);
    var mode, contextRow, effectRow := TraversePublicState(sink);
    return sink.visibleCardOffset, sink.attachmentOffset;
  }
}
