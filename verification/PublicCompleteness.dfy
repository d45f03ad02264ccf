/** Nothing a seat may see is missing: area by area, the rows of the traversal are exactly the cards
    of the zones, read off the zones themselves. */
module PublicCompleteness {
  import opened Common
  import opened PublicState

  /** The rows of one area, in output order. */
  function RowsIn(shown: seq<Shown>, area: int): seq<Shown> {
    if shown == [] then []
    else (if shown[0].card.area == area then [shown[0]] else []) + RowsIn(shown[1..], area)
  }

  // ---------------------------------------------------------------- cards, zone by zone

  /** The cards of a zone that lie under a Pokemon: those that moved when it did. */
  function Under(v: View, refs: seq<nat>, pokemon: nat): seq<nat> {
    if refs == [] then []
    else
      (if v.card(refs[0]).attachMoveCounter == v.card(pokemon).moveCounter then [refs[0]] else [])
        + Under(v, refs[1..], pokemon)
  }

  /** Everything under a Pokemon: energy with its kind and worth, then tools, then what it evolved from. */
  function AllUnder(v: View, pokemon: nat): seq<Tag> {
    var owner := if v.card(pokemon).owner == 1 then v.player1 else v.player0;
    var energy, tools := Under(v, owner.energy, pokemon), Under(v, owner.tool, pokemon);
    var past := Under(v, owner.preEvolution, pokemon);
    EnergyTags(v, energy, pokemon) + OtherTags(v, tools, 2) + OtherTags(v, past, 3)
  }

  function EnergyTags(v: View, refs: seq<nat>, pokemon: nat): seq<Tag> {
    seq(|refs|, i requires 0 <= i < |refs| =>
      Tag(1, v.card(refs[i]).id, refs[i], v.energyInfo(refs[i], pokemon).kind, v.energyInfo(refs[i], pokemon).count))
  }

  function OtherTags(v: View, refs: seq<nat>, kind: int): seq<Tag> {
    seq(|refs|, i requires 0 <= i < |refs| => Tag(kind, v.card(refs[i]).id, refs[i], -1, 0))
  }

  /** A zone all of whose cards lie open. */
  function OpenZone(v: View, refs: seq<nat>, area: int): seq<Shown> {
    seq(|refs|, i requires 0 <= i < |refs| =>
      Shown(CardRow(v.card(refs[i]).owner, area, i, v.card(refs[i]).id, refs[i], 0, 0, 0), []))
  }

  /** A place whose card may not be seen. */
  function Blank(owner: int, area: int, index: int): Shown {
    Shown(CardRow(owner, area, index, 0, 0, 0, 0, 0), [])
  }

  /** A zone of Pokemon: a face-down one is blank, a face-up one shows its hit points and what is under
      it. */
  function PokemonZone(v: View, refs: seq<nat>, owner: int, area: int): seq<Shown> {
    seq(|refs|, i requires 0 <= i < |refs| =>
      var c := v.card(refs[i]);
      if c.reverse && v.selectPlayer != 2 then Blank(owner, area, i)
      else Shown(CardRow(c.owner, area, i, c.id, refs[i], c.hp, c.maxHp, if c.appear then 1 else 0),
                 AllUnder(v, refs[i])))
  }

  function PrizeZone(v: View, refs: seq<nat>, owner: int): seq<Shown> {
    seq(|refs|, i requires 0 <= i < |refs| =>
      var c := v.card(refs[i]);
      if c.reverse && v.selectPlayer != 2 then Blank(owner, 6, i)
      else Shown(CardRow(c.owner, 6, i, c.id, refs[i], 0, 0, 0), []))
  }

  // ---------------------------------------------------------------- the law

  /** What each area must show, from the zones alone.  The seat to move comes first; 2 sees all. */
  ghost predicate ShowsEverything(v: View, shown: seq<Shown>) {
    var seat := v.selectPlayer;
    var swapped := seat == 1;
    var p, q := if swapped then v.player1 else v.player0, if swapped then v.player0 else v.player1;
    var i, j := if swapped then 1 else 0, if swapped then 0 else 1;
    && RowsIn(shown, 4) == PokemonZone(v, p.active, i, 4) + PokemonZone(v, q.active, j, 4)
    && RowsIn(shown, 5) == PokemonZone(v, p.bench, i, 5) + PokemonZone(v, q.bench, j, 5)
    && RowsIn(shown, 2) == (if seat == 0 || seat == 1 then OpenZone(v, p.hand, 2)
                            else if seat == 2 then OpenZone(v, p.hand, 2) + OpenZone(v, q.hand, 2) else [])
    && RowsIn(shown, 3) == OpenZone(v, p.trash, 3) + OpenZone(v, q.trash, 3)
    && RowsIn(shown, 6) == PrizeZone(v, p.prize, i) + PrizeZone(v, q.prize, j)
    && RowsIn(shown, 7) == OpenZone(v, v.stadium, 7)
    && RowsIn(shown, 12) == (if v.lookingPlayer == seat || v.lookingPlayer == 2 || seat == 2 then
                               OpenZone(v, v.looking, 12)
                             else if v.lookingPlayer >= 3 && v.lookingPlayer == seat + 3 then
                               seq(|v.looking|, k => Blank(seat, 12, k))
                             else [])
    && RowsIn(shown, 1) == (if v.selectDeck then OpenZone(v, if seat == 1 then v.player1.deck else v.player0.deck, 1)
                            else [])
    && RowsIn(shown, 0) == VirtualRows(v)
    && forall k :: 0 <= k < |shown| ==> shown[k].card.area in {0, 1, 2, 3, 4, 5, 6, 7, 12}
  }

  /** The card a prompt is about and the card whose effect is running, beside the table. */
  function VirtualRows(v: View): seq<Shown> {
    (match v.contextCard
     case None => []
     case Some(ref) => [Shown(CardRow(v.card(ref).owner, 0, 0, v.card(ref).id, ref, 0, 0, 0), [])])
    + (match v.effectCard
       case None => []
       case Some(ref) => [Shown(CardRow(v.card(ref).owner, 0, 1, v.card(ref).id, ref, 0, 0, 0), [])])
  }

  // ---------------------------------------------------------------- filtering

  predicate AllIn(zone: seq<Shown>, area: int) {
    forall k :: 0 <= k < |zone| ==> zone[k].card.area == area
  }

  lemma {:induction false} RowsOfZone(zone: seq<Shown>, own: int, area: int)
    requires AllIn(zone, own)
    ensures RowsIn(zone, area) == if own == area then zone else []
  {
    if zone != [] {
      RowsOfZone(zone[1..], own, area);
    }
  }

  lemma {:induction false} RowsAppend(a: seq<Shown>, b: seq<Shown>, area: int)
    ensures RowsIn(a + b, area) == RowsIn(a, area) + RowsIn(b, area)
  {
    hide RowsIn;
    if a == [] {
      NoRows(area);
      assert a + b == b;
    } else {
      RowsAppend(a[1..], b, area);
      FirstRow(a, area);
      FirstRow(a + b, area);
      assert (a + b)[1..] == a[1..] + b;
      ConcatAssociates(if a[0].card.area == area then [a[0]] else [], RowsIn(a[1..], area), RowsIn(b, area));
    }
  }

  lemma NoRows(area: int)
    ensures RowsIn([], area) == []
  {
  }

  lemma FirstRow(shown: seq<Shown>, area: int)
    requires shown != []
    ensures RowsIn(shown, area) == (if shown[0].card.area == area then [shown[0]] else []) + RowsIn(shown[1..], area)
  {
  }

  // ---------------------------------------------------------------- zones

  lemma {:induction false} UnderAppend(v: View, a: seq<nat>, b: seq<nat>, pokemon: nat)
    ensures Under(v, a + b, pokemon) == Under(v, a, pokemon) + Under(v, b, pokemon)
  {
    hide Under;
    if a == [] {
      NothingUnder(v, pokemon);
      assert a + b == b;
    } else {
      UnderAppend(v, a[1..], b, pokemon);
      FirstUnder(v, a, pokemon);
      FirstUnder(v, a + b, pokemon);
      assert (a + b)[1..] == a[1..] + b;
      ConcatAssociates(if v.card(a[0]).attachMoveCounter == v.card(pokemon).moveCounter then [a[0]] else [],
                       Under(v, a[1..], pokemon), Under(v, b, pokemon));
    }
  }

  lemma NothingUnder(v: View, pokemon: nat)
    ensures Under(v, [], pokemon) == []
  {
  }

  lemma FirstUnder(v: View, refs: seq<nat>, pokemon: nat)
    requires refs != []
    ensures Under(v, refs, pokemon)
         == (if v.card(refs[0]).attachMoveCounter == v.card(pokemon).moveCounter then [refs[0]] else [])
              + Under(v, refs[1..], pokemon)
  {
  }

  lemma TagsUnder(v: View, refs: seq<nat>, pokemon: nat, kind: int)
    ensures var under := Under(v, refs, pokemon);
      && |TagsOf(v, refs, pokemon, kind)| == |under|
      && (forall i :: 0 <= i < |under| ==> TagsOf(v, refs, pokemon, kind)[i] == TagOf(v, under[i], pokemon, kind))
      && (kind == 1 ==> TagsOf(v, refs, pokemon, kind) == EnergyTags(v, under, pokemon))
      && (kind != 1 ==> TagsOf(v, refs, pokemon, kind) == OtherTags(v, under, kind))
  {
    TagsOneByOne(v, refs, pokemon, kind);
    hide TagsOf, Under;
  }

  lemma {:induction false} TagsOneByOne(v: View, refs: seq<nat>, pokemon: nat, kind: int)
    ensures var under := Under(v, refs, pokemon);
      && |TagsOf(v, refs, pokemon, kind)| == |under|
      && forall i :: 0 <= i < |under| ==> TagsOf(v, refs, pokemon, kind)[i] == TagOf(v, under[i], pokemon, kind)
  {
    hide TagOf;
    if refs != [] {
      var n := |refs| - 1;
      TagsOneByOne(v, refs[..n], pokemon, kind);
      UnderAppend(v, refs[..n], [refs[n]], pokemon);
      assert refs == refs[..n] + [refs[n]];
      assert [refs[n]][1..] == [];
    }
  }

  lemma AttachedIsUnder(v: View, pokemon: nat)
    ensures Attached(v, pokemon) == AllUnder(v, pokemon)
  {
    hide TagsOf, Under, EnergyTags, OtherTags;
    var owner := PlayerAt(v, v.card(pokemon).owner);
    TagsUnder(v, owner.energy, pokemon, ENERGY);
    TagsUnder(v, owner.tool, pokemon, TOOL);
    TagsUnder(v, owner.preEvolution, pokemon, PRE_EVOLUTION);
  }

  lemma PlainIsOpen(v: View, refs: seq<nat>, area: int)
    ensures Plain(v, refs, area) == OpenZone(v, refs, area) && AllIn(OpenZone(v, refs, area), area)
  {
    hide Attached;
  }

  lemma FaceUpIsPokemon(v: View, refs: seq<nat>, owner: int, area: int)
    ensures FaceUp(v, refs, owner, area, true) == PokemonZone(v, refs, owner, area)
    ensures AllIn(PokemonZone(v, refs, owner, area), area)
  {
    hide Attached, AllUnder;
    forall i | 0 <= i < |refs| ensures FaceUp(v, refs, owner, area, true)[i] == PokemonZone(v, refs, owner, area)[i] {
      AttachedIsUnder(v, refs[i]);
    }
  }

  lemma FaceUpIsPrize(v: View, refs: seq<nat>, owner: int)
    ensures FaceUp(v, refs, owner, PRIZE, false) == PrizeZone(v, refs, owner) && AllIn(PrizeZone(v, refs, owner), PRIZE)
  {
    hide Attached;
  }

  /** One side of the table, area by area. */
  lemma SideRows(v: View, i: int, area: int)
    requires i == 0 || i == 1
    ensures var p := if i == 1 then v.player1 else v.player0;
      RowsIn(Side(v, i), area) ==
        if area == 4 then PokemonZone(v, p.active, i, 4)
        else if area == 5 then PokemonZone(v, p.bench, i, 5)
        else if area == 2 then (if i == v.selectPlayer || v.selectPlayer == 2 then OpenZone(v, p.hand, 2) else [])
        else if area == 3 then OpenZone(v, p.trash, 3)
        else if area == 6 then PrizeZone(v, p.prize, i)
        else []
  {
    hide RowsIn, OpenZone, PokemonZone, PrizeZone, FaceUp, Plain, AllIn;
    var p := PlayerAt(v, i);
    var hand := if i == v.selectPlayer || v.selectPlayer == 2 then Plain(v, p.hand, HAND) else [];
    FaceUpIsPokemon(v, p.active, i, ACTIVE);
    FaceUpIsPokemon(v, p.bench, i, BENCH);
    FaceUpIsPrize(v, p.prize, i);
    PlainIsOpen(v, p.hand, HAND);
    PlainIsOpen(v, p.trash, DISCARD);
    NoneIn(HAND);
    SideOf(FaceUp(v, p.active, i, ACTIVE, true), FaceUp(v, p.bench, i, BENCH, true), hand,
           Plain(v, p.trash, DISCARD), FaceUp(v, p.prize, i, PRIZE, false), area);
  }

  lemma SideOf(active: seq<Shown>, bench: seq<Shown>, hand: seq<Shown>, trash: seq<Shown>, prize: seq<Shown>, area: int)
    requires AllIn(active, 4) && AllIn(bench, 5) && AllIn(hand, 2) && AllIn(trash, 3) && AllIn(prize, 6)
    ensures RowsIn(active + bench + hand + trash + prize, area) ==
      if area == 4 then active else if area == 5 then bench else if area == 2 then hand
      else if area == 3 then trash else if area == 6 then prize else []
  {
    hide RowsIn, AllIn;
    FiveRows(active, bench, hand, trash, prize, area);
    RowsOfZone(active, 4, area);
    RowsOfZone(bench, 5, area);
    RowsOfZone(hand, 2, area);
    RowsOfZone(trash, 3, area);
    RowsOfZone(prize, 6, area);
  }

  lemma NoneIn(area: int)
    ensures AllIn([], area)
  {
  }

  lemma FiveRows(a: seq<Shown>, b: seq<Shown>, c: seq<Shown>, d: seq<Shown>, e: seq<Shown>, area: int)
    ensures RowsIn(a + b + c + d + e, area)
         == RowsIn(a, area) + RowsIn(b, area) + RowsIn(c, area) + RowsIn(d, area) + RowsIn(e, area)
  {
    hide RowsIn;
    RowsAppend(a, b, area);
    RowsAppend(a + b, c, area);
    RowsAppend(a + b + c, d, area);
    RowsAppend(a + b + c + d, e, area);
  }

  lemma RestRows(v: View, area: int)
    ensures RowsIn(Plain(v, v.stadium, STADIUM), area) == if area == 7 then OpenZone(v, v.stadium, 7) else []
    ensures RowsIn(LookingCards(v), area) ==
      if area != 12 then []
      else if v.lookingPlayer == v.selectPlayer || v.lookingPlayer == 2 || v.selectPlayer == 2 then
        OpenZone(v, v.looking, 12)
      else if v.lookingPlayer >= 3 && v.lookingPlayer == v.selectPlayer + 3 then
        seq(|v.looking|, k => Blank(v.selectPlayer, 12, k))
      else []
    ensures var deck := if v.selectDeck then Plain(v, PlayerAt(v, v.selectPlayer).deck, DECK) else [];
      RowsIn(deck, area) ==
        if area == 1 && v.selectDeck then
          OpenZone(v, if v.selectPlayer == 1 then v.player1.deck else v.player0.deck, 1)
        else []
    ensures RowsIn(Virtual(v, v.contextCard, 0), area) + RowsIn(Virtual(v, v.effectCard, 1), area)
         == if area == 0 then VirtualRows(v) else []
  {
    hide RowsIn, OpenZone, AllIn, Plain, Attached;
    PlainIsOpen(v, v.stadium, STADIUM);
    RowsOfZone(Plain(v, v.stadium, STADIUM), STADIUM, area);
    PlainIsOpen(v, v.looking, LOOKING);
    RedactedIsBlank(v.looking, v.selectPlayer);
    NothingLooked(v);
    NoneIn(LOOKING);
    RowsOfZone(LookingCards(v), LOOKING, area);
    var deck := PlayerAt(v, v.selectPlayer).deck;
    PlainIsOpen(v, deck, DECK);
    NoneIn(DECK);
    RowsOfZone(if v.selectDeck then Plain(v, deck, DECK) else [], DECK, area);
    OneIn(v, v.contextCard, 0);
    OneIn(v, v.effectCard, 1);
    RowsOfZone(Virtual(v, v.contextCard, 0), VIRTUAL, area);
    RowsOfZone(Virtual(v, v.effectCard, 1), VIRTUAL, area);
  }

  lemma RedactedIsBlank(refs: seq<nat>, owner: int)
    ensures Redacted(refs, owner) == seq(|refs|, k => Blank(owner, 12, k)) && AllIn(Redacted(refs, owner), 12)
  {
  }

  lemma NothingLooked(v: View)
    ensures v.looking == [] ==> OpenZone(v, v.looking, 12) == [] && seq(|v.looking|, k => Blank(0, 12, k)) == []
    ensures v.looking == [] ==> seq(|v.looking|, k => Blank(v.selectPlayer, 12, k)) == []
  {
  }

  lemma OneIn(v: View, ref: Option<nat>, index: int)
    ensures AllIn(Virtual(v, ref, index), VIRTUAL)
    ensures Virtual(v, ref, index) ==
      if ref.None? then []
      else [Shown(CardRow(v.card(ref.value).owner, 0, index, v.card(ref.value).id, ref.value, 0, 0, 0), [])]
  {
    hide Attached;
  }

  lemma TableRows(v: View, area: int)
    ensures var deck := if v.selectDeck then Plain(v, PlayerAt(v, v.selectPlayer).deck, DECK) else [];
      RowsIn(Visible(v), area)
        == RowsIn(Side(v, First(v)), area) + RowsIn(Side(v, 1 - First(v)), area)
             + RowsIn(Plain(v, v.stadium, STADIUM), area) + RowsIn(LookingCards(v), area) + RowsIn(deck, area)
             + (RowsIn(Virtual(v, v.contextCard, 0), area) + RowsIn(Virtual(v, v.effectCard, 1), area))
  {
    hide RowsIn, Side, Plain, LookingCards, Virtual;
    var deck := if v.selectDeck then Plain(v, PlayerAt(v, v.selectPlayer).deck, DECK) else [];
    FiveRows(Side(v, First(v)), Side(v, 1 - First(v)), Plain(v, v.stadium, STADIUM), LookingCards(v), deck, area);
    RowsAppend(Table(v), Virtual(v, v.contextCard, 0), area);
    RowsAppend(Table(v) + Virtual(v, v.contextCard, 0), Virtual(v, v.effectCard, 1), area);
  }

  lemma AreaRows(v: View, area: int)
    ensures RowsIn(Visible(v), area) ==
      if area == 7 then OpenZone(v, v.stadium, 7)
      else if area == 12 then RowsIn(LookingCards(v), 12)
      else if area == 1 then
        (if v.selectDeck then OpenZone(v, if v.selectPlayer == 1 then v.player1.deck else v.player0.deck, 1) else [])
      else if area == 0 then VirtualRows(v)
      else RowsIn(Side(v, First(v)), area) + RowsIn(Side(v, 1 - First(v)), area)
  {
    hide RowsIn, OpenZone, PokemonZone, PrizeZone, LookingCards, Visible, VirtualRows;
    TableRows(v, area);
    RestRows(v, area);
    SideRows(v, 0, area);
    SideRows(v, 1, area);
  }

  lemma {:induction false} RowsElsewhere(shown: seq<Shown>, k: nat)
    requires k < |shown|
    ensures RowsIn(shown, shown[k].card.area) != []
  {
    if k > 0 {
      RowsElsewhere(shown[1..], k - 1);
    }
  }

  /** The traversal shows everything a seat may see, once, in its place and as it is, and nothing
      else. */
  lemma VisibleShowsEverything(v: View)
    ensures ShowsEverything(v, Visible(v))
  {
    hide RowsIn, OpenZone, PokemonZone, PrizeZone, LookingCards, Visible, VirtualRows;
    var areas := {0, 1, 2, 3, 4, 5, 6, 7, 12};
    forall area | area in areas
      ensures RowsIn(Visible(v), area) ==
        if area == 7 then OpenZone(v, v.stadium, 7)
        else if area == 12 then RowsIn(LookingCards(v), 12)
        else if area == 1 then
          (if v.selectDeck then OpenZone(v, if v.selectPlayer == 1 then v.player1.deck else v.player0.deck, 1) else [])
        else if area == 0 then VirtualRows(v)
        else RowsIn(Side(v, First(v)), area) + RowsIn(Side(v, 1 - First(v)), area)
    {
      AreaRows(v, area);
    }
    RestRows(v, 12);
    SidesByArea(v);
    forall k: nat | k < |Visible(v)| ensures Visible(v)[k].card.area in areas {
      RowsElsewhere(Visible(v), k);
      AreaRows(v, Visible(v)[k].card.area);
      SideRows(v, 0, Visible(v)[k].card.area);
      SideRows(v, 1, Visible(v)[k].card.area);
    }
  }

  lemma SidesByArea(v: View)
    ensures forall i, area :: (i == 0 || i == 1) && area in {2, 3, 4, 5, 6} ==>
      var p := if i == 1 then v.player1 else v.player0;
      RowsIn(Side(v, i), area) ==
        if area == 4 then PokemonZone(v, p.active, i, 4)
        else if area == 5 then PokemonZone(v, p.bench, i, 5)
        else if area == 2 then (if i == v.selectPlayer || v.selectPlayer == 2 then OpenZone(v, p.hand, 2) else [])
        else if area == 3 then OpenZone(v, p.trash, 3)
        else PrizeZone(v, p.prize, i)
  {
    hide RowsIn, OpenZone, PokemonZone, PrizeZone, Side;
    forall i, area | (i == 0 || i == 1) && area in {2, 3, 4, 5, 6}
      ensures var p := if i == 1 then v.player1 else v.player0;
        RowsIn(Side(v, i), area) ==
          if area == 4 then PokemonZone(v, p.active, i, 4)
          else if area == 5 then PokemonZone(v, p.bench, i, 5)
          else if area == 2 then (if i == v.selectPlayer || v.selectPlayer == 2 then OpenZone(v, p.hand, 2) else [])
          else if area == 3 then OpenZone(v, p.trash, 3)
          else PrizeZone(v, p.prize, i)
    {
      SideRows(v, i, area);
    }
  }

  // ---------------------------------------------------------------- one row a card

  /** A row of an area is the one after as many as there are before it. */
  lemma RowStands(shown: seq<Shown>, area: int, r: nat)
    requires r < |shown| && shown[r].card.area == area
    ensures |RowsIn(shown[..r], area)| < |RowsIn(shown, area)|
    ensures RowsIn(shown, area)[|RowsIn(shown[..r], area)|] == shown[r]
  {
    RowsAppend(shown[..r], shown[r..], area);
    assert shown == shown[..r] + shown[r..];
  }

  lemma RowsGrow(shown: seq<Shown>, area: int, q: nat, r: nat)
    requires q < r <= |shown| && shown[q].card.area == area
    ensures |RowsIn(shown[..q], area)| < |RowsIn(shown[..r], area)|
  {
    RowStands(shown[..r], area, q);
    assert shown[..r][..q] == shown[..q];
  }

  lemma {:induction false} RowExists(shown: seq<Shown>, area: int, i: nat) returns (r: nat)
    requires i < |RowsIn(shown, area)|
    ensures r < |shown| && shown[r] == RowsIn(shown, area)[i] && shown[r].card.area == area
  {
    var here := shown[0].card.area == area;
    if here && i == 0 {
      r := 0;
    } else {
      var rest := RowExists(shown[1..], area, if here then i - 1 else i);
      r := rest + 1;
    }
  }

  /** Where an area shows one zone, every card of the zone has exactly one row. */
  lemma OneRow(shown: seq<Shown>, area: int, i: nat) returns (r: nat)
    requires i < |RowsIn(shown, area)|
    requires forall k :: 0 <= k < |RowsIn(shown, area)| ==> RowsIn(shown, area)[k].card.areaIndex == k
    ensures r < |shown| && shown[r] == RowsIn(shown, area)[i]
    ensures forall q :: 0 <= q < |shown| && shown[q].card.area == area && shown[q].card.areaIndex == i ==> q == r
  {
    r := RowExists(shown, area, i);
    RowStands(shown, area, r);
    forall q | 0 <= q < |shown| && shown[q].card.area == area && shown[q].card.areaIndex == i ensures q == r {
      RowStands(shown, area, q);
      if q < r {
        RowsGrow(shown, area, q, r);
      } else if r < q {
        RowsGrow(shown, area, r, q);
      }
    }
  }

  /** A seat always gets its own hand: one row for each of its cards, with the card's number. */
  lemma OwnHandIsShown(v: View, i: nat) returns (r: nat)
    requires v.selectPlayer == 0 || v.selectPlayer == 1
    requires i < |if v.selectPlayer == 1 then v.player1.hand else v.player0.hand|
    ensures var hand, shown := if v.selectPlayer == 1 then v.player1.hand else v.player0.hand, Visible(v);
      && r < |shown| && |RowsIn(shown, 2)| == |hand|
      && shown[r].card == CardRow(v.card(hand[i]).owner, 2, i, v.card(hand[i]).id, hand[i], 0, 0, 0)
      && forall q :: 0 <= q < |shown| && shown[q].card.area == 2 && shown[q].card.areaIndex == i ==> q == r
  {
    hide RowsIn, Visible, PokemonZone, PrizeZone, VirtualRows;
    VisibleShowsEverything(v);
    r := OneRow(Visible(v), 2, i);
  }

  // ---------------------------------------------------------------- the order of the areas

  ghost function SideInOrder(v: View, p: Player, i: int): seq<Shown> {
    PokemonZone(v, p.active, i, 4) + PokemonZone(v, p.bench, i, 5)
      + (if i == v.selectPlayer || v.selectPlayer == 2 then OpenZone(v, p.hand, 2) else [])
      + OpenZone(v, p.trash, 3) + PrizeZone(v, p.prize, i)
  }

  /** The mode reported for cards being looked at: 0 without any in sight, 1 openly, 2 as blanks. */
  predicate ModeMeans(v: View, mode: int) {
    var openly := v.lookingPlayer == v.selectPlayer || v.lookingPlayer == 2 || v.selectPlayer == 2;
    && 0 <= mode <= 2
    && (mode == 1 <==> v.looking != [] && openly)
    && (mode == 2 <==> v.looking != [] && !openly && v.lookingPlayer >= 3 && v.lookingPlayer == v.selectPlayer + 3)
  }

  /** The areas follow each other in one order: the seat to move, the other seat, the stadium, the
      cards looked at, the deck chosen from, then the two virtual cards. */
  lemma AreasInOrder(v: View)
    ensures var own, other := SideInOrder(v, if v.selectPlayer == 1 then v.player1 else v.player0, First(v)),
                              SideInOrder(v, if v.selectPlayer == 1 then v.player0 else v.player1, 1 - First(v));
      Visible(v) == own + other + OpenZone(v, v.stadium, 7) + RowsIn(Visible(v), 12) + RowsIn(Visible(v), 1)
                      + VirtualRows(v)
    ensures ModeMeans(v, LookingMode(v))
  {
    hide RowsIn, OpenZone, PokemonZone, PrizeZone, Plain, FaceUp, AllIn, LookingCards;
    SideIsInOrder(v, 0);
    SideIsInOrder(v, 1);
    PlainIsOpen(v, v.stadium, STADIUM);
    AreaRows(v, 12);
    AreaRows(v, 1);
    LookingIsIn(v);
    PlainIsOpen(v, PlayerAt(v, v.selectPlayer).deck, DECK);
    OneIn(v, v.contextCard, 0);
    OneIn(v, v.effectCard, 1);
    ConcatAssociates(Table(v), Virtual(v, v.contextCard, 0), Virtual(v, v.effectCard, 1));
  }

  lemma SideIsInOrder(v: View, i: int)
    requires i == 0 || i == 1
    ensures Side(v, i) == SideInOrder(v, if i == 1 then v.player1 else v.player0, i)
  {
    hide OpenZone, PokemonZone, PrizeZone, Plain, FaceUp, AllIn;
    var p := PlayerAt(v, i);
    FaceUpIsPokemon(v, p.active, i, ACTIVE);
    FaceUpIsPokemon(v, p.bench, i, BENCH);
    FaceUpIsPrize(v, p.prize, i);
    PlainIsOpen(v, p.hand, HAND);
    PlainIsOpen(v, p.trash, DISCARD);
  }

  lemma LookingIsIn(v: View)
    ensures RowsIn(LookingCards(v), 12) == LookingCards(v)
  {
    hide RowsIn, OpenZone, Plain;
    PlainIsOpen(v, v.looking, LOOKING);
    RedactedIsBlank(v.looking, v.selectPlayer);
    NoneIn(LOOKING);
    RowsOfZone(LookingCards(v), LOOKING, 12);
  }
}
