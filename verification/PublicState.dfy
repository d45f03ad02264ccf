/** What a row shows its acting seat: the visible cards and their attachments as a value, why
    hidden cards have no part in it, and how it is laid out as output rows. */
module PublicState {
  import opened Common

  const VIRTUAL := 0
  const DECK := 1
  const HAND := 2
  const DISCARD := 3
  const ACTIVE := 4
  const BENCH := 5
  const PRIZE := 6
  const STADIUM := 7
  const LOOKING := 12

  const LOOKING_NULL := 0
  const LOOKING_VISIBLE := 1
  const LOOKING_REDACTED := 2

  const ENERGY := 1
  const TOOL := 2
  const PRE_EVOLUTION := 3

  datatype Card = Card(owner: int, id: int, reverse: bool, appear: bool, hp: int, maxHp: int,
                       moveCounter: int, attachMoveCounter: int)

  /** Card references are indices into the game's card table. */
  datatype Player = Player(active: seq<nat>, bench: seq<nat>, hand: seq<nat>, trash: seq<nat>, prize: seq<nat>,
                           deck: seq<nat>, energy: seq<nat>, tool: seq<nat>, preEvolution: seq<nat>)

  datatype EnergyInfo = EnergyInfo(kind: int, count: int)

  datatype View = View(
    card: nat -> Card, energyInfo: (nat, nat) -> EnergyInfo, player0: Player, player1: Player, stadium: seq<nat>,
    looking: seq<nat>, lookingPlayer: int, selectDeck: bool, selectPlayer: int,
    contextCard: Option<nat>, effectCard: Option<nat>)

  datatype CardRow = CardRow(owner: int, area: int, areaIndex: int, cardId: int, serial: int, hp: int, maxHp: int,
                             appear: int)

  datatype Tag = Tag(kind: int, cardId: int, serial: int, energyType: int, energyUnits: int)

  datatype AttachmentRow = AttachmentRow(parent: nat, tag: Tag)

  /** A visible card with everything attached to it. */
  datatype Shown = Shown(card: CardRow, attached: seq<Tag>)

  // ---------------------------------------------------------------- what is shown

  function PlayerAt(v: View, i: int): Player {
    if i == 1 then v.player1 else v.player0
  }

  function TagOf(v: View, ref: nat, pokemon: nat, kind: int): Tag {
    if kind == ENERGY then
      var info := v.energyInfo(ref, pokemon);
      Tag(kind, v.card(ref).id, ref, info.kind, info.count)
    else Tag(kind, v.card(ref).id, ref, -1, 0)
  }

  /** The cards of one attachment zone that travel with a Pokemon. */
  function TagsOf(v: View, refs: seq<nat>, pokemon: nat, kind: int): seq<Tag> {
    if refs == [] then []
    else
      var last := refs[|refs| - 1];
      TagsOf(v, refs[..|refs| - 1], pokemon, kind)
        + if v.card(last).attachMoveCounter == v.card(pokemon).moveCounter then [TagOf(v, last, pokemon, kind)] else []
  }

  function Attached(v: View, pokemon: nat): seq<Tag> {
    var player := PlayerAt(v, v.card(pokemon).owner);
    TagsOf(v, player.energy, pokemon, ENERGY) + TagsOf(v, player.tool, pokemon, TOOL)
      + TagsOf(v, player.preEvolution, pokemon, PRE_EVOLUTION)
  }

  function ShowHidden(owner: int, area: int, index: int): Shown {
    Shown(CardRow(owner, area, index, 0, 0, 0, 0, 0), [])
  }

  function ShowCard(v: View, ref: nat, area: int, index: int, pokemon: bool, attachments: bool): Shown {
    var c := v.card(ref);
    Shown(CardRow(c.owner, area, index, c.id, ref, if pokemon then c.hp else 0, if pokemon then c.maxHp else 0,
                  if pokemon && c.appear then 1 else 0),
          if attachments then Attached(v, ref) else [])
  }

  function Plain(v: View, refs: seq<nat>, area: int): (s: seq<Shown>)
    ensures |s| == |refs|
  {
    seq(|refs|, i requires 0 <= i < |refs| => ShowCard(v, refs[i], area, i, false, false))
  }

  /** Face-down cards show nothing but their place, unless everything is revealed. */
  function FaceUp(v: View, refs: seq<nat>, owner: int, area: int, pokemon: bool): (s: seq<Shown>)
    ensures |s| == |refs|
  {
    seq(|refs|, i requires 0 <= i < |refs| =>
      if v.card(refs[i]).reverse && v.selectPlayer != 2 then ShowHidden(owner, area, i)
      else ShowCard(v, refs[i], area, i, pokemon, pokemon))
  }

  function Redacted(refs: seq<nat>, owner: int): (s: seq<Shown>)
    ensures |s| == |refs|
  {
    seq(|refs|, i requires 0 <= i < |refs| => ShowHidden(owner, LOOKING, i))
  }

  function Side(v: View, i: int): seq<Shown> {
    var p := PlayerAt(v, i);
    FaceUp(v, p.active, i, ACTIVE, true) + FaceUp(v, p.bench, i, BENCH, true)
      + (if i == v.selectPlayer || v.selectPlayer == 2 then Plain(v, p.hand, HAND) else [])
      + Plain(v, p.trash, DISCARD) + FaceUp(v, p.prize, i, PRIZE, false)
  }

  function LookingMode(v: View): int {
    var unauthorized := v.lookingPlayer != v.selectPlayer && v.lookingPlayer != 2 && v.selectPlayer != 2;
    if v.looking == [] then LOOKING_NULL
    else if !unauthorized then LOOKING_VISIBLE
    else if v.lookingPlayer >= 3 && v.lookingPlayer == v.selectPlayer + 3 then LOOKING_REDACTED
    else LOOKING_NULL
  }

  function LookingCards(v: View): seq<Shown> {
    if LookingMode(v) == LOOKING_VISIBLE then Plain(v, v.looking, LOOKING)
    else if LookingMode(v) == LOOKING_REDACTED then Redacted(v.looking, v.selectPlayer)
    else []
  }

  function First(v: View): int {
    if v.selectPlayer == 1 then 1 else 0
  }

  /** Everything on the table before the two virtual cards. */
  function Table(v: View): seq<Shown> {
    Side(v, First(v)) + Side(v, 1 - First(v)) + Plain(v, v.stadium, STADIUM) + LookingCards(v)
      + if v.selectDeck then Plain(v, PlayerAt(v, v.selectPlayer).deck, DECK) else []
  }

  function Virtual(v: View, ref: Option<nat>, index: int): seq<Shown> {
    if ref.None? then [] else [ShowCard(v, ref.value, VIRTUAL, index, false, false)]
  }

  /** The cards a row shows, in output order. */
  function Visible(v: View): seq<Shown> {
    Table(v) + Virtual(v, v.contextCard, 0) + Virtual(v, v.effectCard, 1)
  }

  /** The traversal throws when it asks for a player that does not exist. */
  predicate Traversable(v: View) {
    && (v.selectDeck ==> 0 <= v.selectPlayer <= 1)
    && PokemonOwned(v, v.player0.active, 0) && PokemonOwned(v, v.player0.bench, 0)
    && PokemonOwned(v, v.player1.active, 1) && PokemonOwned(v, v.player1.bench, 1)
  }

  predicate PokemonOwned(v: View, refs: seq<nat>, i: int) {
    forall k :: 0 <= k < |refs| && !(v.card(refs[k]).reverse && v.selectPlayer != 2) ==> 0 <= v.card(refs[k]).owner <= 1
  }

  // ---------------------------------------------------------------- what a seat sees

  /** A card that travels with a Pokemon. */
  datatype Attachment = Attachment(ref: nat, card: Card, info: EnergyInfo)

  /** A face-down card is only a place; a face-up one is its table entry with what it carries. */
  datatype Sight =
    | Down
    | Up(ref: nat, card: Card, energy: seq<Attachment>, tools: seq<Attachment>, past: seq<Attachment>)

  datatype SeenSide = SeenSide(active: seq<Sight>, bench: seq<Sight>, hand: seq<Sight>, trash: seq<Sight>,
                               prize: seq<Sight>)

  /** The view with everything hidden from the acting seat erased. */
  datatype SeenView = SeenView(
    seat: int, first: SeenSide, second: SeenSide, stadium: seq<Sight>, lookingMode: int, looking: seq<Sight>,
    deck: seq<Sight>, context: seq<Sight>, effect: seq<Sight>)

  function Carried(v: View, refs: seq<nat>, pokemon: nat, kind: int): seq<Attachment> {
    if refs == [] then []
    else
      var last := refs[|refs| - 1];
      Carried(v, refs[..|refs| - 1], pokemon, kind)
        + if v.card(last).attachMoveCounter == v.card(pokemon).moveCounter then
            [Attachment(last, v.card(last), if kind == ENERGY then v.energyInfo(last, pokemon) else EnergyInfo(-1, 0))]
          else []
  }

  function SightOf(v: View, ref: nat, pokemon: bool): Sight {
    var player := PlayerAt(v, v.card(ref).owner);
    if pokemon then
      Up(ref, v.card(ref), Carried(v, player.energy, ref, ENERGY), Carried(v, player.tool, ref, TOOL),
         Carried(v, player.preEvolution, ref, PRE_EVOLUTION))
    else Up(ref, v.card(ref), [], [], [])
  }

  function Open(v: View, refs: seq<nat>): (s: seq<Sight>)
    ensures |s| == |refs|
  {
    seq(|refs|, i requires 0 <= i < |refs| => SightOf(v, refs[i], false))
  }

  function Faces(v: View, refs: seq<nat>, pokemon: bool): (s: seq<Sight>)
    ensures |s| == |refs|
  {
    seq(|refs|, i requires 0 <= i < |refs| => if v.card(refs[i]).reverse then Down else SightOf(v, refs[i], pokemon))
  }

  function SideSeen(v: View, i: int): SeenSide {
    var p := PlayerAt(v, i);
    SeenSide(Faces(v, p.active, true), Faces(v, p.bench, true), if i == v.selectPlayer then Open(v, p.hand) else [],
             Open(v, p.trash), Faces(v, p.prize, false))
  }

  function OneSeen(v: View, ref: Option<nat>): seq<Sight> {
    if ref.None? then [] else [SightOf(v, ref.value, false)]
  }

  /** Gone are the other seat's hand, both decks unless the seat chooses from its own, every
      face-down card, the looked-at cards it may not see, and whatever the table says of them. */
  function Seen(v: View): SeenView {
    SeenView(v.selectPlayer, SideSeen(v, First(v)), SideSeen(v, 1 - First(v)), Open(v, v.stadium), LookingMode(v),
             if LookingMode(v) == LOOKING_VISIBLE then Open(v, v.looking)
             else if LookingMode(v) == LOOKING_REDACTED then seq(|v.looking|, i => Down) else [],
             if v.selectDeck then Open(v, PlayerAt(v, v.selectPlayer).deck) else [],
             OneSeen(v, v.contextCard), OneSeen(v, v.effectCard))
  }

  // ---------------------------------------------------------------- showing from what is seen

  function TagsFrom(carried: seq<Attachment>, kind: int): (tags: seq<Tag>)
    ensures |tags| == |carried|
  {
    seq(|carried|, i requires 0 <= i < |carried| =>
      Tag(kind, carried[i].card.id, carried[i].ref, carried[i].info.kind, carried[i].info.count))
  }

  function Draw(s: Sight, owner: int, area: int, index: int, pokemon: bool): Shown {
    match s
    case Down => ShowHidden(owner, area, index)
    case Up(ref, c, energy, tools, past) =>
      Shown(CardRow(c.owner, area, index, c.id, ref, if pokemon then c.hp else 0, if pokemon then c.maxHp else 0,
                    if pokemon && c.appear then 1 else 0),
            TagsFrom(energy, ENERGY) + TagsFrom(tools, TOOL) + TagsFrom(past, PRE_EVOLUTION))
  }

  function DrawAll(s: seq<Sight>, owner: int, area: int, pokemon: bool): (shown: seq<Shown>)
    ensures |shown| == |s|
  {
    seq(|s|, i requires 0 <= i < |s| => Draw(s[i], owner, area, i, pokemon))
  }

  function DrawSide(s: SeenSide, i: int): seq<Shown> {
    DrawAll(s.active, i, ACTIVE, true) + DrawAll(s.bench, i, BENCH, true) + DrawAll(s.hand, i, HAND, false)
      + DrawAll(s.trash, i, DISCARD, false) + DrawAll(s.prize, i, PRIZE, false)
  }

  function DrawOne(s: seq<Sight>, index: int): (shown: seq<Shown>)
    ensures |shown| == |s|
  {
    seq(|s|, i requires 0 <= i < |s| => Draw(s[i], 0, VIRTUAL, index, false))
  }

  function DrawTable(s: SeenView): seq<Shown> {
    var first := if s.seat == 1 then 1 else 0;
    DrawSide(s.first, first) + DrawSide(s.second, 1 - first) + DrawAll(s.stadium, 0, STADIUM, false)
      + DrawAll(s.looking, s.seat, LOOKING, false) + DrawAll(s.deck, 0, DECK, false)
  }

  function DrawView(s: SeenView): seq<Shown> {
    DrawTable(s) + DrawOne(s.context, 0) + DrawOne(s.effect, 1)
  }

  lemma {:induction false} TagsAreCarried(v: View, refs: seq<nat>, pokemon: nat, kind: int)
    ensures TagsOf(v, refs, pokemon, kind) == TagsFrom(Carried(v, refs, pokemon, kind), kind)
  {
    if refs != [] {
      TagsAreCarried(v, refs[..|refs| - 1], pokemon, kind);
    }
  }

  lemma DrawCard(v: View, ref: nat, owner: int, area: int, index: int, pokemon: bool)
    ensures Draw(SightOf(v, ref, pokemon), owner, area, index, pokemon)
        == ShowCard(v, ref, area, index, pokemon, pokemon)
  {
    hide TagsFrom, TagsOf, Carried;
    var player := PlayerAt(v, v.card(ref).owner);
    if pokemon {
      TagsAreCarried(v, player.energy, ref, ENERGY);
      TagsAreCarried(v, player.tool, ref, TOOL);
      TagsAreCarried(v, player.preEvolution, ref, PRE_EVOLUTION);
    } else {
      NoTags();
    }
  }

  lemma NoTags()
    ensures TagsFrom([], ENERGY) + TagsFrom([], TOOL) + TagsFrom([], PRE_EVOLUTION) == []
  {
  }

  lemma DrawOpen(v: View, refs: seq<nat>, owner: int, area: int)
    ensures DrawAll(Open(v, refs), owner, area, false) == Plain(v, refs, area)
  {
    hide Draw, SightOf, ShowCard;
    forall i | 0 <= i < |refs|
      ensures Draw(SightOf(v, refs[i], false), owner, area, i, false) == Plain(v, refs, area)[i]
    {
      DrawCard(v, refs[i], owner, area, i, false);
    }
  }

  lemma DrawFaces(v: View, refs: seq<nat>, owner: int, area: int, pokemon: bool)
    requires v.selectPlayer != 2
    ensures DrawAll(Faces(v, refs, pokemon), owner, area, pokemon) == FaceUp(v, refs, owner, area, pokemon)
  {
    hide SightOf, ShowCard, ShowHidden;
    var drawn, shown := DrawAll(Faces(v, refs, pokemon), owner, area, pokemon), FaceUp(v, refs, owner, area, pokemon);
    forall i | 0 <= i < |refs| ensures drawn[i] == shown[i] {
      DrawCard(v, refs[i], owner, area, i, pokemon);
    }
  }

  lemma DrawSides(v: View, i: int)
    requires v.selectPlayer != 2
    ensures DrawSide(SideSeen(v, i), i) == Side(v, i)
  {
    hide DrawAll, Faces, FaceUp, Open, Plain;
    var p := PlayerAt(v, i);
    DrawFaces(v, p.active, i, ACTIVE, true);
    DrawFaces(v, p.bench, i, BENCH, true);
    DrawFaces(v, p.prize, i, PRIZE, false);
    DrawOpen(v, p.hand, i, HAND);
    DrawOpen(v, p.trash, i, DISCARD);
    DrawNothing(i, HAND);
  }

  lemma DrawNothing(owner: int, area: int)
    ensures DrawAll([], owner, area, false) == []
  {
  }

  lemma DrawLooking(v: View)
    requires v.selectPlayer != 2
    ensures DrawAll(Seen(v).looking, v.selectPlayer, LOOKING, false) == LookingCards(v)
  {
    hide SightOf, ShowCard, Open, Plain, SideSeen;
    DrawOpen(v, v.looking, v.selectPlayer, LOOKING);
  }

  lemma DrawVirtual(v: View, ref: Option<nat>, index: int)
    ensures DrawOne(OneSeen(v, ref), index) == Virtual(v, ref, index)
  {
    hide SightOf, ShowCard, Draw;
    if ref.Some? {
      DrawCard(v, ref.value, 0, VIRTUAL, index, false);
    }
  }

  /** What a seat is shown can be drawn from what it sees, and from nothing else. */
  lemma SeenIsEnough(v: View)
    requires 0 <= v.selectPlayer <= 1
    ensures Visible(v) == DrawView(Seen(v)) && Table(v) == DrawTable(Seen(v))
  {
    hide DrawAll, DrawSide, DrawOne, SideSeen, Side, Open, Plain, LookingCards, Virtual, OneSeen;
    DrawSides(v, 0);
    DrawSides(v, 1);
    DrawOpen(v, v.stadium, 0, STADIUM);
    DrawLooking(v);
    DrawOpen(v, PlayerAt(v, v.selectPlayer).deck, 0, DECK);
    DrawNothing(0, DECK);
    DrawVirtual(v, v.contextCard, 0);
    DrawVirtual(v, v.effectCard, 1);
  }

  /** Two games that look alike to a seat are shown alike, down to the rows of the virtual cards. */
  lemma HiddenZonesStayHidden(v: View, w: View)
    requires 0 <= v.selectPlayer <= 1 && Seen(v) == Seen(w)
    ensures Visible(v) == Visible(w) && Table(v) == Table(w) && LookingMode(v) == LookingMode(w)
  {
    hide DrawView, DrawTable, Visible, Table, SideSeen, Open, LookingMode;
    SeenIsEnough(v);
    SeenIsEnough(w);
  }

  // ---------------------------------------------------------------- what may differ unseen

  /** The refs a seat sees something of: face-up and open cards, and everything that might
      travel with a Pokemon. */
  ghost predicate Reached(v: View, ref: nat) {
    || ReachedOn(v, v.player0, 0, ref) || ReachedOn(v, v.player1, 1, ref)
    || ref in v.stadium || v.contextCard == Some(ref) || v.effectCard == Some(ref)
    || (LookingMode(v) == LOOKING_VISIBLE && ref in v.looking)
    || (v.selectDeck && ref in PlayerAt(v, v.selectPlayer).deck)
  }

  ghost predicate ReachedOn(v: View, p: Player, i: int, ref: nat) {
    || (!v.card(ref).reverse && (ref in p.active || ref in p.bench || ref in p.prize))
    || ref in p.trash || ref in p.energy || ref in p.tool || ref in p.preEvolution
    || (i == v.selectPlayer && ref in p.hand)
  }

  /** Zone by zone, both cards are face down or they are the same card. */
  predicate SameFaces(v: View, w: View, a: seq<nat>, b: seq<nat>) {
    |a| == |b| && forall i :: 0 <= i < |a| ==>
      (if v.card(a[i]).reverse then w.card(b[i]).reverse else a[i] == b[i])
  }

  ghost predicate SameSide(v: View, w: View, i: int) {
    var p, q := PlayerAt(v, i), PlayerAt(w, i);
    && SameFaces(v, w, p.active, q.active) && SameFaces(v, w, p.bench, q.bench) && SameFaces(v, w, p.prize, q.prize)
    && p.trash == q.trash && p.energy == q.energy && p.tool == q.tool && p.preEvolution == q.preEvolution
    && (i == v.selectPlayer ==> p.hand == q.hand)
    && (i == v.selectPlayer && v.selectDeck ==> p.deck == q.deck)
  }

  /** Two games with the same open cards; hidden cards, and what the card table says of them,
      may be anything. */
  ghost predicate SameInTheOpen(v: View, w: View) {
    && v.selectPlayer == w.selectPlayer && v.selectDeck == w.selectDeck && v.stadium == w.stadium
    && v.contextCard == w.contextCard && v.effectCard == w.effectCard
    && SameSide(v, w, 0) && SameSide(v, w, 1) && LookingMode(v) == LookingMode(w)
    && (LookingMode(v) == LOOKING_VISIBLE ==> v.looking == w.looking)
    && (LookingMode(v) == LOOKING_REDACTED ==> |v.looking| == |w.looking|)
    && (forall ref: nat :: Reached(v, ref) ==> v.card(ref) == w.card(ref))
    && (forall ref: nat, pokemon: nat :: Reached(v, ref) && Reached(v, pokemon) ==>
        v.energyInfo(ref, pokemon) == w.energyInfo(ref, pokemon))
  }

  lemma {:induction false} CarriedAlike(v: View, w: View, refs: seq<nat>, pokemon: nat, kind: int)
    requires v.card(pokemon) == w.card(pokemon)
    requires forall ref :: ref in refs ==>
      v.card(ref) == w.card(ref) && v.energyInfo(ref, pokemon) == w.energyInfo(ref, pokemon)
    ensures Carried(v, refs, pokemon, kind) == Carried(w, refs, pokemon, kind)
  {
    if refs != [] {
      CarriedAlike(v, w, refs[..|refs| - 1], pokemon, kind);
    }
  }

  lemma SightAlike(v: View, w: View, ref: nat, pokemon: bool)
    requires SameInTheOpen(v, w) && Reached(v, ref)
    ensures SightOf(v, ref, pokemon) == SightOf(w, ref, pokemon)
  {
    hide Carried, SameFaces, LookingMode;
    if pokemon {
      var i := v.card(ref).owner;
      var p := PlayerAt(v, i);
      assert p.energy == PlayerAt(w, i).energy && p.tool == PlayerAt(w, i).tool
          && p.preEvolution == PlayerAt(w, i).preEvolution;
      forall r | r in p.energy || r in p.tool || r in p.preEvolution ensures Reached(v, r) {
      }
      CarriedAlike(v, w, p.energy, ref, ENERGY);
      CarriedAlike(v, w, p.tool, ref, TOOL);
      CarriedAlike(v, w, p.preEvolution, ref, PRE_EVOLUTION);
    }
  }

  lemma OpenAlike(v: View, w: View, refs: seq<nat>)
    requires SameInTheOpen(v, w) && forall ref :: ref in refs ==> Reached(v, ref)
    ensures Open(v, refs) == Open(w, refs)
  {
    hide SameInTheOpen, Reached, SightOf;
    forall i | 0 <= i < |refs| ensures SightOf(v, refs[i], false) == SightOf(w, refs[i], false) {
      SightAlike(v, w, refs[i], false);
    }
  }

  lemma FacesAlike(v: View, w: View, a: seq<nat>, b: seq<nat>, pokemon: bool)
    requires SameInTheOpen(v, w) && SameFaces(v, w, a, b)
    requires forall ref :: ref in a && !v.card(ref).reverse ==> Reached(v, ref)
    ensures Faces(v, a, pokemon) == Faces(w, b, pokemon)
  {
    hide Reached, SightOf, LookingMode, SameSide;
    forall i | 0 <= i < |a| ensures Faces(v, a, pokemon)[i] == Faces(w, b, pokemon)[i] {
      if !v.card(a[i]).reverse {
        SightAlike(v, w, a[i], pokemon);
      }
    }
  }

  lemma SideAlike(v: View, w: View, i: int)
    requires SameInTheOpen(v, w) && 0 <= i <= 1
    ensures SideSeen(v, i) == SideSeen(w, i)
  {
    hide Open, Faces, SameFaces, LookingMode;
    var p, q := PlayerAt(v, i), PlayerAt(w, i);
    assert SameSide(v, w, i);
    FacesAlike(v, w, p.active, q.active, true);
    FacesAlike(v, w, p.bench, q.bench, true);
    FacesAlike(v, w, p.prize, q.prize, false);
    OpenAlike(v, w, p.trash);
    if i == v.selectPlayer {
      OpenAlike(v, w, p.hand);
    }
  }

  lemma OneAlike(v: View, w: View, ref: Option<nat>)
    requires SameInTheOpen(v, w) && (ref.Some? ==> Reached(v, ref.value))
    ensures OneSeen(v, ref) == OneSeen(w, ref)
  {
    hide SameInTheOpen, Reached, SightOf;
    if ref.Some? {
      SightAlike(v, w, ref.value, false);
    }
  }

  /** Dealing the hidden cards otherwise, or rewriting their table entries, shows a seat nothing. */
  lemma HiddenCardsMayDiffer(v: View, w: View)
    requires 0 <= v.selectPlayer <= 1 && SameInTheOpen(v, w)
    ensures Seen(v) == Seen(w) && Visible(v) == Visible(w)
  {
    hide Open, SideSeen, SameFaces, LookingMode, Visible, OneSeen;
    SideAlike(v, w, 0);
    SideAlike(v, w, 1);
    OpenAlike(v, w, v.stadium);
    OneAlike(v, w, v.contextCard);
    OneAlike(v, w, v.effectCard);
    if LookingMode(v) == LOOKING_VISIBLE {
      OpenAlike(v, w, v.looking);
    }
    if v.selectDeck {
      assert SameSide(v, w, v.selectPlayer);
      OpenAlike(v, w, PlayerAt(v, v.selectPlayer).deck);
    }
    assert Seen(v) == Seen(w);
    HiddenZonesStayHidden(v, w);
  }

  // ---------------------------------------------------------------- as output rows

  function CardRows(shown: seq<Shown>): (rows: seq<CardRow>)
    ensures |rows| == |shown|
  {
    seq(|shown|, i requires 0 <= i < |shown| => shown[i].card)
  }

  function Tags(tags: seq<Tag>, parent: nat): (rows: seq<AttachmentRow>)
    ensures |rows| == |tags|
  {
    seq(|tags|, i requires 0 <= i < |tags| => AttachmentRow(parent, tags[i]))
  }

  /** Attachment rows name the absolute row of the card they belong to. */
  function AttachmentRows(shown: seq<Shown>, cardBase: nat): seq<AttachmentRow> {
    if shown == [] then []
    else
      var n := |shown| - 1;
      AttachmentRows(shown[..n], cardBase) + Tags(shown[n].attached, cardBase + n)
  }

  /** Parents lie in the row's own stretch of cards and are really there. */
  lemma {:induction false} ParentsAreOwn(shown: seq<Shown>, cardBase: nat, k: nat)
    requires k < |AttachmentRows(shown, cardBase)|
    ensures var a := AttachmentRows(shown, cardBase)[k];
      cardBase <= a.parent < cardBase + |shown| && a.tag in shown[a.parent - cardBase].attached
  {
    var n := |shown| - 1;
    if k < |AttachmentRows(shown[..n], cardBase)| {
      ParentsAreOwn(shown[..n], cardBase, k);
    } else {
      var i := k - |AttachmentRows(shown[..n], cardBase)|;
      assert shown[n].attached[i] in shown[n].attached;
    }
  }

  lemma {:induction false} AttachmentRowsAppend(a: seq<Shown>, b: seq<Shown>, cardBase: nat)
    ensures AttachmentRows(a + b, cardBase) == AttachmentRows(a, cardBase) + AttachmentRows(b, cardBase + |a|)
  {
    hide Tags;
    if b == [] {
      assert a + b == a;
    } else {
      var n := |b| - 1;
      AttachmentRowsAppend(a, b[..n], cardBase);
      assert (a + b)[..|a + b| - 1] == a + b[..n] && (a + b)[|a + b| - 1] == b[n];
      ConcatAssociates(AttachmentRows(a, cardBase), AttachmentRows(b[..n], cardBase + |a|),
                       Tags(b[n].attached, cardBase + |a| + n));
    }
  }

  lemma {:induction false} AttachmentCount(shown: seq<Shown>, a: nat, b: nat)
    ensures |AttachmentRows(shown, a)| == |AttachmentRows(shown, b)|
  {
    if shown != [] {
      AttachmentCount(shown[..|shown| - 1], a, b);
    }
  }

  lemma AttachmentsOfPrefix(shown: seq<Shown>, more: seq<Shown>, cardBase: nat)
    requires shown <= more
    ensures AttachmentRows(shown, cardBase) <= AttachmentRows(more, cardBase)
  {
    assert more == shown + more[|shown|..];
    AttachmentRowsAppend(shown, more[|shown|..], cardBase);
  }

  // ---------------------------------------------------------------- writing in place

  /** s with r written at `base`. */
  function Patch<T>(s: seq<T>, base: nat, r: seq<T>): (t: seq<T>)
    requires base + |r| <= |s|
    ensures |t| == |s|
  {
    s[..base] + r + s[base + |r|..]
  }

  lemma PatchOne<T>(s: seq<T>, base: nat, r: seq<T>, x: T)
    requires base + |r| < |s|
    ensures Patch(s, base, r)[base + |r| := x] == Patch(s, base, r + [x])
  {
  }

  /** Writing one stretch leaves every stretch beside it alone. */
  lemma PatchElsewhere<T>(s: seq<T>, base: nat, r: seq<T>, lo: nat, hi: nat)
    requires base + |r| <= |s| && lo <= hi <= |s| && (hi <= base || base + |r| <= lo)
    ensures Patch(s, base, r)[lo..hi] == s[lo..hi]
  {
  }

  lemma PatchThere<T>(s: seq<T>, base: nat, r: seq<T>)
    requires base + |r| <= |s|
    ensures Patch(s, base, r)[base..base + |r|] == r
  {
  }
}
