/** The sink of the public-state traversal: it counts rows, or writes them at running offsets. */
module PublicStateSink {
  import opened Common
  import opened PublicState

  /** The two output columns the traversal fills, each a caller-owned array. */
  class CardOutput {
    const cards: array<CardRow>
    const attachments: array<AttachmentRow>

    constructor (cards: array<CardRow>, attachments: array<AttachmentRow>)
      ensures this.cards == cards && this.attachments == attachments
    {
      this.cards, this.attachments := cards, attachments;
    }
  }

  /** Without an output the sink only counts.  `shown` is what it has been given so far, and
      the arrays hold the initial contents with exactly that written at the two bases. */
  class Sink {
    const view: View
    const output: CardOutput?
    const cardBase: nat
    const attachmentBase: nat
    ghost const cards0: seq<CardRow>
    ghost const attachments0: seq<AttachmentRow>
    var visibleCardOffset: nat
    var attachmentOffset: nat
    ghost var shown: seq<Shown>

    ghost predicate Counted()
      reads this
    {
      && visibleCardOffset == cardBase + |shown|
      && attachmentOffset == attachmentBase + |AttachmentRows(shown, cardBase)|
    }

    ghost predicate Valid()
      reads this, if output == null then {} else {output.cards, output.attachments}
    {
      && Counted()
      && (output != null ==>
            && |cards0| == output.cards.Length && |attachments0| == output.attachments.Length
            && visibleCardOffset <= |cards0| && attachmentOffset <= |attachments0|
            && output.cards[..] == Patch(cards0, cardBase, CardRows(shown))
            && output.attachments[..] == Patch(attachments0, attachmentBase, AttachmentRows(shown, cardBase)))
    }

    /** Room for everything up to and including `more`. */
    ghost predicate Room(more: seq<Shown>) {
      output != null ==>
        && cardBase + |more| <= |cards0|
        && attachmentBase + |AttachmentRows(more, cardBase)| <= |attachments0|
    }

    constructor (view: View, output: CardOutput?, cardBase: nat, attachmentBase: nat)
      requires output != null ==> cardBase <= output.cards.Length && attachmentBase <= output.attachments.Length
      ensures Valid() && shown == [] && this.view == view && this.output == output
      ensures this.cardBase == cardBase && this.attachmentBase == attachmentBase
      ensures output != null ==> cards0 == output.cards[..] && attachments0 == output.attachments[..]
    {
      this.view, this.output, this.cardBase, this.attachmentBase := view, output, cardBase, attachmentBase;
      cards0 := if output == null then [] else output.cards[..];
      attachments0 := if output == null then [] else output.attachments[..];
      visibleCardOffset, attachmentOffset, shown := cardBase, attachmentBase, [];
    }

    method AppendRow(card: CardRow) returns (row: nat)
      requires Valid() && Room(shown + [Shown(card, [])])
      modifies this, if output == null then {} else {output.cards, output.attachments}
      ensures Valid() && shown == old(shown) + [Shown(card, [])] && row == cardBase + |old(shown)|
    {
      row := visibleCardOffset;
      visibleCardOffset := visibleCardOffset + 1;
      if output != null {
        PatchOne(cards0, cardBase, CardRows(shown), card);
        output.cards[row] := card;
      }
      GrowsByCard(shown, card, cardBase);
      shown := shown + [Shown(card, [])];
    }

    method AppendAttachment(parent: nat, tag: Tag)
      requires Valid() && shown != [] && parent == cardBase + |shown| - 1
      requires Room(WithTags(shown, [tag]))
      modifies this, if output == null then {} else {output.cards, output.attachments}
      ensures Valid() && shown == WithTags(old(shown), [tag])
    {
      hide AttachmentRows, CardRows, Patch;
      GrowsByTag(shown, tag, cardBase);
      if output != null {
        PatchOne(attachments0, attachmentBase, AttachmentRows(shown, cardBase), AttachmentRow(parent, tag));
        output.attachments[attachmentOffset] := AttachmentRow(parent, tag);
      }
      attachmentOffset := attachmentOffset + 1;
      shown := WithTags(shown, [tag]);
    }

    /** One attachment zone: the cards that moved with the Pokemon. */
    method AppendZone(refs: seq<nat>, pokemon: nat, kind: int, parent: nat)
      requires Valid() && shown != [] && parent == cardBase + |shown| - 1
      requires Room(WithTags(shown, TagsOf(view, refs, pokemon, kind)))
      modifies this, if output == null then {} else {output.cards, output.attachments}
      ensures Valid() && shown == WithTags(old(shown), TagsOf(view, refs, pokemon, kind))
    {
      hide Valid, AttachmentRows;
      ghost var before, all := shown, TagsOf(view, refs, pokemon, kind);
      TagsOfNone(view, refs, pokemon, kind);
      WithNone(shown);
      for index := 0 to |refs|
        invariant Valid() && shown == WithTags(before, TagsOf(view, refs[..index], pokemon, kind))
      {
        var ref := refs[index];
        TagsOfStep(view, refs, index, pokemon, kind);
        if view.card(ref).attachMoveCounter == view.card(pokemon).moveCounter {
          ghost var tags := TagsOf(view, refs[..index], pokemon, kind);
          WithMore(before, tags, [TagOf(view, ref, pokemon, kind)]);
          RoomForPart(before, TagsOf(view, refs[..index + 1], pokemon, kind), all);
          AppendAttachment(parent, TagOf(view, ref, pokemon, kind));
        }
      }
      assert refs[..|refs|] == refs;
    }

    /** Room for a longer list of tags is room for a shorter one. */
    lemma RoomForPart(before: seq<Shown>, tags: seq<Tag>, all: seq<Tag>)
      requires before != [] && tags <= all && Room(WithTags(before, all))
      ensures Room(WithTags(before, tags))
    {
      TagRowCount(before, tags, cardBase);
      TagRowCount(before, all, cardBase);
    }

    method AppendCard(ref: nat, area: int, areaIndex: int, pokemon: bool, includeAttachments: bool) returns (row: nat)
      requires Valid() && Room(shown + [ShowCard(view, ref, area, areaIndex, pokemon, includeAttachments)])
      modifies this, if output == null then {} else {output.cards, output.attachments}
      ensures Valid() && row == cardBase + |old(shown)|
      ensures shown == old(shown) + [ShowCard(view, ref, area, areaIndex, pokemon, includeAttachments)]
    {
      hide Valid, AttachmentRows, TagsOf;
      var card := view.card(ref);
      var cardRow := CardRow(card.owner, area, areaIndex, card.id, ref, if pokemon then card.hp else 0,
                             if pokemon then card.maxHp else 0, if pokemon && card.appear then 1 else 0);
      ghost var bare := shown + [Shown(cardRow, [])];
      ghost var all := if includeAttachments then Attached(view, ref) else [];
      WithAll(shown, cardRow, all);
      WithNone(bare);
      RoomForPart(bare, [], all);
      row := AppendRow(cardRow);
      if includeAttachments {
        var player := PlayerAt(view, card.owner);
        ghost var energy, tool := TagsOf(view, player.energy, ref, ENERGY), TagsOf(view, player.tool, ref, TOOL);
        ghost var past := TagsOf(view, player.preEvolution, ref, PRE_EVOLUTION);
        RoomForPart(bare, energy, all);
        AppendZone(player.energy, ref, ENERGY, row);
        WithMore(bare, energy, tool);
        RoomForPart(bare, energy + tool, all);
        AppendZone(player.tool, ref, TOOL, row);
        WithMore(bare, energy + tool, past);
        AppendZone(player.preEvolution, ref, PRE_EVOLUTION, row);
      }
    }

    method AppendHiddenCard(owner: int, area: int, areaIndex: int) returns (row: nat)
      requires Valid() && Room(shown + [ShowHidden(owner, area, areaIndex)])
      modifies this, if output == null then {} else {output.cards, output.attachments}
      ensures Valid() && shown == old(shown) + [ShowHidden(owner, area, areaIndex)] && row == cardBase + |old(shown)|
    {
      row := AppendRow(CardRow(owner, area, areaIndex, 0, 0, 0, 0, 0));
    }
  }

  // ---------------------------------------------------------------- growing the list of shown cards

  function WithTags(shown: seq<Shown>, tags: seq<Tag>): (r: seq<Shown>)
    requires shown != []
    ensures |r| == |shown|
  {
    var n := |shown| - 1;
    shown[..n] + [Shown(shown[n].card, shown[n].attached + tags)]
  }

  lemma WithNone(shown: seq<Shown>)
    requires shown != []
    ensures WithTags(shown, []) == shown
  {
    var n := |shown| - 1;
    assert shown[n].attached + [] == shown[n].attached;
    assert shown == shown[..n] + [shown[n]];
  }

  lemma WithMore(shown: seq<Shown>, a: seq<Tag>, b: seq<Tag>)
    requires shown != []
    ensures WithTags(WithTags(shown, a), b) == WithTags(shown, a + b)
  {
    ConcatAssociates(shown[|shown| - 1].attached, a, b);
  }

  lemma WithAll(shown: seq<Shown>, card: CardRow, tags: seq<Tag>)
    ensures WithTags(shown + [Shown(card, [])], tags) == shown + [Shown(card, tags)]
  {
    assert (shown + [Shown(card, [])])[..|shown|] == shown;
    assert [] + tags == tags;
  }

  lemma TagRowCount(shown: seq<Shown>, tags: seq<Tag>, cardBase: nat)
    requires shown != []
    ensures |AttachmentRows(WithTags(shown, tags), cardBase)| == |AttachmentRows(shown, cardBase)| + |tags|
  {
    var n := |shown| - 1;
    assert WithTags(shown, tags)[..n] == shown[..n];
  }

  lemma TagsOfNone(v: View, refs: seq<nat>, pokemon: nat, kind: int)
    ensures TagsOf(v, refs[..0], pokemon, kind) == []
  {
  }

  lemma TagsOfStep(v: View, refs: seq<nat>, k: nat, pokemon: nat, kind: int)
    requires k < |refs|
    ensures TagsOf(v, refs[..k + 1], pokemon, kind) ==
      if v.card(refs[k]).attachMoveCounter == v.card(pokemon).moveCounter
      then TagsOf(v, refs[..k], pokemon, kind) + [TagOf(v, refs[k], pokemon, kind)]
          else TagsOf(v, refs[..k], pokemon, kind)
    ensures TagsOf(v, refs[..k + 1], pokemon, kind) <= TagsOf(v, refs, pokemon, kind)
  {
    assert refs[..k + 1][..k] == refs[..k];
    TagsOfPrefix(v, refs, k + 1, pokemon, kind);
  }

  lemma {:induction false} TagsOfPrefix(v: View, refs: seq<nat>, k: nat, pokemon: nat, kind: int)
    requires k <= |refs|
    ensures TagsOf(v, refs[..k], pokemon, kind) <= TagsOf(v, refs, pokemon, kind)
  {
    if k < |refs| {
      TagsOfPrefix(v, refs[..|refs| - 1], k, pokemon, kind);
      assert refs[..|refs| - 1][..k] == refs[..k];
    } else {
      assert refs[..k] == refs;
    }
  }

  lemma GrowsByCard(shown: seq<Shown>, card: CardRow, cardBase: nat)
    ensures CardRows(shown + [Shown(card, [])]) == CardRows(shown) + [card]
    ensures AttachmentRows(shown + [Shown(card, [])], cardBase) == AttachmentRows(shown, cardBase)
  {
    assert (shown + [Shown(card, [])])[..|shown|] == shown;
  }

  lemma GrowsByTag(shown: seq<Shown>, tag: Tag, cardBase: nat)
    requires shown != []
    ensures CardRows(WithTags(shown, [tag])) == CardRows(shown)
    ensures AttachmentRows(WithTags(shown, [tag]), cardBase)
         == AttachmentRows(shown, cardBase) + [AttachmentRow(cardBase + |shown| - 1, tag)]
  {
    var n := |shown| - 1;
    var more := WithTags(shown, [tag]);
    assert more[..n] == shown[..n];
    assert Tags(more[n].attached, cardBase + n)
        == Tags(shown[n].attached, cardBase + n) + [AttachmentRow(cardBase + n, tag)];
  }
}
