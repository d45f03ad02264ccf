/** What the rows of the arena calls mean, in engine callbacks and in numbers. */
module ArenaOutcomes {
  import opened Common
  import opened PublicState
  import opened PublicLogs
  import opened ArenaPlan
  import opened ArenaOutput
  import opened ArenaWrite
  import opened ArenaCommit
  import opened ArenaCalls
  import opened ArenaEntry
  import opened PublicCompleteness
  import opened PublicTraversal

  // ---------------------------------------------------------------- chains of callbacks

  /** A game asks for a choice, or is over. */
  predicate Stands(d: BattleData) {
    d.finished || d.selectMax != 0
  }

  /** Each place but the last is left by a callback that was given no choice, and the last one stands. */
  ghost predicate IsChain(e: ArenaEngine, path: seq<BattleData>) {
    && path != [] && Stands(path[|path| - 1])
    && forall k :: 0 <= k < |path| - 1 ==> Moves(e, path, k)
  }

  ghost predicate Moves(e: ArenaEngine, path: seq<BattleData>, k: nat)
    requires k + 1 < |path|
  {
    !Stands(path[k]) && e.next(path[k], []) == Some(path[k + 1])
  }

  lemma {:induction false} ChainIsPath(e: ArenaEngine, d: BattleData, advances: nat) returns (path: seq<BattleData>)
    requires ForcedChain(e, d, advances).Some?
    ensures IsChain(e, path) && path[0] == d
    ensures ForcedChain(e, d, advances).value == (path[|path| - 1], advances + |path| - 1)
    ensures advances <= UINT32_MAX ==> advances + |path| - 1 <= UINT32_MAX
    decreases Max(0, UINT32_MAX + 1 - advances)
  {
    if Stands(d) {
      path := [d];
    } else {
      var rest := ChainIsPath(e, e.next(d, []).value, advances + 1);
      path := [d] + rest;
      forall k | 0 <= k < |path| - 1 ensures Moves(e, path, k) {
        assert k > 0 ==> Moves(e, rest, k - 1);
      }
    }
  }

  lemma {:induction false} PathIsChain(e: ArenaEngine, path: seq<BattleData>, advances: nat)
    requires IsChain(e, path) && advances + |path| - 1 <= UINT32_MAX
    ensures ForcedChain(e, path[0], advances) == Some((path[|path| - 1], advances + |path| - 1))
    decreases |path|
  {
    if |path| > 1 {
      assert Moves(e, path, 0);
      forall k | 0 <= k < |path[1..]| - 1 ensures Moves(e, path[1..], k) {
        assert Moves(e, path, k + 1);
      }
      PathIsChain(e, path[1..], advances + 1);
    }
  }

  // ---------------------------------------------------------------- steps

  /** The game takes the action and then every callback without a choice, fewer than 2^32 - 1 in all. */
  ghost predicate Plays(e: ArenaEngine, game: BattleData, action: seq<int>, path: seq<BattleData>) {
    && IsChain(e, path) && e.next(game, action) == Some(path[0]) && |path| <= 0xFFFF_FFFF
  }

  /** A finished game answers with status 2 and error 105, a rejected action with 3 and the engine's
      error, a game that cannot be played on with 5 and 199, and none of them is committed.  Otherwise
      the committed row holds the game the chain leads to, its status, 2 if that is over and 1 if not,
      and the number of callbacks. */
  lemma StepRowMeans(e: ArenaEngine, game: BattleData, action: seq<int>)
    ensures var p := PlayRow(e, game, action);
      && (game.finished ==> p == Pending(Row(Some(game), 2, 105, 0), false))
      && (!game.finished && e.select(game, action) != 0 ==>
            p == Pending(Row(Some(game), 3, e.select(game, action), 0), false))
      && (!game.finished && e.select(game, action) == 0 ==>
            && (p.commit <==> exists path :: Plays(e, game, action, path))
            && (!p.commit ==> p == Pending(Row(Some(game), 5, 199, 0), false))
            && forall path: seq<BattleData> :: Plays(e, game, action, path) ==>
                 var last := path[|path| - 1];
                 p == Pending(Row(Some(last), if last.finished then 2 else 1, 0, |path|), true))
  {
    hide Moves, ForcedChain;
    var p := PlayRow(e, game, action);
    if p.commit {
      var path := ChainIsPath(e, e.next(game, action).value, 0);
      assert Plays(e, game, action, path);
    }
    forall path | Plays(e, game, action, path)
      ensures ForcedChain(e, path[0], 0) == Some((path[|path| - 1], |path| - 1))
    {
      PathIsChain(e, path, 0);
    }
  }

  /** The same of a reset, whose game starts as the engine deals it. */
  ghost predicate Deals(e: ArenaEngine, decks: seq<int>, seed: nat, path: seq<BattleData>) {
    IsChain(e, path) && e.create(decks, seed) == Some(path[0]) && |path| - 1 <= 0xFFFF_FFFF
  }

  lemma ResetRowMeans(e: ArenaEngine, decks: seq<int>, seed: nat, game: Option<BattleData>)
    ensures var p := ResetRow(e, decks, seed, game);
      && (e.deckError(decks) != 0 ==> p == Pending(Row(game, 4, e.deckError(decks), 0), false))
      && (e.deckError(decks) == 0 ==>
            && (p.commit <==> exists path :: Deals(e, decks, seed, path))
            && (!p.commit ==> p == Pending(Row(game, 5, 199, 0), false)))
      && forall path: seq<BattleData> :: e.deckError(decks) == 0 && Deals(e, decks, seed, path) ==>
           p == Pending(Row(Some(path[|path| - 1]), if path[|path| - 1].finished then 2 else 1, 0, |path| - 1), true)
  {
    hide Moves, ForcedChain;
    var p := ResetRow(e, decks, seed, game);
    if p.commit {
      var path := ChainIsPath(e, e.create(decks, seed).value, 0);
      assert Deals(e, decks, seed, path);
    }
    forall path | Deals(e, decks, seed, path)
      ensures ForcedChain(e, path[0], 0) == Some((path[|path| - 1], |path| - 1))
    {
      PathIsChain(e, path, 0);
    }
  }

  // ---------------------------------------------------------------- buffers

  function JoinedActions(offsets: seq<nat>, actions: seq<int>, n: nat, k: nat): seq<int>
    requires |offsets| == n + 1 && CsrOk(offsets, actions, n) && k <= n
  {
    if k == 0 then [] else JoinedActions(offsets, actions, n, k - 1) + ActionAt(offsets, actions, n, k - 1)
  }

  /** The actions of the rows, one after the other, are the whole buffer, and row i has as many as its
      offsets say. */
  lemma {:induction false} ActionsJoin(offsets: seq<nat>, actions: seq<int>, n: nat, k: nat)
    requires |offsets| == n + 1 && CsrOk(offsets, actions, n) && k <= n
    ensures offsets[k] <= |actions| && JoinedActions(offsets, actions, n, k) == actions[..offsets[k]]
    ensures k == n ==> JoinedActions(offsets, actions, n, k) == actions
    ensures k < n ==> |ActionAt(offsets, actions, n, k)| == offsets[k + 1] - offsets[k]
  {
    CsrMonotone(offsets, actions, n, k);
    if k > 0 {
      ActionsJoin(offsets, actions, n, k - 1);
      SplitBetween(actions, offsets[k - 1], offsets[k]);
    }
    if k < n {
      CsrMonotone(offsets, actions, n, k + 1);
    }
  }

  /** Every offset of an accepted plan is a 32-bit number, and every stretch lies in the caller's buffers. */
  lemma PlanIsAddressable(out: ArenaOutput, rows: seq<Row>, plan: Plan, i: nat)
    requires Plans(plan, rows) && Fits(out, rows) && i <= |rows|
    ensures plan.options[i] <= 0xFFFF_FFFF && plan.options[i] <= out.options.Length
    ensures plan.cards[i] <= 0xFFFF_FFFF && plan.cards[i] <= out.table.cards.Length
    ensures plan.attachments[i] <= 0xFFFF_FFFF && plan.attachments[i] <= out.table.attachments.Length
    ensures plan.logs[i] <= 0xFFFF_FFFF && plan.logs[i] <= out.logs.Length
  {
    hide OptionParts, CardParts, AttachmentParts, LogParts, OffsetOf;
    OffsetMonotone(OptionParts(rows), i, |rows|);
    OffsetMonotone(CardParts(rows), i, |rows|);
    OffsetMonotone(AttachmentParts(rows), i, |rows|);
    OffsetMonotone(LogParts(rows), i, |rows|);
  }

  // ---------------------------------------------------------------- scalars

  /** The scalar row of a game at a card offset: the virtual rows it names are the rows of those cards. */
  lemma ScalarsPoint(row: Row, cardBase: nat)
    requires row.data.Some?
    ensures var s, d := ScalarsOf(row, cardBase), row.data.value;
      && s.status == row.status && s.error == row.error && s.advances == row.advances
      && s.selectPlayer == d.view.selectPlayer && s.facts == d.facts && s.deckVisible == d.view.selectDeck
      && ModeMeans(d.view, s.lookingMode)
      && (if d.view.contextCard.Some? then
            && cardBase <= s.contextRow < cardBase + |VisibleOf(row)|
            && IsVirtual(d.view, VisibleOf(row)[s.contextRow - cardBase].card, 0, d.view.contextCard.value)
          else s.contextRow == 0xFFFF_FFFF)
      && (if d.view.effectCard.Some? then
            && cardBase <= s.effectRow < cardBase + |VisibleOf(row)|
            && IsVirtual(d.view, VisibleOf(row)[s.effectRow - cardBase].card, 1, d.view.effectCard.value)
          else s.effectRow == 0xFFFF_FFFF)
  {
    hide Table, Visible, LookingMode, ModeMeans;
    var v := row.data.value.view;
    TraversalShows(v);
    VirtualRowsPoint(v);
    assert VisibleOf(row) == Visible(v);
  }

  predicate IsVirtual(v: View, card: CardRow, index: int, ref: nat) {
    card.area == 0 && card.areaIndex == index && card.serial == ref && card.cardId == v.card(ref).id
  }

  // ---------------------------------------------------------------- observations

  /** The observation of a row written to the end is that of the game as committed, its log not yet
      delivered; all other slots keep theirs. */
  lemma ObservationsAfterPublish(c0: Contents, c: Contents, pending: seq<Pending>, slots: seq<nat>, json: Renderer,
                                 entered: set<nat>, k: nat)
    requires Published(c0, c, pending, slots, json, entered) && k < |c0.slots|
    ensures |pending| == |slots| && k < |c.observations| == |c0.observations|
    ensures k !in slots ==> c.observations[k] == c0.observations[k]
    ensures forall i :: 0 <= i < |slots| && slots[i] == k ==>
      if i in entered && pending[i].row.error == 0 && pending[i].row.data.Some?
          && (pending[i].row.status == 1 || pending[i].row.status == 2) && json(pending[i].row.data.value).Some? then
        c.observations[k] == json(pending[i].row.data.value).value
      else c.observations[k] == c0.observations[k]
  {
    hide Placed, ScalarsWritten, BatchOk, CountThrows;
    var rows := RowsOf(pending);
    var g :| Committed(c0.slots, g, pending, slots) && BatchOk(rows, slots, g)
             && Written(c0.(slots := g), c, rows, slots, json, entered);
    BatchSlots(rows, slots, g, k);
  }

  lemma BatchSlots(rows: seq<Row>, slots: seq<nat>, games: seq<Option<BattleData>>, k: nat)
    requires BatchOk(rows, slots, games)
    ensures |rows| == |slots|
  {
  }
}
