/** Public-log deltas: every seat has a cursor into one shared log that is compacted as both
    cursors pass it, and what a seat receives is projected for its eyes. */
module PublicLogs {
  import opened Common

  type Params = s: seq<int> | |s| == 7 witness seq(7, i => 0)

  /** The public kinds of the engine's log, and everything after the last public kind. */
  datatype LogKind =
    | Shuffle | TurnStart | TurnEnd | DrawReverse | HasBasicPokemon | Coin | Result | Draw | MoveCard
    | MoveCardReverse | Play | Attack | Poisoned | Burned | Asleep | Paralyzed | Confused
    | Switch | Change | Attach | Evolve | Devolve | HpChange | MoveAttached
    | Private(code: int)

  datatype Log = Log(kind: LogKind, param: Params)

  datatype PublicLog = PublicLog(kind: LogKind, params: seq<int>)

  // ---------------------------------------------------------------- projection

  function ParamCount(kind: LogKind): (n: nat)
    ensures n <= 7
  {
    match kind
    case Shuffle => 1
    case TurnStart => 1
    case TurnEnd => 1
    case DrawReverse => 1
    case HasBasicPokemon => 2
    case Coin => 2
    case Result => 2
    case Draw => 3
    case MoveCardReverse => 3
    case Play => 3
    case Attack => 4
    case Poisoned => 4
    case Burned => 4
    case Asleep => 4
    case Paralyzed => 4
    case Confused => 4
    case MoveAttached => 7
    case Private(_) => 0
    case _ => 5
  }

  /** Whether a seat may see which card was drawn or moved. */
  predicate MayIdentify(log: Log, perspective: int) {
    match log.kind
    case Draw => log.param[0] == perspective || perspective == 2
    case MoveCard =>
      || log.param[5] == 0 || (log.param[5] == 1 && log.param[0] == perspective)
      || (log.param[5] == 3 && perspective == 0) || (log.param[5] == 4 && perspective == 1) || perspective == 2
    case _ => true
  }

  function ProjectPublicLog(log: Log, perspective: int): PublicLog {
    if MayIdentify(log, perspective) then PublicLog(log.kind, log.param[..ParamCount(log.kind)])
    else if log.kind.Draw? then PublicLog(DrawReverse, [log.param[0]])
    else PublicLog(MoveCardReverse, [log.param[0], log.param[3], log.param[4]])
  }

  /** What a projection can depend on: an unidentifiable draw shows who drew, an
      unidentifiable move who moved and between which areas; card and serial stay hidden. */
  lemma ProjectionHides(a: Log, b: Log, perspective: int)
    requires a.kind == b.kind && !MayIdentify(a, perspective) && !MayIdentify(b, perspective)
    ensures ProjectPublicLog(a, perspective) == ProjectPublicLog(b, perspective) <==>
      a.param[0] == b.param[0] && (a.kind.MoveCard? ==> a.param[3] == b.param[3] && a.param[4] == b.param[4])
  {
    var x, y := ProjectPublicLog(a, perspective), ProjectPublicLog(b, perspective);
    if x == y {
      assert x.params[0] == y.params[0];
      if a.kind.MoveCard? {
        assert x.params[1] == y.params[1] && x.params[2] == y.params[2];
      }
    }
  }

  /** The public entries of a stretch of log, as a seat sees them. */
  function Delta(logs: seq<Log>, perspective: int): seq<PublicLog> {
    if logs == [] then []
    else
      var last := logs[|logs| - 1];
      Delta(logs[..|logs| - 1], perspective) + if last.kind.Private? then [] else [ProjectPublicLog(last, perspective)]
  }

  /** What a seat may tell apart: all public parameters of an entry it may identify, mover and
      areas of one it may not, and nothing of a private one. */
  predicate AlikeTo(a: Log, b: Log, perspective: int) {
    if a.kind.Private? then b.kind.Private?
    else
      && a.kind == b.kind && (MayIdentify(a, perspective) <==> MayIdentify(b, perspective))
      && (if MayIdentify(a, perspective) then a.param[..ParamCount(a.kind)] == b.param[..ParamCount(b.kind)]
          else a.param[0] == b.param[0] && (a.kind.MoveCard? ==> a.param[3] == b.param[3] && a.param[4] == b.param[4]))
  }

  /** Logs that look alike entry by entry are delivered alike: no unidentified card, and
      nothing of a private entry, reaches the seat. */
  lemma {:induction false} DeltaHides(a: seq<Log>, b: seq<Log>, perspective: int)
    requires |a| == |b| && forall i :: 0 <= i < |a| ==> AlikeTo(a[i], b[i], perspective)
    ensures Delta(a, perspective) == Delta(b, perspective)
  {
    hide AlikeTo, ProjectPublicLog;
    if a != [] {
      var n := |a| - 1;
      DeltaHides(a[..n], b[..n], perspective);
      EntryHides(a[n], b[n], perspective);
    }
  }

  lemma EntryHides(a: Log, b: Log, perspective: int)
    requires AlikeTo(a, b, perspective)
    ensures a.kind.Private? <==> b.kind.Private?
    ensures !a.kind.Private? ==> ProjectPublicLog(a, perspective) == ProjectPublicLog(b, perspective)
  {
    if !a.kind.Private? && !MayIdentify(a, perspective) {
      ProjectionHides(a, b, perspective);
    }
  }

  lemma {:induction false} DeltaAppend(a: seq<Log>, b: seq<Log>, perspective: int)
    ensures Delta(a + b, perspective) == Delta(a, perspective) + Delta(b, perspective)
  {
    hide ProjectPublicLog;
    if b == [] {
      assert a + b == a;
    } else {
      var n := |b| - 1;
      DeltaAppend(a, b[..n], perspective);
      assert (a + b)[..|a + b| - 1] == a + b[..n] && (a + b)[|a + b| - 1] == b[n];
    }
  }

  // ---------------------------------------------------------------- cursors

  datatype LogState = LogState(logs: seq<Log>, cursor0: int, cursor1: int)

  function Cursor(s: LogState, perspective: int): int
    requires perspective == 0 || perspective == 1
  {
    if perspective == 0 then s.cursor0 else s.cursor1
  }

  /** Where a seat's unread entries start; None where the source throws. */
  function PublicLogStart(s: LogState, perspective: int): (start: Option<nat>)
    ensures start.None? <==>
      (perspective != 0 && perspective != 1) || Cursor(s, perspective) < 0 || Cursor(s, perspective) > |s.logs|
    ensures start.Some? ==> start.value == Cursor(s, perspective)
  {
    if perspective < 0 || perspective >= 2 then None
    else if Cursor(s, perspective) < 0 || Cursor(s, perspective) > |s.logs| then None
    else var cursor: nat := Cursor(s, perspective); Some(cursor)
  }

  /** The entries a successful output hands to a seat. */
  function Unread(s: LogState, perspective: int): seq<PublicLog> {
    match PublicLogStart(s, perspective)
    case None => []
    case Some(start) => Delta(s.logs[start..], perspective)
  }

  /** After a delivery the seat is up to date, and what both seats have passed is erased. */
  function Delivered(s: LogState, perspective: int): LogState
    requires PublicLogStart(s, perspective).Some? && 0 <= s.cursor0 <= |s.logs| && 0 <= s.cursor1 <= |s.logs|
  {
    Compacted(if perspective == 0 then s.(cursor0 := |s.logs|) else s.(cursor1 := |s.logs|))
  }

  function Compacted(s: LogState): LogState
    requires 0 <= s.cursor0 <= |s.logs| && 0 <= s.cursor1 <= |s.logs|
  {
    var consumed := Min(s.cursor0, s.cursor1);
    if consumed > 0 then LogState(s.logs[consumed..], s.cursor0 - consumed, s.cursor1 - consumed) else s
  }

  // ---------------------------------------------------------------- the whole history

  /** Everything ever logged, how much of it was erased, and what each seat was sent. */
  datatype History = History(all: seq<Log>, erased: nat, sent0: seq<PublicLog>, sent1: seq<PublicLog>)

  datatype Event = Appends(logs: seq<Log>) | Output(perspective: int) | Fails

  ghost predicate CursorsOk(s: LogState) {
    0 <= s.cursor0 <= |s.logs| && 0 <= s.cursor1 <= |s.logs|
  }

  predicate Happens(s: LogState, ev: Event) {
    ev.Output? ==> ev.perspective == 0 || ev.perspective == 1
  }

  function After(s: LogState, ev: Event): LogState
    requires CursorsOk(s) && Happens(s, ev)
  {
    match ev
    case Appends(logs) => s.(logs := s.logs + logs)
    case Output(perspective) => Delivered(s, perspective)
    case Fails => s
  }

  function Record(h: History, s: LogState, ev: Event): History
    requires CursorsOk(s) && Happens(s, ev)
  {
    match ev
    case Appends(logs) => h.(all := h.all + logs)
    case Output(perspective) =>
      var delta := Unread(s, perspective);
      var gone := |s.logs| - |Delivered(s, perspective).logs|;
      if perspective == 0 then h.(sent0 := h.sent0 + delta, erased := h.erased + gone)
      else h.(sent1 := h.sent1 + delta, erased := h.erased + gone)
    case Fails => h
  }

  /** The log held is the uncompacted one from where it was erased, and each seat was sent
      the projection of exactly the prefix its cursor has passed. */
  ghost predicate Faithful(h: History, s: LogState) {
    && CursorsOk(s)
    && h.erased + |s.logs| == |h.all| && s.logs == h.all[h.erased..]
    && h.sent0 == Delta(h.all[..h.erased + s.cursor0], 0)
    && h.sent1 == Delta(h.all[..h.erased + s.cursor1], 1)
  }

  lemma DeliveryStep(h: History, s: LogState, perspective: int)
    requires Faithful(h, s) && (perspective == 0 || perspective == 1)
    ensures var t := Delivered(s, perspective);
            var k := Record(h, s, Output(perspective));
      && Faithful(k, t) && k.all == h.all
      && Cursor(t, perspective) == |t.logs| && (t.cursor0 == 0 || t.cursor1 == 0)
      && k.erased + t.cursor0 >= h.erased + s.cursor0 && k.erased + t.cursor1 >= h.erased + s.cursor1
  {
    hide Delta, Compacted;
    var cursor := Cursor(s, perspective);
    var before := h.all[..h.erased + cursor];
    DeltaAppend(before, s.logs[cursor..], perspective);
    assert before + s.logs[cursor..] == h.all;
    assert h.all[..|h.all|] == h.all;
    var delta := Unread(s, perspective);
    if perspective == 0 {
      CompactionStep(h.(sent0 := h.sent0 + delta), s.(cursor0 := |s.logs|));
    } else {
      CompactionStep(h.(sent1 := h.sent1 + delta), s.(cursor1 := |s.logs|));
    }
  }

  /** Compaction moves no seat and loses only what both have passed. */
  lemma CompactionStep(h: History, s: LogState)
    requires Faithful(h, s)
    ensures var t := Compacted(s);
      && |t.logs| <= |s.logs| && Faithful(h.(erased := h.erased + (|s.logs| - |t.logs|)), t)
      && (t.cursor0 == 0 || t.cursor1 == 0)
      && |t.logs| - t.cursor0 == |s.logs| - s.cursor0 && |t.logs| - t.cursor1 == |s.logs| - s.cursor1
  {
    hide Delta;
  }

  /** Outputs are for one of the two seats. */
  predicate IsHistory(run: seq<Event>) {
    forall i :: 0 <= i < |run| && run[i].Output? ==> 0 <= run[i].perspective <= 1
  }

  ghost function RunOn(s: LogState, run: seq<Event>): LogState {
    if run == [] then s
    else
      var before := RunOn(s, run[..|run| - 1]);
      if CursorsOk(before) && Happens(before, run[|run| - 1]) then After(before, run[|run| - 1]) else before
  }

  ghost function RecordOf(h: History, s: LogState, run: seq<Event>): History {
    if run == [] then h
    else
      var before := RunOn(s, run[..|run| - 1]);
      var sofar := RecordOf(h, s, run[..|run| - 1]);
      if CursorsOk(before) && Happens(before, run[|run| - 1]) then Record(sofar, before, run[|run| - 1]) else sofar
  }

  /** Everything a run appended, in order. */
  function AppendedBy(run: seq<Event>): seq<Log> {
    if run == [] then []
    else AppendedBy(run[..|run| - 1]) + if run[|run| - 1].Appends? then run[|run| - 1].logs else []
  }

  const FRESH_LOGS := LogState([], 0, 0)
  const FRESH_HISTORY := History([], 0, [], [])

  /** Over any run of engine appends, successful outputs for either seat and failed rows,
      the rows sent to a seat, one output after the other, are the public projection of a
      prefix of the whole history: nothing is skipped, repeated or reordered, although the
      shared log is compacted on the way. */
  lemma {:induction false} EveryRunIsFaithful(run: seq<Event>)
    requires IsHistory(run)
    ensures Faithful(RecordOf(FRESH_HISTORY, FRESH_LOGS, run), RunOn(FRESH_LOGS, run))
    ensures RecordOf(FRESH_HISTORY, FRESH_LOGS, run).all == AppendedBy(run)
  {
    if run != [] {
      hide Delta, Delivered;
      var most, ev := run[..|run| - 1], run[|run| - 1];
      EveryRunIsFaithful(most);
      var s, h := RunOn(FRESH_LOGS, most), RecordOf(FRESH_HISTORY, FRESH_LOGS, most);
      EventStep(h, s, ev);
    }
  }

  lemma EventStep(h: History, s: LogState, ev: Event)
    requires Faithful(h, s) && Happens(s, ev)
    ensures Faithful(Record(h, s, ev), After(s, ev))
    ensures Record(h, s, ev).all == h.all + if ev.Appends? then ev.logs else []
  {
    hide Delta;
    match ev
    case Appends(logs) =>
      assert (h.all + logs)[..h.erased + s.cursor0] == h.all[..h.erased + s.cursor0];
      assert (h.all + logs)[..h.erased + s.cursor1] == h.all[..h.erased + s.cursor1];
    case Output(perspective) => DeliveryStep(h, s, perspective);
    case Fails =>
  }

  /** Right after its own output a seat has been sent the whole history. */
  lemma OutputCatchesUp(run: seq<Event>, perspective: int)
    requires IsHistory(run) && (perspective == 0 || perspective == 1)
    ensures var h := RecordOf(FRESH_HISTORY, FRESH_LOGS, run + [Output(perspective)]);
      (if perspective == 0 then h.sent0 else h.sent1) == Delta(AppendedBy(run), perspective)
  {
    hide Delta, Delivered;
    var whole := run + [Output(perspective)];
    assert whole[..|whole| - 1] == run;
    assert IsHistory(whole);
    EveryRunIsFaithful(whole);
    EveryRunIsFaithful(run);
    DeliveryStep(RecordOf(FRESH_HISTORY, FRESH_LOGS, run), RunOn(FRESH_LOGS, run), perspective);
    var h, s := RecordOf(FRESH_HISTORY, FRESH_LOGS, whole), RunOn(FRESH_LOGS, whole);
    assert h.all[..h.erased + Cursor(s, perspective)] == h.all;
  }
}
