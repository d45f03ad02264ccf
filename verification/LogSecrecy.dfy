/** What a seat may and must learn of the log, in kinds and parameters alone. */
module LogSecrecy {
  import opened Common
  import opened PublicLogs

  /** The opponent drew a card. */
  predicate OpponentDrew(log: Log, seat: int) {
    log.kind.Draw? && log.param[0] != seat
  }

  /** A card moved out of this seat's sight: not openly (0), not by the seat for its own eyes (1), and
      not for the eyes of this seat (3 for seat 0, 4 for seat 1). */
  predicate MovedUnseen(log: Log, seat: int) {
    && log.kind.MoveCard? && log.param[5] != 0 && !(log.param[5] == 1 && log.param[0] == seat)
    && log.param[5] != 3 + seat
  }

  /** Two entries that differ at most in which card, parameters 1 and 2, the opponent drew or was moved
      out of sight, or that are both private. */
  predicate DifferInHiddenCards(a: Log, b: Log, seat: int) {
    || (a.kind.Private? && b.kind.Private?)
    || (a.kind == b.kind
        && forall k :: 0 <= k < 7 && a.param[k] != b.param[k] ==>
             (k == 1 || k == 2) && (OpponentDrew(a, seat) || MovedUnseen(a, seat)))
  }

  lemma HiddenEntry(a: Log, b: Log, seat: int)
    requires 0 <= seat <= 1 && DifferInHiddenCards(a, b, seat)
    ensures a.kind.Private? <==> b.kind.Private?
    ensures !a.kind.Private? ==> ProjectPublicLog(a, seat) == ProjectPublicLog(b, seat)
  {
    if !a.kind.Private? && a.param != b.param {
      var k :| 0 <= k < 7 && a.param[k] != b.param[k];
    }
  }

  /** Whatever the opponent drew and whatever was moved out of sight, a seat is sent the same. */
  lemma {:induction false} HiddenCardsStayHidden(a: seq<Log>, b: seq<Log>, seat: int)
    requires 0 <= seat <= 1
    requires |a| == |b| && forall i :: 0 <= i < |a| ==> DifferInHiddenCards(a[i], b[i], seat)
    ensures Delta(a, seat) == Delta(b, seat)
  {
    hide DifferInHiddenCards, ProjectPublicLog;
    if a != [] {
      var n := |a| - 1;
      HiddenCardsStayHidden(a[..n], b[..n], seat);
      HiddenEntry(a[n], b[n], seat);
    }
  }

  /** How many parameters an entry in sight arrives with. */
  predicate Carries(kind: LogKind, n: nat) {
    && (n == 1 <==> kind.Shuffle? || kind.TurnStart? || kind.TurnEnd? || kind.DrawReverse?)
    && (n == 2 <==> kind.HasBasicPokemon? || kind.Coin? || kind.Result?)
    && (n == 3 <==> kind.Draw? || kind.MoveCardReverse? || kind.Play?)
    && (n == 4 <==> kind.Attack? || kind.Poisoned? || kind.Burned? || kind.Asleep? || kind.Paralyzed?
                    || kind.Confused?)
    && (n == 5 <==> kind.MoveCard? || kind.Switch? || kind.Change? || kind.Attach? || kind.Evolve? || kind.Devolve?
                    || kind.HpChange?)
    && (n == 7 <==> kind.MoveAttached?)
  }

  /** What one public entry arrives as: a drawn card as a draw without its card, a card moved out of
      sight as a move between two areas, everything else in full. */
  predicate ArrivesAs(log: Log, sent: PublicLog, seat: int) {
    if OpponentDrew(log, seat) then sent == PublicLog(DrawReverse, [log.param[0]])
    else if MovedUnseen(log, seat) then sent == PublicLog(MoveCardReverse, [log.param[0], log.param[3], log.param[4]])
    else sent.kind == log.kind && sent.params <= log.param && Carries(log.kind, |sent.params|)
  }

  function CountPublic(logs: seq<Log>): nat {
    if logs == [] then 0
    else CountPublic(logs[..|logs| - 1]) + if logs[|logs| - 1].kind.Private? then 0 else 1
  }

  /** Every public entry arrives, in its place and once: entry k as the one after as many as there are
      public entries before it. */
  lemma {:induction false} EveryEntryArrives(logs: seq<Log>, seat: int, k: nat)
    requires 0 <= seat <= 1 && k < |logs| && !logs[k].kind.Private?
    ensures |Delta(logs, seat)| == CountPublic(logs) && CountPublic(logs[..k]) < |Delta(logs, seat)|
    ensures ArrivesAs(logs[k], Delta(logs, seat)[CountPublic(logs[..k])], seat)
  {
    hide ProjectPublicLog, ArrivesAs;
    var n := |logs| - 1;
    PublicArrive(logs[..n], seat);
    if k < n {
      EveryEntryArrives(logs[..n], seat, k);
      assert logs[..n][..k] == logs[..k];
    } else {
      EntryArrives(logs[n], seat);
    }
  }

  lemma EntryArrives(log: Log, seat: int)
    requires 0 <= seat <= 1 && !log.kind.Private?
    ensures ArrivesAs(log, ProjectPublicLog(log, seat), seat)
  {
  }

  lemma {:induction false} PublicArrive(logs: seq<Log>, seat: int)
    ensures |Delta(logs, seat)| == CountPublic(logs)
  {
    hide ProjectPublicLog;
    if logs != [] {
      PublicArrive(logs[..|logs| - 1], seat);
    }
  }
}
