/**
 What the owner is told: which row a round picks, and which status each verdict leaves. The
 statements speak of the world before and after a round, and of its log, only.
*/
module DeliveryVerdicts {
  import opened Basics
  import opened DeliverySend
  import opened DeliveryOwner
  import opened DeliveryFetch
  import opened DeliveryLoop
  import opened DeliverySafety

  // ---- which row ----

  lemma {:induction false} SweepStopsAtFirst(batch: seq<Row>, inMemory: set<RunId>, acks: seq<Ack>)
    requires Sweep(batch, inMemory, acks).result.Found?
    ensures exists i ::
              && 0 <= i < |batch| && batch[i] == Sweep(batch, inMemory, acks).result.row
              && batch[i].id !in inMemory && forall j :: 0 <= j < i ==> batch[j].id in inMemory
    decreases |batch|
  {
    if batch[0].id in inMemory {
      SweepStopsAtFirst(batch[1..], inMemory, Rest(acks));
      var rest := batch[1..];
      var i :|
        && 0 <= i < |rest| && rest[i] == Sweep(rest, inMemory, Rest(acks)).result.row
        && rest[i].id !in inMemory && forall j :: 0 <= j < i ==> rest[j].id in inMemory;
      assert batch[i + 1] == rest[i];
      forall j | 0 <= j < i + 1 ensures batch[j].id in inMemory {
        assert j > 0 ==> batch[j] == rest[j - 1];
      }
    } else {
      assert batch[0] == Sweep(batch, inMemory, acks).result.row;
    }
  }

  predicate OfJob(row: Row, producer: string) {
    row.kind.Cron? && row.producer == Some(producer)
  }

  // Row `i` is the last of the job.
  ghost predicate LastOfJob(rows: seq<Row>, producer: string, i: nat) {
    && i < |rows| && OfJob(rows[i], producer)
    && forall j :: i < j < |rows| ==> !OfJob(rows[j], producer)
  }

  function LastIndex(rows: seq<Row>, producer: string): (i: nat)
    requires NewestOf(rows, producer).Some?
  {
    if SameJob(rows[|rows| - 1], producer) then |rows| - 1 else LastIndex(rows[..|rows| - 1], producer)
  }

  /** The newest row of a job is its last: the list is ordered by finishing time. */
  lemma {:induction false} NewestIsLast(rows: seq<Row>, producer: string)
    ensures NewestOf(rows, producer).None? ==> forall i :: 0 <= i < |rows| ==> !OfJob(rows[i], producer)
    ensures NewestOf(rows, producer).Some? ==>
              LastOfJob(rows, producer, LastIndex(rows, producer))
              && rows[LastIndex(rows, producer)] == NewestOf(rows, producer).value
    decreases |rows|
  {
    if rows != [] && !SameJob(rows[|rows| - 1], producer) {
      NewestIsLast(rows[..|rows| - 1], producer);
    }
  }

  // Row `i` of the list is the first that the loop does not remember.
  predicate FirstOpen(rows: seq<Row>, inMemory: set<RunId>, i: nat) {
    && i < |rows| && rows[i].id !in inMemory
    && forall j :: 0 <= j < i ==> rows[j].id in inMemory
  }

  /**
   A background row, or one without a producer, is picked as it is: the oldest row not
   remembered. A row of a job stands for the job: picked is the newest row of the job still
   pending, late arrivals included, forced when any of them is; the others are overtaken.
  */
  lemma PickLaw(w: World, r: Round)
    requires Inv(w) && FreshRound(w, r) && Picked(w, r).Some?
    ensures exists i: nat :: FirstOpen(w.table.pending + r.arrivals, w.inMemory, i) &&
              PickStandsFor((w.table.pending + r.arrivals)[i], w, r)
  {
    var here := Arrive(w, r.arrivals);
    var batch := Batch(here.table.pending, here.inMemory);
    SweepStopsAtFirst(batch, here.inMemory, r.sweepAcks);
    var f := Fetch(here.table.pending, here.inMemory, r.sweepAcks);
    var i: nat :|
      && i < |batch| && batch[i] == f.result.row
      && batch[i].id !in here.inMemory && forall j :: 0 <= j < i ==> batch[j].id in here.inMemory;
    assert FirstOpen(w.table.pending + r.arrivals, w.inMemory, i) by {
      forall j | 0 <= j < i ensures (w.table.pending + r.arrivals)[j].id in w.inMemory {
        assert batch[j] == (w.table.pending + r.arrivals)[j];
      }
    }
    StandsFor(w, r, f.result.row);
  }

  // What `row` is delivered as.
  ghost predicate PickStandsFor(row: Row, w: World, r: Round)
    requires Picked(w, r).Some?
  {
    var p := Picked(w, r).value;
    if row.kind.Background? || row.producer.None? then p.row == row
    else exists rows, i: nat :: OpenRows(rows, w, r) && StandsForJob(rows, i, row.producer.value, p)
  }

  // The rows pending at the dedup call: those of the fetch that were not confirmed, and the late ones.
  ghost predicate OpenRows(rows: seq<Row>, w: World, r: Round) {
    exists gone: set<RunId> :: gone <= w.inMemory && rows == Keep(w.table.pending + r.arrivals, gone) + r.lateArrivals
  }

  // Row `i`, the last of its job among `rows`, is picked and the others of the job are overtaken.
  ghost predicate StandsForJob(rows: seq<Row>, i: nat, producer: string, p: Pick) {
    && LastOfJob(rows, producer, i)
    && p.row == Row(rows[i].id, rows[i].kind, rows[i].producer, rows[i].chat, rows[i].readable, p.row.forced)
    && (p.row.forced <==> exists other :: other in rows && OfJob(other, producer) && other.forced)
    && (forall other :: other in p.world.table.pending <==>
         other in rows && (!OfJob(other, producer) || other.id == p.row.id))
    && (forall other :: other in rows && OfJob(other, producer) && other.id != p.row.id ==>
         other.id in p.world.table.outcomes && p.world.table.outcomes[other.id] == Overtaken)
  }

  lemma StandsFor(w: World, r: Round, row: Row)
    requires Inv(w) && FreshRound(w, r) && Picked(w, r).Some?
    requires Fetch(w.table.pending + r.arrivals, w.inMemory, r.sweepAcks).result == Found(row)
    ensures PickStandsFor(row, w, r)
  {
    if row.kind.Cron? && row.producer.Some? {
      var here := Arrive(w, r.arrivals);
      var f := Fetch(here.table.pending, here.inMemory, r.sweepAcks);
      SweepFinds(Batch(here.table.pending, here.inMemory), here.inMemory, r.sweepAcks);
      var rows := Keep(here.table.pending, f.gone) + r.lateArrivals;
      assert OpenRows(rows, w, r);
      var swept := here.(table := Retire(here.table, f.gone, Delivered));
      SweptKeepsInv(w, r);
      ArriveKeepsInv(swept, r.lateArrivals);
      var i := DedupLaw(swept, r, row, rows);
      assert StandsForJob(rows, i, row.producer.value, Picked(w, r).value);
    }
  }

  lemma DedupLaw(swept: World, r: Round, row: Row, rows: seq<Row>) returns (i: nat)
    requires row.kind.Cron? && row.producer.Some? && PickFrom(swept, r, row).Some?
    requires rows == swept.table.pending + r.lateArrivals && Distinct(rows)
    ensures StandsForJob(rows, i, row.producer.value, PickFrom(swept, r, row).value)
  {
    var producer := row.producer.value;
    NewestIsLast(rows, producer);
    i := LastIndex(rows, producer);
    var gone := Superseded(rows, producer, rows[i].id);
    OvertakenAre(rows, producer, i);
    assert forall other :: other in Keep(rows, gone) <==> other in rows && other.id !in gone;
  }

  // Of the job only the winner is left; no other row shares an id with the overtaken ones.
  lemma OvertakenAre(rows: seq<Row>, producer: string, i: nat)
    requires Distinct(rows) && i < |rows|
    ensures forall other :: other in rows ==>
              (other.id in Superseded(rows, producer, rows[i].id) <==> OfJob(other, producer) && other.id != rows[i].id)
  {
    forall other | other in rows && other.id in Superseded(rows, producer, rows[i].id)
      ensures OfJob(other, producer)
    {
      var same :| same in rows && SameJob(same, producer) && same.id == other.id;
      var j :| 0 <= j < |rows| && rows[j] == other;
      var k :| 0 <= k < |rows| && rows[k] == same;
      assert j == k;
    }
  }

  /** With an owner that answers and honours marks, and fewer than 100 rows remembered, an open row means a pick. */
  lemma OpenRowMeansPick(w: World, r: Round, i: nat)
    requires Inv(w) && FreshRound(w, r) && |w.inMemory| < 100
    requires r.fetchAnswers && HonestAcks(r.sweepAcks) && r.dedupAck.Acked?
    requires i < |w.table.pending + r.arrivals| && (w.table.pending + r.arrivals)[i].id !in w.inMemory
    ensures Picked(w, r).Some?
  {
    var here := Arrive(w, r.arrivals);
    ArriveKeepsInv(w, r.arrivals);
    SmallSetNeverStarves(here.table.pending, w.inMemory, r.sweepAcks);
    NoneMeansAllInside(here.table.pending, w.inMemory);
    var f := Fetch(here.table.pending, w.inMemory, r.sweepAcks);
    SweepFinds(Batch(here.table.pending, here.inMemory), here.inMemory, r.sweepAcks);
    FoundRowIsPicked(here.(table := Retire(here.table, f.gone, Delivered)), r, f.result.row);
  }

  lemma FoundRowIsPicked(w: World, r: Round, row: Row)
    requires row in w.table.pending && r.dedupAck.Acked?
    ensures PickFrom(w, r, row).Some?
  {
    if row.kind.Cron? && row.producer.Some? {
      var rows := w.table.pending + r.lateArrivals;
      NewestIsLast(rows, row.producer.value);
      var k :| 0 <= k < |w.table.pending| && w.table.pending[k] == row;
      assert rows[k] == row && OfJob(row, row.producer.value);
    }
  }

  // ---- which status ----

  // The gate before any verdict: a forced row, the flush, or two idle minutes.
  predicate GateOpen(row: Row, r: Round) {
    row.forced || r.mode.ShutdownFlush? || r.idleFor >= 120
  }

  /** While the gate is closed the picked row is left as it is. */
  lemma HeldIsUntouched(w: World, r: Round)
    requires Inv(w) && FreshRound(w, r) && Picked(w, r).Some? && !GateOpen(Picked(w, r).value.row, r)
    ensures Step(w, r) == Turn(Picked(w, r).value.world, Idle)
  {
    PickedFacts(w, r);
  }

  /** A picked row the loop remembers is recorded as delivered, and forgotten once that is confirmed. */
  lemma RememberedPickIsRecorded(w: World, r: Round)
    requires Inv(w) && FreshRound(w, r) && Picked(w, r).Some?
    requires GateOpen(Picked(w, r).value.row, r) && Picked(w, r).value.row.id in w.inMemory
    ensures var id, after := Picked(w, r).value.row.id, Step(w, r).world;
            && Step(w, r).end.Progressed? && after.log == w.log
            && (r.mark != Lost(false) ==>
                id in after.table.outcomes && after.table.outcomes[id] == Delivered && id !in Ids(after.table.pending))
            && (r.mark == Lost(false) ==> id in Ids(after.table.pending))
            && after.inMemory == if r.mark.Acked? then w.inMemory - {id} else w.inMemory
  {
    PickedFacts(w, r);
    var p := Picked(w, r).value;
    KeepIds(p.world.table.pending, {p.row.id});
  }

  /**
   The verdicts without an attempt. A row without a chat is recorded as "no target", one whose
   chat is not allowed as "denied", an unreadable one as "failed"; a failing session lookup
   leaves the row for the next round.
  */
  lemma UnattemptedIsRecorded(w: World, r: Round)
    requires Inv(w) && FreshRound(w, r) && Picked(w, r).Some?
    requires GateOpen(Picked(w, r).value.row, r) && Picked(w, r).value.row.id !in w.inMemory
    ensures var row, after := Picked(w, r).value.row, Step(w, r).world;
            && (row.chat.None? && r.mark != Lost(false) ==>
                row.id in after.table.outcomes && after.table.outcomes[row.id] == NoTarget)
            && (row.chat.Some? && row.chat.value !in r.allowed && r.mark != Lost(false) ==>
                row.id in after.table.outcomes && after.table.outcomes[row.id] == Denied)
            && (row.chat.Some? && row.chat.value in r.allowed && r.sessionFound && !row.readable
                && r.mark != Lost(false) ==>
                row.id in after.table.outcomes && after.table.outcomes[row.id] == Failed)
            && (row.chat.None? || row.chat.value !in r.allowed || (r.sessionFound && !row.readable) ==>
                && Step(w, r).end.Progressed? && after.log == w.log
                && (row.id in Ids(after.table.pending) <==> r.mark == Lost(false))
                && after.inMemory == if r.mark.Acked? then w.inMemory else w.inMemory + {row.id})
            && (row.chat.Some? && row.chat.value in r.allowed && !r.sessionFound ==>
                Step(w, r) == Turn(Picked(w, r).value.world, OwnerError))
  {
    PickedFacts(w, r);
    SettledIsRecorded(Picked(w, r).value.world, Picked(w, r).value.row.id, r.mark);
  }

  lemma SettledIsRecorded(w: World, id: RunId, ack: Ack)
    requires id in Ids(w.table.pending)
    ensures forall status ::
              var after := Settle(w, id, status, ack);
              && after.log == w.log
              && (ack != Lost(false) ==> id in after.table.outcomes && after.table.outcomes[id] == status)
              && (id in Ids(after.table.pending) <==> ack == Lost(false))
              && after.inMemory == if ack.Acked? then w.inMemory else w.inMemory + {id}
  {
    KeepIds(w.table.pending, {id});
  }

  // The last attempt of the log.
  function LastEntry(w: World): Entry
    requires w.log != []
  {
    w.log[|w.log| - 1]
  }

  // Nothing is left to try: sent, fate unknown, or failed for the third time.
  predicate IsFinal(w: World)
    requires w.log != []
  {
    var e := LastEntry(w);
    || e.attempt.ending.Sent? || e.attempt.ending.OutcomeUnknown?
    || (e.attempt.ending.Retryable? && Retries(w.log, e.id) >= 3)
  }

  /**
   The verdicts of an attempt. A sent run is recorded as delivered; one whose fate is unknown, or
   that failed for the third time, as failed. Until the mark is confirmed a final run is
   remembered. After an interruption, or a first or second failure, the row is still pending
   and nothing is remembered.
  */
  lemma AttemptIsRecorded(w: World, r: Round)
    requires Inv(w) && FreshRound(w, r) && Step(w, r).world.log != w.log && !Step(w, r).end.Hung?
    ensures Step(w, r).world.log != []
    ensures var after := Step(w, r).world; var e := LastEntry(after);
            && (e.attempt.ending.Sent? && r.mark != Lost(false) ==>
                e.id in after.table.outcomes && after.table.outcomes[e.id] == Delivered)
            && (IsFinal(after) && !e.attempt.ending.Sent? && r.mark != Lost(false) ==>
                e.id in after.table.outcomes && after.table.outcomes[e.id] == Failed)
            && (e.id in Ids(after.table.pending) <==> !IsFinal(after) || r.mark == Lost(false))
            && after.inMemory == (if IsFinal(after) && r.mark.Lost? then w.inMemory + {e.id} else w.inMemory)
    ensures var after := Step(w, r).world; var e := LastEntry(after);
            Step(w, r).end == if e.attempt.ending.Interrupted? then Idle else Progressed
  {
    AttemptClosesOut(w, r);
    var p := Picked(w, r).value;
    var a := AttemptOf(r.control, r.opening, r.wires);
    CloseOutHung(p.world, p.row.id, a, r.mark);
    CloseOutRecords(p.world, p.row.id, a, r.mark);
  }

  lemma AttemptClosesOut(w: World, r: Round)
    requires Inv(w) && FreshRound(w, r) && Step(w, r).world.log != w.log
    ensures Picked(w, r).Some?
    ensures var p := Picked(w, r).value;
            && Inv(p.world) && p.row.id in Ids(p.world.table.pending) && p.row.id !in p.world.inMemory
            && p.world.log == w.log && p.world.inMemory == w.inMemory
            && Step(w, r) == CloseOut(p.world, p.row.id, AttemptOf(r.control, r.opening, r.wires), r.mark)
  {
    AttemptsArePermitted(w, r);
    PickedFacts(w, r);
    DeliverShape(Picked(w, r).value.world, r, Picked(w, r).value.row);
  }

  lemma CloseOutRecords(w: World, id: RunId, a: Attempt, ack: Ack)
    requires Inv(w) && id in Ids(w.table.pending) && id !in w.inMemory && !a.ending.NeverReturned?
    ensures var after := CloseOut(w, id, a, ack).world;
            && after.log == w.log + [Entry(id, a)]
            && (a.ending.Sent? && ack != Lost(false) ==>
                id in after.table.outcomes && after.table.outcomes[id] == Delivered)
            && (IsFinal(after) && !a.ending.Sent? && ack != Lost(false) ==>
                id in after.table.outcomes && after.table.outcomes[id] == Failed)
            && (id in Ids(after.table.pending) <==> !IsFinal(after) || ack == Lost(false))
            && after.inMemory == (if IsFinal(after) && ack.Lost? then w.inMemory + {id} else w.inMemory)
    ensures CloseOut(w, id, a, ack).end == if a.ending.Interrupted? then Idle else Progressed
  {
    assert RowInv(w, id);
    CloseOutLogs(w, id, a, ack);
    CountAppend(w.log, Entry(id, a), id);
    KeepIds(w.table.pending, {id});
  }

  // Either an attempt is closed out, or the log stays and nothing hangs.
  lemma DeliverShape(w: World, r: Round, row: Row)
    ensures var turn := Deliver(w, r, row);
            || (turn.world.log == w.log && !turn.end.Hung?)
            || turn == CloseOut(w, row.id, AttemptOf(r.control, r.opening, r.wires), r.mark)
  {
    if ShouldHold(row.forced, r.mode, r.idleFor) {
    } else if row.id in w.inMemory {
    } else if !ClassifyTarget(row, r.allowed).Ready? {
    } else if r.sessionFound && row.readable {
    }
  }

  lemma CloseOutHung(w: World, id: RunId, a: Attempt, ack: Ack)
    ensures CloseOut(w, id, a, ack).end.Hung? <==> a.ending.NeverReturned?
  {
  }

  lemma HungNeverReturned(w: World, r: Round)
    requires Inv(w) && FreshRound(w, r) && Step(w, r).end.Hung?
    ensures Step(w, r).world.log != w.log && Step(w, r).world.log != []
    ensures LastEntry(Step(w, r).world).attempt.ending.NeverReturned?
  {
    if Picked(w, r).Some? {
      PickedFacts(w, r);
      var p := Picked(w, r).value;
      var a := AttemptOf(r.control, r.opening, r.wires);
      DeliverShape(p.world, r, p.row);
      CloseOutHung(p.world, p.row.id, a, r.mark);
      CloseOutLogs(p.world, p.row.id, a, r.mark);
    } else {
      UnpickedKeepsInv(w, r);
    }
  }

  /** A sent run is recorded as delivered, unless its mark is lost without being applied. */
  lemma SentIsRecorded(w: World, r: Round, e: Entry)
    requires Inv(w) && FreshRound(w, r) && Step(w, r).world.log == w.log + [e] && e.attempt.ending.Sent?
    ensures r.mark != Lost(false) ==>
            e.id in Step(w, r).world.table.outcomes && Step(w, r).world.table.outcomes[e.id] == Delivered
  {
    assert LastEntry(Step(w, r).world) == e;
    if Step(w, r).end.Hung? {
      HungNeverReturned(w, r);
    } else {
      AttemptIsRecorded(w, r);
    }
  }

  // Pending, recorded and remembered as before.
  predicate SameFor(a: World, b: World, id: RunId) {
    && (id in Ids(a.table.pending) <==> id in Ids(b.table.pending))
    && (id in a.table.outcomes <==> id in b.table.outcomes)
    && (id in a.table.outcomes ==> a.table.outcomes[id] == b.table.outcomes[id])
    && (id in a.inMemory <==> id in b.inMemory)
  }

  /** No round touches the rows and records of other runs than the one it picked. */
  lemma OthersAreUntouched(w: World, r: Round, other: RunId)
    requires Inv(w) && FreshRound(w, r) && Picked(w, r).Some? && other != Picked(w, r).value.row.id
    ensures SameFor(Picked(w, r).value.world, Step(w, r).world, other)
  {
    PickedFacts(w, r);
    DeliverSparesOthers(Picked(w, r).value.world, r, Picked(w, r).value.row, other);
  }

  lemma SettleSparesOthers(w: World, id: RunId, status: Status, ack: Ack, other: RunId)
    requires other != id
    ensures SameFor(w, Settle(w, id, status, ack), other)
    ensures SameFor(w, w.(table := MarkedTable(w.table, id, status, ack)), other)
  {
    KeepIds(w.table.pending, {id});
  }

  lemma DeliverSparesOthers(w: World, r: Round, row: Row, other: RunId)
    requires other != row.id
    ensures SameFor(w, Deliver(w, r, row).world, other)
  {
    if ShouldHold(row.forced, r.mode, r.idleFor) {
    } else if row.id in w.inMemory {
      SettleSparesOthers(w, row.id, Delivered, r.mark, other);
    } else {
      match ClassifyTarget(row, r.allowed)
      case NoChat => SettleSparesOthers(w, row.id, NoTarget, r.mark, other);
      case NotAllowed => SettleSparesOthers(w, row.id, Denied, r.mark, other);
      case Ready(_) =>
        if r.sessionFound {
          SettleSparesOthers(w, row.id, Failed, r.mark, other);
          CloseOutSparesOthers(w, row.id, AttemptOf(r.control, r.opening, r.wires), r.mark, other);
        }
    }
  }

  lemma CloseOutSparesOthers(w: World, id: RunId, a: Attempt, ack: Ack, other: RunId)
    requires other != id
    ensures SameFor(w, CloseOut(w, id, a, ack).world, other)
  {
    var logged := w.(log := w.log + [Entry(id, a)]);
    SettleSparesOthers(logged, id, Delivered, ack, other);
    SettleSparesOthers(logged, id, Failed, ack, other);
  }
}
