/**
 Whether the owner's final status tells the truth. A row the loop remembers while it is still
 pending is marked "delivered" by a later fetch, whatever the lost mark was going to say.
*/
module DeliveryLedger {
  import opened Basics
  import opened DeliverySend
  import opened DeliveryOwner
  import opened DeliveryFetch
  import opened DeliveryLoop
  import opened DeliverySafety

  ghost predicate HasSent(log: seq<Entry>, id: RunId) {
    exists e :: e in log && e.id == id && e.attempt.ending.Sent?
  }

  predicate RecordedDelivered(w: World, id: RunId) {
    id in w.table.outcomes && w.table.outcomes[id] == Delivered
  }

  // Remembered, but still pending: the next fetch that reaches the row marks it "delivered".
  predicate Misremembered(w: World, id: RunId) {
    id in w.inMemory && id in Ids(w.table.pending)
  }

  // What the owner says, or would say after a fetch that reaches the row. The records of the
  // runs in `past` were there before the loop state was.
  predicate Claimed(past: set<RunId>, w: World, id: RunId) {
    (RecordedDelivered(w, id) && id !in past) || Misremembered(w, id)
  }

  // Every run claimed as delivered was sent.
  ghost predicate Truthful(past: set<RunId>, w: World) {
    forall id :: Claimed(past, w, id) ==> HasSent(w.log, id)
  }

  // What the round decides about an open row other than a successful delivery.
  predicate GivesUp(w: World, r: Round, row: Row) {
    && !ShouldHold(row.forced, r.mode, r.idleFor)
    && row.id !in w.inMemory
    && (|| !ClassifyTarget(row, r.allowed).Ready?
        || (r.sessionFound && !row.readable)
        || (r.sessionFound && EndsUnsent(w, row.id, AttemptOf(r.control, r.opening, r.wires))))
  }

  predicate EndsUnsent(w: World, id: RunId, a: Attempt) {
    a.ending.OutcomeUnknown? || (a.ending.Retryable? && AttemptsOf(w.attempts, id) + 1 >= MAX_DELIVERY_ATTEMPTS)
  }

  // The round gives a row up and the mark that says so does not reach the owner.
  predicate LosesVerdict(w: World, r: Round) {
    Picked(w, r).Some? && r.mark == Lost(false) && GivesUp(Picked(w, r).value.world, r, Picked(w, r).value.row)
  }

  lemma {:induction false} SentLanded(log: seq<Entry>, id: RunId)
    requires HasSent(log, id)
    ensures Landings(log, id) >= 1
  {
    var e :| e in log && e.id == id && e.attempt.ending.Sent?;
    if log[|log| - 1] != e {
      var k :| 0 <= k < |log| && log[k] == e;
      assert log[..|log| - 1][k] == e;
      SentLanded(log[..|log| - 1], id);
    }
  }

  lemma HasSentAppend(log: seq<Entry>, e: Entry, id: RunId)
    ensures HasSent(log + [e], id) <==> HasSent(log, id) || (e.id == id && e.attempt.ending.Sent?)
  {
    assert (log + [e])[|log|] == e;
    assert forall x :: x in log ==> x in log + [e];
  }

  lemma OpenRowUnsent(w: World, id: RunId)
    requires Inv(w) && id in Ids(w.table.pending) && id !in w.inMemory
    ensures !HasSent(w.log, id)
  {
    assert RowInv(w, id);
    if HasSent(w.log, id) {
      SentLanded(w.log, id);
    }
  }

  // ---- what a round does before it delivers ----

  lemma {:induction false} SweptFromBatch(batch: seq<Row>, inMemory: set<RunId>, acks: seq<Ack>, id: RunId)
    requires id in Sweep(batch, inMemory, acks).gone
    ensures id in inMemory && exists row :: row in batch && row.id == id
    decreases |batch|
  {
    if id == batch[0].id {
      assert batch[0] in batch;
    } else {
      SweptFromBatch(batch[1..], inMemory, Rest(acks), id);
    }
  }

  // A sweep only confirms remembered rows.
  lemma SweptTruthful(past: set<RunId>, w: World, acks: seq<Ack>)
    requires Truthful(past, w)
    ensures Truthful(past, w.(table := Retire(w.table, Fetch(w.table.pending, w.inMemory, acks).gone, Delivered)))
  {
    var gone := Fetch(w.table.pending, w.inMemory, acks).gone;
    KeepIds(w.table.pending, gone);
    forall id | id in gone ensures Misremembered(w, id) {
      SweptFromBatch(Batch(w.table.pending, w.inMemory), w.inMemory, acks, id);
    }
    var swept := w.(table := Retire(w.table, gone, Delivered));
    forall id | Claimed(past, swept, id) ensures HasSent(w.log, id) {
      assert Claimed(past, w, id);
    }
  }

  lemma ArrivedTruthful(past: set<RunId>, w: World, rows: seq<Row>)
    requires Truthful(past, w) && FreshRows(rows, Met(w))
    ensures Truthful(past, Arrive(w, rows))
  {
    var after := Arrive(w, rows);
    forall id | Claimed(past, after, id) ensures HasSent(w.log, id) {
      assert Claimed(past, w, id) by {
        ArrivedIds(w, rows);
      }
    }
  }

  lemma ArrivedIds(w: World, rows: seq<Row>)
    ensures Ids(Arrive(w, rows).table.pending) == Ids(w.table.pending) + Ids(rows)
  {
  }

  lemma OvertakenTruthful(past: set<RunId>, w: World, gone: set<RunId>)
    requires Truthful(past, w)
    ensures Truthful(past, w.(table := Retire(w.table, gone, Overtaken)))
  {
    KeepIds(w.table.pending, gone);
    var after := w.(table := Retire(w.table, gone, Overtaken));
    forall id | Claimed(past, after, id) ensures HasSent(w.log, id) {
      assert Claimed(past, w, id);
    }
  }

  lemma FetchedTruthful(past: set<RunId>, w: World, r: Round)
    requires Inv(w) && FreshRound(w, r) && Truthful(past, w)
    ensures var here := Arrive(w, r.arrivals);
            var f := Fetch(here.table.pending, here.inMemory, r.sweepAcks);
            Truthful(past, here) && Truthful(past, here.(table := Retire(here.table, f.gone, Delivered)))
  {
    ArrivedTruthful(past, w, r.arrivals);
    SweptTruthful(past, Arrive(w, r.arrivals), r.sweepAcks);
  }

  lemma SeenTruthful(past: set<RunId>, w: World, rows: seq<Row>, producer: string)
    requires Truthful(past, w) && FreshRows(rows, Met(w))
    ensures var seen := Arrive(w, rows);
            var newest := NewestOf(seen.table.pending, producer);
            && Truthful(past, seen)
            && (newest.Some? ==>
                Truthful(past,
                    seen.(table := Retire(seen.table, Superseded(seen.table.pending, producer, newest.value.id),
                                          Overtaken))))
  {
    ArrivedTruthful(past, w, rows);
    var seen := Arrive(w, rows);
    var newest := NewestOf(seen.table.pending, producer);
    if newest.Some? {
      OvertakenTruthful(past, seen, Superseded(seen.table.pending, producer, newest.value.id));
    }
  }

  lemma ChosenTruthful(past: set<RunId>, w: World, r: Round, row: Row)
    requires Truthful(past, w) && FreshRows(r.lateArrivals, Met(w))
    ensures PickFrom(w, r, row).Some? ==> Truthful(past, PickFrom(w, r, row).value.world)
    ensures PickFrom(w, r, row).None? ==> Truthful(past, Choose(w, r, row).world)
  {
    if row.kind.Cron? && row.producer.Some? {
      SeenTruthful(past, w, r.lateArrivals, row.producer.value);
    }
  }

  lemma PickedTruthful(past: set<RunId>, w: World, r: Round)
    requires Inv(w) && FreshRound(w, r) && Truthful(past, w)
    ensures Picked(w, r).Some? ==> Truthful(past, Picked(w, r).value.world)
    ensures Picked(w, r).None? ==> Truthful(past, Step(w, r).world)
  {
    FetchedTruthful(past, w, r);
    SweptKeepsInv(w, r);
    var here := Arrive(w, r.arrivals);
    var f := Fetch(here.table.pending, here.inMemory, r.sweepAcks);
    if r.fetchAnswers && f.result.Found? {
      ChosenTruthful(past, here.(table := Retire(here.table, f.gone, Delivered)), r, f.result.row);
    }
  }

  // ---- the delivery ----

  lemma SettleTruthful(past: set<RunId>, w: World, id: RunId, status: Status, ack: Ack)
    requires Truthful(past, w) && HasSent(w.log, id)
    ensures Truthful(past, Settle(w, id, status, ack))
  {
    KeepIds(w.table.pending, {id});
    var after := Settle(w, id, status, ack);
    forall other | Claimed(past, after, other) ensures HasSent(w.log, other) {
      assert other == id || Claimed(past, w, other);
    }
  }

  lemma GiveUpTruthfulIff(past: set<RunId>, w: World, id: RunId, status: Status, ack: Ack)
    requires Truthful(past, w) && !HasSent(w.log, id) && id in Ids(w.table.pending) && status != Delivered
    ensures Truthful(past, Settle(w, id, status, ack)) <==> ack != Lost(false)
  {
    KeepIds(w.table.pending, {id});
    var after := Settle(w, id, status, ack);
    if ack == Lost(false) {
      assert Misremembered(after, id);
    } else {
      forall other | Claimed(past, after, other) ensures HasSent(w.log, other) {
        assert Claimed(past, w, other);
      }
    }
  }

  // Logging an attempt leaves the record of the others as it was.
  lemma LoggedTruthful(past: set<RunId>, w: World, e: Entry)
    requires Truthful(past, w)
    ensures Truthful(past, w.(log := w.log + [e]))
  {
    forall id | Claimed(past, w, id) ensures HasSent(w.log + [e], id) {
      HasSentAppend(w.log, e, id);
    }
  }

  lemma CountsDoNotMatter(past: set<RunId>, w: World, attempts: map<RunId, nat>)
    ensures Truthful(past, w.(attempts := attempts)) <==> Truthful(past, w)
  {
    var other := w.(attempts := attempts);
    assert forall id :: RecordedDelivered(other, id) == RecordedDelivered(w, id);
    assert forall id :: Misremembered(other, id) == Misremembered(w, id);
  }

  lemma CloseOutTruthfulIff(past: set<RunId>, w: World, id: RunId, a: Attempt, ack: Ack)
    requires Inv(w) && Truthful(past, w) && id in Ids(w.table.pending) && id !in w.inMemory
    ensures Truthful(past, CloseOut(w, id, a, ack).world) <==> !(ack == Lost(false) && EndsUnsent(w, id, a))
  {
    var e := Entry(id, a);
    OpenRowUnsent(w, id);
    HasSentAppend(w.log, e, id);
    LoggedTruthful(past, w, e);
    var logged := w.(log := w.log + [e]);
    if a.ending.Sent? {
      SettleTruthful(past, logged, id, Delivered, ack);
    } else if EndsUnsent(w, id, a) {
      GiveUpTruthfulIff(past, logged, id, Failed, ack);
      CountsDoNotMatter(past, Settle(logged, id, Failed, ack), w.attempts - {id});
    } else if a.ending.Retryable? {
      CountsDoNotMatter(past, logged, w.attempts[id := AttemptsOf(w.attempts, id) + 1]);
    }
  }

  lemma RemarkTruthful(past: set<RunId>, w: World, id: RunId, ack: Ack)
    requires Truthful(past, w) && id in Ids(w.table.pending) && id in w.inMemory
    ensures Truthful(past, w.(table := MarkedTable(w.table, id, Delivered, ack),
                        inMemory := if ack.Acked? then w.inMemory - {id} else w.inMemory))
  {
    KeepIds(w.table.pending, {id});
    assert Misremembered(w, id);
    var after := w.(table := MarkedTable(w.table, id, Delivered, ack),
                    inMemory := if ack.Acked? then w.inMemory - {id} else w.inMemory);
    forall other | Claimed(past, after, other) ensures HasSent(w.log, other) {
      assert Claimed(past, w, other);
    }
  }

  lemma DeliverTruthfulIff(past: set<RunId>, w: World, r: Round, row: Row)
    requires Inv(w) && Truthful(past, w) && row.id in Ids(w.table.pending)
    ensures Truthful(past, Deliver(w, r, row).world) <==> !(r.mark == Lost(false) && GivesUp(w, r, row))
  {
    if ShouldHold(row.forced, r.mode, r.idleFor) {
    } else if row.id in w.inMemory {
      RemarkTruthful(past, w, row.id, r.mark);
    } else {
      OpenRowUnsent(w, row.id);
      match ClassifyTarget(row, r.allowed)
      case NoChat => GiveUpTruthfulIff(past, w, row.id, NoTarget, r.mark);
      case NotAllowed => GiveUpTruthfulIff(past, w, row.id, Denied, r.mark);
      case Ready(_) =>
        if r.sessionFound {
          if row.readable {
            CloseOutTruthfulIff(past, w, row.id, AttemptOf(r.control, r.opening, r.wires), r.mark);
          } else {
            GiveUpTruthfulIff(past, w, row.id, Failed, r.mark);
          }
        }
    }
  }

  /**
   Whatever was recorded before, from a truthful ledger a round leaves a truthful one exactly when it does not give up a
   row with a mark that fails without being applied. A mark that was applied, though its
   acknowledgement was lost, does no harm.
  */
  lemma TruthfulIffVerdictKept(past: set<RunId>, w: World, r: Round)
    requires Inv(w) && FreshRound(w, r) && Truthful(past, w)
    ensures Truthful(past, Step(w, r).world) <==> !LosesVerdict(w, r)
  {
    PickedTruthful(past, w, r);
    if Picked(w, r).Some? {
      PickedFacts(w, r);
      DeliverTruthfulIff(past, Picked(w, r).value.world, r, Picked(w, r).value.row);
    }
  }

  // ---- over whole runs ----

  ghost predicate KeepsVerdicts(w: World, rounds: seq<Round>)
    decreases |rounds|
  {
    rounds == [] || (!LosesVerdict(w, rounds[0]) && KeepsVerdicts(Step(w, rounds[0]).world, rounds[1..]))
  }

  lemma {:induction false} RunTruthful(past: set<RunId>, w: World, rounds: seq<Round>)
    requires Inv(w) && Truthful(past, w) && FreshRounds(w, rounds) && Finished(w, rounds) && KeepsVerdicts(w, rounds)
    ensures Truthful(past, Run(w, rounds))
    decreases |rounds|
  {
    if rounds != [] {
      StepKeepsInv(w, rounds[0]);
      TruthfulIffVerdictKept(past, w, rounds[0]);
      RunTruthful(past, Step(w, rounds[0]).world, rounds[1..]);
    }
  }

  /** Over every run in which no verdict is lost, whatever it newly records as delivered was sent. */
  lemma RecordedMeansSent(t: Table, rounds: seq<Round>, id: RunId)
    requires Coherent(t) && FreshRounds(Start(t), rounds) && Finished(Start(t), rounds) &&
      KeepsVerdicts(Start(t), rounds)
    ensures RecordedDelivered(Run(Start(t), rounds), id) && !RecordedDelivered(Start(t), id) ==>
            HasSent(Run(Start(t), rounds).log, id)
  {
    var past := set done | done in t.outcomes && t.outcomes[done] == Delivered;
    StartInv(t);
    assert Truthful(past, Start(t));
    RunTruthful(past, Start(t), rounds);
    if RecordedDelivered(Run(Start(t), rounds), id) && id !in past {
      assert Claimed(past, Run(Start(t), rounds), id);
    }
  }

  // ---- what a lost verdict leads to ----

  /** A fetch that answers and whose first mark is honoured records the oldest row as delivered if it is remembered. */
  lemma RememberedIsRecorded(w: World, r: Round)
    requires Inv(w) && FreshRound(w, r) && w.table.pending != [] && w.table.pending[0].id in w.inMemory
    requires r.fetchAnswers && AckAt(r.sweepAcks).Acked? && !Step(w, r).end.Hung?
    ensures var id := w.table.pending[0].id;
            && RecordedDelivered(Step(w, r).world, id)
            && (HasSent(Step(w, r).world.log, id) <==> HasSent(w.log, id))
  {
    var id := w.table.pending[0].id;
    SweepRecordsFirst(w, r);
    if Picked(w, r).Some? {
      var p := Picked(w, r).value;
      PickedFacts(w, r);
      DeliverKeepsRecord(p.world, r, p.row, id);
      DeliverLogs(p.world, r, p.row);
      HasSentAppend(w.log, Entry(p.row.id, AttemptOf(r.control, r.opening, r.wires)), id);
    } else {
      UnpickedKeepsInv(w, r);
    }
  }

  lemma SweepRecordsFirst(w: World, r: Round)
    requires Inv(w) && FreshRound(w, r) && w.table.pending != [] && w.table.pending[0].id in w.inMemory
    requires r.fetchAnswers && AckAt(r.sweepAcks).Acked?
    ensures var id := w.table.pending[0].id;
            && (Picked(w, r).Some? ==>
                RecordedDelivered(Picked(w, r).value.world, id) && Picked(w, r).value.row.id != id)
            && (Picked(w, r).None? ==> RecordedDelivered(Step(w, r).world, id))
  {
    var here := Arrive(w, r.arrivals);
    var f := Fetch(here.table.pending, here.inMemory, r.sweepAcks);
    FirstIsSwept(w, r);
    SweptKeepsInv(w, r);
    KeepIds(here.table.pending, f.gone);
    if f.result.Found? {
      ChosenKeepsRecord(here.(table := Retire(here.table, f.gone, Delivered)), r, f.result.row, w.table.pending[0].id);
    }
  }

  lemma FirstIsSwept(w: World, r: Round)
    requires w.table.pending != [] && w.table.pending[0].id in w.inMemory && AckAt(r.sweepAcks).Acked?
    ensures var here := Arrive(w, r.arrivals);
            w.table.pending[0].id in Fetch(here.table.pending, here.inMemory, r.sweepAcks).gone
  {
    var here := Arrive(w, r.arrivals);
    assert Batch(here.table.pending, here.inMemory)[0] == w.table.pending[0];
  }

  // Rows that arrive late or are superseded are other rows.
  lemma ChosenKeepsRecord(w: World, r: Round, row: Row, id: RunId)
    requires RecordedDelivered(w, id) && id !in Ids(w.table.pending) && FreshRows(r.lateArrivals, Met(w))
    requires row.id in Ids(w.table.pending)
    ensures PickFrom(w, r, row).Some? ==>
              RecordedDelivered(PickFrom(w, r, row).value.world, id) && PickFrom(w, r, row).value.row.id != id
    ensures PickFrom(w, r, row).None? ==> RecordedDelivered(Choose(w, r, row).world, id)
  {
    if row.kind.Cron? && row.producer.Some? {
      var seen := Arrive(w, r.lateArrivals);
      ArrivedIds(w, r.lateArrivals);
      assert forall other :: other in seen.table.pending ==> other.id in Ids(seen.table.pending);
    }
  }

  lemma DeliverKeepsRecord(w: World, r: Round, row: Row, id: RunId)
    requires RecordedDelivered(w, id) && row.id != id
    ensures RecordedDelivered(Deliver(w, r, row).world, id)
  {
    if ClassifyTarget(row, r.allowed).Ready? && r.sessionFound && row.readable {
      CloseOutKeepsRecord(w, row.id, AttemptOf(r.control, r.opening, r.wires), r.mark, id);
    }
  }

  lemma CloseOutKeepsRecord(w: World, id: RunId, a: Attempt, ack: Ack, other: RunId)
    requires RecordedDelivered(w, other) && id != other
    ensures RecordedDelivered(CloseOut(w, id, a, ack).world, other)
  {
  }

  /**
   So the ledger can lie: a run without a chat whose "no target" mark is lost is recorded as
   delivered by the next fetch, though nothing was ever attempted.
  */
  lemma NeverSentYetDelivered(row: Row, lost: Round, next: Round)
    requires row.chat.None? && row.kind.Background? && lost.mode.ShutdownFlush?
    requires lost.fetchAnswers && lost.arrivals == [] && lost.mark == Lost(false)
    requires next.fetchAnswers && next.arrivals == [] && next.sweepAcks == []
    ensures var w := Run(Start(Table([row], map[])), [lost, next]);
            RecordedDelivered(w, row.id) && w.log == []
  {
    var start := Start(Table([row], map[]));
    var given := start.(inMemory := {row.id});
    GivesUpChatless(row, lost);
    RecordsOnlyRow(row, next);
    RunTwo(start, lost, next);
  }

  lemma GivesUpChatless(row: Row, r: Round)
    requires row.chat.None? && row.kind.Background? && r.mode.ShutdownFlush?
    requires r.fetchAnswers && r.arrivals == [] && r.mark == Lost(false)
    ensures var start := Start(Table([row], map[]));
            Step(start, r) == Turn(start.(inMemory := {row.id}), Progressed)
  {
    var t := Table([row], map[]);
    assert [row] + [] == [row];
    KeepNothing([row]);
    assert Retire(t, {}, Delivered) == t;
    assert Batch([row], {}) == [row];
  }

  lemma RecordsOnlyRow(row: Row, r: Round)
    requires r.fetchAnswers && r.arrivals == [] && r.sweepAcks == []
    ensures var given := World(Table([row], map[]), {row.id}, map[], []);
            Step(given, r) == Turn(given.(table := Table([], map[row.id := Delivered])), Idle)
  {
    assert [row] + [] == [row];
    assert Batch([row], {row.id}) == [row];
    assert [row][1..] == [];
    assert Sweep([], {row.id}, []) == Swept(Exhausted, {});
    assert Fetch([row], {row.id}, []) == Swept(Exhausted, {} + {row.id});
    assert Keep([row], {row.id}) == [];
    assert Retire(Table([row], map[]), {row.id}, Delivered).outcomes == map[row.id := Delivered];
  }

  lemma RunTwo(w: World, first: Round, second: Round)
    requires !Step(w, first).end.Hung? && !Step(Step(w, first).world, second).end.Hung?
    ensures Run(w, [first, second]) == Step(Step(w, first).world, second).world
  {
    var next := Step(w, first).world;
    assert [first, second][1..] == [second] && [second][1..] == [];
    assert Run(next, [second]) == Run(Step(next, second).world, []);
  }
}
