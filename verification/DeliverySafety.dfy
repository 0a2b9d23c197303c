/**
 What holds over every run of one `DeliveryLoopState`, whatever the owner, Telegram and
 shutdown do: no run's body text can be posted by two attempts, and no run is retried
 more than three times.
*/
module DeliverySafety {
  import opened Basics
  import opened DeliverySend
  import opened DeliveryOwner
  import opened DeliveryFetch
  import opened DeliveryLoop

  function LogIds(log: seq<Entry>): set<RunId> {
    set e | e in log :: e.id
  }

  // The attempt delivered, may have delivered, or put body text into Telegram.
  predicate Landed(a: Attempt) {
    a.bodyMayBePosted || !(a.ending.Retryable? || a.ending.Interrupted?)
  }

  // Attempts for `id` that landed.
  function Landings(log: seq<Entry>, id: RunId): nat {
    if log == [] then 0
    else
      var last := log[|log| - 1];
      Landings(log[..|log| - 1], id) + if last.id == id && Landed(last.attempt) then 1 else 0
  }

  // Attempts for `id` that ended in a retryable error.
  function Retries(log: seq<Entry>, id: RunId): nat {
    if log == [] then 0
    else
      var last := log[|log| - 1];
      Retries(log[..|log| - 1], id) + if last.id == id && last.attempt.ending.Retryable? then 1 else 0
  }

  // Terminal at the owner, or remembered by the loop.
  predicate Over(w: World, id: RunId) {
    id in w.table.outcomes || id in w.inMemory
  }

  ghost predicate Lawful(e: Entry) {
    e.attempt.ending.Retryable? || e.attempt.ending.Interrupted? ==> !e.attempt.bodyMayBePosted
  }

  ghost predicate Inv(w: World) {
    && Distinct(w.table.pending)
    && w.table.outcomes.Keys !! Ids(w.table.pending)
    && forall id {:trigger RowInv(w, id)} :: RowInv(w, id)
  }

  ghost predicate RowInv(w: World, id: RunId) {
    && Landings(w.log, id) <= 1
    && Retries(w.log, id) <= MAX_DELIVERY_ATTEMPTS
    && (Landings(w.log, id) == 1 || Retries(w.log, id) == MAX_DELIVERY_ATTEMPTS ==> Over(w, id))
    && (id in Ids(w.table.pending) && id !in w.inMemory ==> Retries(w.log, id) == AttemptsOf(w.attempts, id))
  }

  // Every id the loop or the owner has met so far.
  function Met(w: World): set<RunId> {
    Ids(w.table.pending) + w.table.outcomes.Keys + w.inMemory + w.attempts.Keys + LogIds(w.log)
  }

  ghost predicate FreshRows(rows: seq<Row>, met: set<RunId>) {
    Distinct(rows) && Ids(rows) !! met
  }

  // New results carry new run ids.
  ghost predicate FreshRound(w: World, r: Round) {
    FreshRows(r.arrivals, Met(w)) && FreshRows(r.lateArrivals, Met(w) + Ids(r.arrivals))
  }

  lemma {:induction false} UnloggedCounts(log: seq<Entry>, id: RunId)
    requires id !in LogIds(log)
    ensures Landings(log, id) == 0 && Retries(log, id) == 0
  {
    if log != [] {
      var prefix := log[..|log| - 1];
      assert forall e :: e in prefix ==> e in log;
      assert log[|log| - 1] in log;
      UnloggedCounts(prefix, id);
    }
  }

  lemma CountAppend(log: seq<Entry>, e: Entry, id: RunId)
    ensures Landings(log + [e], id) == Landings(log, id) + if e.id == id && Landed(e.attempt) then 1 else 0
    ensures Retries(log + [e], id) == Retries(log, id) + if e.id == id && e.attempt.ending.Retryable? then 1 else 0
  {
    assert (log + [e])[..|log + [e]| - 1] == log;
  }

  lemma ArriveKeepsInv(w: World, rows: seq<Row>)
    requires Inv(w) && FreshRows(rows, Met(w))
    ensures Inv(Arrive(w, rows))
    ensures Ids(Arrive(w, rows).table.pending) == Ids(w.table.pending) + Ids(rows)
  {
    var after := Arrive(w, rows);
    assert Ids(after.table.pending) == Ids(w.table.pending) + Ids(rows);
    assert forall r :: r in w.table.pending ==> r.id in Ids(w.table.pending);
    assert forall r :: r in rows ==> r.id in Ids(rows);
    forall id ensures RowInv(after, id) {
      assert RowInv(w, id);
      if id in Ids(rows) {
        UnloggedCounts(w.log, id);
      }
    }
  }

  lemma RetireKeepsInv(w: World, gone: set<RunId>, status: Status)
    requires Inv(w)
    ensures Inv(w.(table := Retire(w.table, gone, status)))
  {
    var after := w.(table := Retire(w.table, gone, status));
    KeepDistinct(w.table.pending, gone);
    KeepIds(w.table.pending, gone);
    forall id ensures RowInv(after, id) {
      assert RowInv(w, id);
    }
  }

  lemma MarkKeepsInv(w: World, id: RunId, status: Status, ack: Ack)
    requires Inv(w)
    ensures Inv(w.(table := MarkedTable(w.table, id, status, ack)))
    ensures ack.Acked? ==> id in MarkedTable(w.table, id, status, ack).outcomes
  {
    RetireKeepsInv(w, {id}, status);
  }

  // Remembering or forgetting an id that is over is harmless.
  lemma MemoryKeepsInv(w: World, inMemory: set<RunId>)
    requires Inv(w)
    requires forall id :: id in w.inMemory && id !in inMemory ==> id in w.table.outcomes
    ensures Inv(w.(inMemory := inMemory))
  {
    forall id ensures RowInv(w.(inMemory := inMemory), id) {
      assert RowInv(w, id);
    }
  }

  lemma SettleKeepsInv(w: World, id: RunId, status: Status, ack: Ack)
    requires Inv(w)
    ensures Inv(Settle(w, id, status, ack)) && Over(Settle(w, id, status, ack), id)
  {
    MarkKeepsInv(w, id, status, ack);
    var marked := w.(table := MarkedTable(w.table, id, status, ack));
    MemoryKeepsInv(marked, Settle(w, id, status, ack).inMemory);
  }

  // Logging an attempt of `e.id` over a world whose row is already over, or stays open.
  lemma LogKeepsInv(w: World, e: Entry, attempts: map<RunId, nat>)
    requires Inv(w)
    requires forall id :: id != e.id ==> AttemptsOf(attempts, id) == AttemptsOf(w.attempts, id)
    requires Landings(w.log + [e], e.id) <= 1 && Retries(w.log + [e], e.id) <= MAX_DELIVERY_ATTEMPTS
    requires Over(w, e.id) || (Landings(w.log + [e], e.id) == 0 && Retries(w.log + [e], e.id) < MAX_DELIVERY_ATTEMPTS)
    requires e.id in Ids(w.table.pending) && e.id !in w.inMemory ==>
      Retries(w.log + [e], e.id) == AttemptsOf(attempts, e.id)
    ensures Inv(w.(log := w.log + [e], attempts := attempts))
  {
    var after := w.(log := w.log + [e], attempts := attempts);
    forall id ensures RowInv(after, id) {
      assert RowInv(w, id);
      CountAppend(w.log, e, id);
    }
  }

  lemma CloseOutKeepsInv(w: World, id: RunId, attempt: Attempt, ack: Ack)
    requires Inv(w) && Lawful(Entry(id, attempt))
    requires id in Ids(w.table.pending) && id !in w.inMemory
    ensures var turn := CloseOut(w, id, attempt, ack); turn.end != Hung ==> Inv(turn.world)
  {
    var e := Entry(id, attempt);
    assert RowInv(w, id);
    CountAppend(w.log, e, id);
    match attempt.ending {
      case Sent(_, _) => SettledEntry(w, e, Delivered, ack, w.attempts);
      case OutcomeUnknown => SettledEntry(w, e, Failed, ack, w.attempts - {id});
      case Retryable =>
        var n := AttemptsOf(w.attempts, id) + 1;
        if n >= MAX_DELIVERY_ATTEMPTS {
          SettledEntry(w, e, Failed, ack, w.attempts - {id});
        } else {
          LogKeepsInv(w, e, w.attempts[id := n]);
        }
      case Interrupted => LogKeepsInv(w, e, w.attempts);
      case NeverReturned =>
    }
  }

  lemma SettledEntry(w: World, e: Entry, status: Status, ack: Ack, attempts: map<RunId, nat>)
    requires Inv(w)
    requires forall id :: id != e.id ==> AttemptsOf(attempts, id) == AttemptsOf(w.attempts, id)
    requires Landings(w.log + [e], e.id) <= 1 && Retries(w.log + [e], e.id) <= MAX_DELIVERY_ATTEMPTS
    ensures Inv(Settle(w.(log := w.log + [e]), e.id, status, ack).(attempts := attempts))
  {
    SettleKeepsInv(w, e.id, status, ack);
    var settled := Settle(w, e.id, status, ack);
    assert RowInv(settled, e.id);
    KeepIds(w.table.pending, {e.id});
    LogKeepsInv(settled, e, attempts);
  }

  lemma DeliverKeepsInv(w: World, r: Round, row: Row)
    requires Inv(w) && row.id in Ids(w.table.pending)
    ensures Deliver(w, r, row).end != Hung ==> Inv(Deliver(w, r, row).world)
  {
    if ShouldHold(row.forced, r.mode, r.idleFor) {
    } else if row.id in w.inMemory {
      RemarkKeepsInv(w, row.id, r.mark);
    } else {
      match ClassifyTarget(row, r.allowed) {
        case NoChat => SettleKeepsInv(w, row.id, NoTarget, r.mark);
        case NotAllowed => SettleKeepsInv(w, row.id, Denied, r.mark);
        case Ready(_) =>
          if r.sessionFound && row.readable {
            AttemptLaws(r.control, r.opening, r.wires);
            CloseOutKeepsInv(w, row.id, AttemptOf(r.control, r.opening, r.wires), r.mark);
          } else {
            SettleKeepsInv(w, row.id, Failed, r.mark);
          }
      }
    }
  }

  // Marking a remembered row again, and forgetting it once the mark is confirmed.
  lemma RemarkKeepsInv(w: World, id: RunId, ack: Ack)
    requires Inv(w) && id in w.inMemory
    ensures Inv(w.(table := MarkedTable(w.table, id, Delivered, ack),
                   inMemory := if ack.Acked? then w.inMemory - {id} else w.inMemory))
  {
    MarkKeepsInv(w, id, Delivered, ack);
    MemoryKeepsInv(w.(table := MarkedTable(w.table, id, Delivered, ack)),
                   if ack.Acked? then w.inMemory - {id} else w.inMemory);
  }

  lemma DeliverLandsOnce(w: World, r: Round, row: Row, id: RunId)
    requires Inv(w) && row.id in Ids(w.table.pending)
    ensures Landings(Deliver(w, r, row).world.log, id) <= 1
  {
    assert RowInv(w, id);
    DeliverLogs(w, r, row);
    CountAppend(w.log, Entry(row.id, AttemptOf(r.control, r.opening, r.wires)), id);
  }

  lemma CloseOutLogs(w: World, id: RunId, attempt: Attempt, ack: Ack)
    ensures CloseOut(w, id, attempt, ack).world.log == w.log + [Entry(id, attempt)]
  {
    match attempt.ending
    case Sent(_, _) =>
    case Interrupted =>
    case OutcomeUnknown =>
    case Retryable =>
    case NeverReturned =>
  }

  lemma DeliverLogs(w: World, r: Round, row: Row)
    ensures var turn := Deliver(w, r, row);
            turn.world.log == w.log
            || (row.id !in w.inMemory &&
                turn.world.log == w.log + [Entry(row.id, AttemptOf(r.control, r.opening, r.wires))])
  {
    if ShouldHold(row.forced, r.mode, r.idleFor) {
    } else if row.id in w.inMemory {
    } else if !ClassifyTarget(row, r.allowed).Ready? {
    } else if r.sessionFound && row.readable {
      CloseOutLogs(w, row.id, AttemptOf(r.control, r.opening, r.wires), r.mark);
    }
  }

  lemma SweepFinds(batch: seq<Row>, inMemory: set<RunId>, acks: seq<Ack>)
    ensures var s := Sweep(batch, inMemory, acks);
            && s.gone <= inMemory
            && (s.result.Found? ==> s.result.row in batch && s.result.row.id !in inMemory)
    decreases |batch|
  {
    if batch != [] {
      SweepFinds(batch[1..], inMemory, Rest(acks));
    }
  }

  // The world a round starts delivering from, and the row it picked.
  datatype Pick = Pick(world: World, row: Row)

  /** The row a round hands to `Deliver`, if it gets that far. */
  function Picked(w: World, r: Round): Option<Pick> {
    var here := Arrive(w, r.arrivals);
    var f := Fetch(here.table.pending, here.inMemory, r.sweepAcks);
    if !r.fetchAnswers || !f.result.Found? then None
    else
      PickFrom(here.(table := Retire(here.table, f.gone, Delivered)), r, f.result.row)
  }

  // The row delivered in place of the one fetched.
  function PickFrom(w: World, r: Round, row: Row): Option<Pick> {
    if row.kind.Background? || row.producer.None? then Some(Pick(w, row))
    else
      var seen := Arrive(w, r.lateArrivals);
      var newest := NewestOf(seen.table.pending, row.producer.value);
      if newest.None? || !r.dedupAck.Acked? then None
      else
        var gone := Superseded(seen.table.pending, row.producer.value, newest.value.id);
        Some(Pick(seen.(table := Retire(seen.table, gone, Overtaken)),
                  Candidate(seen.table.pending, row.producer.value, newest.value)))
  }

  lemma SweptKeepsInv(w: World, r: Round)
    requires Inv(w) && FreshRound(w, r)
    ensures var here := Arrive(w, r.arrivals);
            var f := Fetch(here.table.pending, here.inMemory, r.sweepAcks);
            var swept := here.(table := Retire(here.table, f.gone, Delivered));
            && Inv(here) && Inv(swept) && FreshRows(r.lateArrivals, Met(swept))
            && (f.result.Found? ==> f.result.row.id in Ids(swept.table.pending) && f.result.row.id !in swept.inMemory)
  {
    ArriveKeepsInv(w, r.arrivals);
    var here := Arrive(w, r.arrivals);
    var f := Fetch(here.table.pending, here.inMemory, r.sweepAcks);
    RetireKeepsInv(here, f.gone, Delivered);
    SweepFinds(Batch(here.table.pending, here.inMemory), here.inMemory, r.sweepAcks);
    KeepIds(here.table.pending, f.gone);
    assert Met(here) == Met(w) + Ids(r.arrivals);
    assert Met(here.(table := Retire(here.table, f.gone, Delivered))) <= Met(here);
  }

  lemma SupersedeSparesWinner(rows: seq<Row>, producer: string, winner: Row)
    requires winner in rows
    ensures winner.id in Ids(Keep(rows, Superseded(rows, producer, winner.id)))
  {
    KeepIds(rows, Superseded(rows, producer, winner.id));
  }

  lemma PickedFacts(w: World, r: Round)
    requires Inv(w) && FreshRound(w, r) && Picked(w, r).Some?
    ensures var p := Picked(w, r).value;
            && Step(w, r) == Deliver(p.world, r, p.row)
            && Inv(p.world) && p.row.id in Ids(p.world.table.pending)
            && p.world.log == w.log && p.world.inMemory == w.inMemory && p.world.attempts == w.attempts
  {
    SweptKeepsInv(w, r);
    var here := Arrive(w, r.arrivals);
    var f := Fetch(here.table.pending, here.inMemory, r.sweepAcks);
    var swept := here.(table := Retire(here.table, f.gone, Delivered));
    var row := f.result.row;
    if row.kind.Cron? && row.producer.Some? {
      ArriveKeepsInv(swept, r.lateArrivals);
      var seen := Arrive(swept, r.lateArrivals);
      var newest := NewestOf(seen.table.pending, row.producer.value).value;
      RetireKeepsInv(seen, Superseded(seen.table.pending, row.producer.value, newest.id), Overtaken);
      SupersedeSparesWinner(seen.table.pending, row.producer.value, newest);
    }
  }

  // A dedup call that yields no row to deliver.
  lemma UnchosenKeepsInv(w: World, r: Round, row: Row)
    requires Inv(w) && FreshRows(r.lateArrivals, Met(w)) && row.kind.Cron? && row.producer.Some?
    requires !r.dedupAck.Acked? || NewestOf(Arrive(w, r.lateArrivals).table.pending, row.producer.value).None?
    ensures Inv(Choose(w, r, row).world) && Choose(w, r, row).world.log == w.log && !Choose(w, r, row).end.Hung?
  {
    ArriveKeepsInv(w, r.lateArrivals);
    var seen := Arrive(w, r.lateArrivals);
    DedupKeepsInv(seen, row.producer.value);
    UnchosenWorld(w, r, row);
  }

  lemma UnchosenWorld(w: World, r: Round, row: Row)
    requires row.kind.Cron? && row.producer.Some?
    requires !r.dedupAck.Acked? || NewestOf(Arrive(w, r.lateArrivals).table.pending, row.producer.value).None?
    ensures var seen := Arrive(w, r.lateArrivals);
            var newest := NewestOf(seen.table.pending, row.producer.value);
            var end := Choose(w, r, row);
            && !end.end.Hung?
            && (end.world == seen ||
                (newest.Some? &&
                 end.world == seen.(table := Retire(seen.table,
                     Superseded(seen.table.pending, row.producer.value, newest.value.id), Overtaken))))
  {
  }

  lemma DedupKeepsInv(w: World, producer: string)
    requires Inv(w)
    ensures var newest := NewestOf(w.table.pending, producer);
            newest.Some? ==>
              Inv(w.(table := Retire(w.table, Superseded(w.table.pending, producer, newest.value.id), Overtaken)))
  {
    var newest := NewestOf(w.table.pending, producer);
    if newest.Some? {
      RetireKeepsInv(w, Superseded(w.table.pending, producer, newest.value.id), Overtaken);
    }
  }

  // A round that ends before it picks a row leaves the log alone.
  lemma UnpickedKeepsInv(w: World, r: Round)
    requires Inv(w) && FreshRound(w, r) && Picked(w, r).None?
    ensures Inv(Step(w, r).world) && Step(w, r).world.log == w.log && !Step(w, r).end.Hung?
  {
    SweptKeepsInv(w, r);
    var here := Arrive(w, r.arrivals);
    var f := Fetch(here.table.pending, here.inMemory, r.sweepAcks);
    if r.fetchAnswers && f.result.Found? {
      UnchosenKeepsInv(here.(table := Retire(here.table, f.gone, Delivered)), r, f.result.row);
    }
  }

  lemma StepKeepsInv(w: World, r: Round)
    requires Inv(w) && FreshRound(w, r)
    ensures Step(w, r).end != Hung ==> Inv(Step(w, r).world)
    ensures forall id :: Landings(Step(w, r).world.log, id) <= 1
  {
    if Picked(w, r).Some? {
      PickedFacts(w, r);
      var p := Picked(w, r).value;
      DeliverKeepsInv(p.world, r, p.row);
      forall id ensures Landings(Step(w, r).world.log, id) <= 1 {
        DeliverLandsOnce(p.world, r, p.row, id);
      }
    } else {
      UnpickedKeepsInv(w, r);
      forall id ensures Landings(Step(w, r).world.log, id) <= 1 {
        assert RowInv(w, id);
      }
    }
  }

  // ---- whole runs ----

  // A fresh loop state over whatever the owner holds.
  function Start(t: Table): World {
    World(t, {}, map[], [])
  }

  ghost predicate Coherent(t: Table) {
    Distinct(t.pending) && t.outcomes.Keys !! Ids(t.pending)
  }

  // A round that never returns is the last one.
  function Run(w: World, rounds: seq<Round>): World
    decreases |rounds|
  {
    if rounds == [] then w
    else
      var turn := Step(w, rounds[0]);
      if turn.end.Hung? then turn.world else Run(turn.world, rounds[1..])
  }

  ghost predicate FreshRounds(w: World, rounds: seq<Round>)
    decreases |rounds|
  {
    rounds == [] || (FreshRound(w, rounds[0]) && FreshRounds(Step(w, rounds[0]).world, rounds[1..]))
  }

  lemma StartInv(t: Table)
    requires Coherent(t)
    ensures Inv(Start(t))
  {
    forall id ensures RowInv(Start(t), id) {
    }
  }

  lemma {:induction false} RunLandsOnce(w: World, rounds: seq<Round>)
    requires Inv(w) && FreshRounds(w, rounds)
    ensures forall id :: Landings(Run(w, rounds).log, id) <= 1
    ensures Finished(w, rounds) ==> Inv(Run(w, rounds))
    decreases |rounds|
  {
    if rounds != [] {
      StepKeepsInv(w, rounds[0]);
      if !Step(w, rounds[0]).end.Hung? {
        RunLandsOnce(Step(w, rounds[0]).world, rounds[1..]);
      }
    } else {
      forall id ensures Landings(w.log, id) <= 1 { assert RowInv(w, id); }
    }
  }

  // No round of the run hung.
  predicate Finished(w: World, rounds: seq<Round>)
    decreases |rounds|
  {
    rounds == [] || (!Step(w, rounds[0]).end.Hung? && Finished(Step(w, rounds[0]).world, rounds[1..]))
  }

  /**
   No duplicates. Over every run of one loop state, each run id has at most one attempt
   that delivered, may have delivered, or put body text into Telegram, even if the last
   round never returns.
  */
  lemma LandsAtMostOnce(t: Table, rounds: seq<Round>, id: RunId)
    requires Coherent(t) && FreshRounds(Start(t), rounds)
    ensures Landings(Run(Start(t), rounds).log, id) <= 1
  {
    StartInv(t);
    RunLandsOnce(Start(t), rounds);
  }

  /**
   After such an attempt, or after a third retryable failure, the run is terminal at the
   owner or remembered, and no run ever has a fourth retryable failure.
  */
  lemma LandedOrSpentIsOver(t: Table, rounds: seq<Round>, id: RunId)
    requires Coherent(t) && FreshRounds(Start(t), rounds) && Finished(Start(t), rounds)
    ensures var w := Run(Start(t), rounds);
            && Retries(w.log, id) <= MAX_DELIVERY_ATTEMPTS
            && (Landings(w.log, id) == 1 || Retries(w.log, id) == MAX_DELIVERY_ATTEMPTS ==> Over(w, id))
  {
    StartInv(t);
    RunLandsOnce(Start(t), rounds);
    assert RowInv(Run(Start(t), rounds), id);
  }

  /** A run that is over is never handed to the session again. */
  lemma OverIsNeverAttempted(w: World, r: Round)
    requires Inv(w) && FreshRound(w, r)
    ensures Step(w, r).world.log == w.log ||
            exists e :: Step(w, r).world.log == w.log + [e] && !Over(w, e.id)
  {
    if Picked(w, r).Some? {
      PickedFacts(w, r);
      var p := Picked(w, r).value;
      DeliverLogs(p.world, r, p.row);
      if Step(w, r).world.log != w.log {
        assert p.row.id !in p.world.table.outcomes && p.row.id !in w.inMemory;
        PickedOutcomesGrow(w, r);
        assert Step(w, r).world.log == w.log + [Entry(p.row.id, AttemptOf(r.control, r.opening, r.wires))];
      }
    }
  }

  lemma PickedOutcomesGrow(w: World, r: Round)
    requires Picked(w, r).Some?
    ensures w.table.outcomes.Keys <= Picked(w, r).value.world.table.outcomes.Keys
  {
  }

  /**
   An attempt is made exactly for a picked row that is not remembered, names an allowed chat
   and can be read, with its session found, and, unless it is forced or the bot is shutting
   down, only once the chat has been idle.
  */
  lemma AttemptsArePermitted(w: World, r: Round)
    requires Inv(w) && FreshRound(w, r)
    ensures Step(w, r).world.log != w.log <==>
            (&& Picked(w, r).Some?
             && var row := Picked(w, r).value.row;
                && row.id !in w.inMemory
                && row.chat.Some? && row.chat.value in r.allowed && row.readable && r.sessionFound
                && (row.forced || r.mode.ShutdownFlush? || r.idleFor >= IDLE_THRESHOLD_SECS))
    ensures Step(w, r).world.log != w.log ==>
            Step(w, r).world.log == w.log + [Entry(Picked(w, r).value.row.id, AttemptOf(r.control, r.opening, r.wires))]
  {
    if Picked(w, r).None? {
      UnpickedKeepsInv(w, r);
    } else {
      PickedFacts(w, r);
      var p := Picked(w, r).value;
      DeliverLogs(p.world, r, p.row);
      DeliverLogsWhenOpen(p.world, r, p.row);
    }
  }

  lemma DeliverLogsWhenOpen(w: World, r: Round, row: Row)
    ensures Deliver(w, r, row).world.log != w.log <==>
            (&& !ShouldHold(row.forced, r.mode, r.idleFor) && row.id !in w.inMemory
             && ClassifyTarget(row, r.allowed).Ready? && r.sessionFound && row.readable)
  {
    CloseOutLogs(w, row.id, AttemptOf(r.control, r.opening, r.wires), r.mark);
  }

  /**
   A forced row is held nonetheless while an older row is waiting for the chat to be idle:
   only the oldest open row is looked at.
  */
  lemma ForcedRowIsHeld(older: Row, forced: Row, r: Round)
    requires older.kind.Background? && !older.forced && forced.forced
    requires r.mode.Normal? && r.idleFor < IDLE_THRESHOLD_SECS && r.fetchAnswers && r.arrivals == []
    ensures var w := Start(Table([older, forced], map[])); Step(w, r) == Turn(w, Idle)
  {
    var rows := [older, forced];
    assert rows + [] == rows;
    KeepNothing(rows);
    assert Batch(rows, {}) == rows;
    assert Retire(Table(rows, map[]), {}, Delivered) == Table(rows, map[]);
  }

  /** A run that is terminal at the owner stays so, and never becomes pending again. */
  lemma FinishedStaysFinished(w: World, r: Round, id: RunId)
    requires Inv(w) && FreshRound(w, r) && !Step(w, r).end.Hung? && id in w.table.outcomes
    ensures id in Step(w, r).world.table.outcomes && id !in Ids(Step(w, r).world.table.pending)
  {
    StepKeepsInv(w, r);
    if Picked(w, r).Some? {
      PickedFacts(w, r);
      PickedOutcomesGrow(w, r);
      DeliverOutcomesGrow(Picked(w, r).value.world, r, Picked(w, r).value.row);
    }
  }

  lemma DeliverOutcomesGrow(w: World, r: Round, row: Row)
    ensures w.table.outcomes.Keys <= Deliver(w, r, row).world.table.outcomes.Keys
  {
    if !ShouldHold(row.forced, r.mode, r.idleFor) && row.id !in w.inMemory && ClassifyTarget(row, r.allowed).Ready?
       && r.sessionFound && row.readable {
      CloseOutOutcomesGrow(w, row.id, AttemptOf(r.control, r.opening, r.wires), r.mark);
    }
  }

  lemma CloseOutOutcomesGrow(w: World, id: RunId, attempt: Attempt, ack: Ack)
    ensures w.table.outcomes.Keys <= CloseOut(w, id, attempt, ack).world.table.outcomes.Keys
  {
  }
}
