/**
 One round of the delivery loop (`run_delivery_once`) over `DeliveryLoopState`.

 `Step` is the round as a function of the world it meets; `DeliveryLoopState.RunDeliveryOnce`
 is the round as the source runs it, updating the state and the owner in place.
*/
module DeliveryLoop {
  import opened Basics
  import opened TelegramRequest
  import opened DeliverySend
  import opened DeliveryOwner
  import opened DeliveryFetch

  const MAX_DELIVERY_ATTEMPTS: nat := 3
  const IDLE_THRESHOLD_SECS: int := 120

  datatype Mode = Normal | ShutdownFlush

  datatype Entry = Entry(id: RunId, attempt: Attempt)

  // Everything a round depends on and does not control.
  datatype Round = Round(
    mode: Mode,
    arrivals: seq<Row>,       // rows that finished before the fetch
    fetchAnswers: bool,
    sweepAcks: seq<Ack>,      // acknowledgements of the marks made while fetching
    lateArrivals: seq<Row>,   // rows that finished between the fetch and the dedup call
    dedupAck: Ack,
    idleFor: int,
    allowed: set<int>,        // chats in the live allowlist
    sessionFound: bool,       // the session lookup answered
    control: Control,
    opening: Opening,
    wires: Wires,
    mark: Ack)                // acknowledgement of the mark that ends the round

  datatype World = World(table: Table, inMemory: set<RunId>, attempts: map<RunId, nat>, log: seq<Entry>)

  datatype RoundEnd = Progressed | Idle | OwnerError | Hung

  datatype Turn = Turn(world: World, end: RoundEnd)

  predicate ShouldHold(forced: bool, mode: Mode, idleFor: int) {
    !forced && mode.Normal? && idleFor < IDLE_THRESHOLD_SECS
  }

  function AttemptsOf(attempts: map<RunId, nat>, id: RunId): nat {
    if id in attempts then attempts[id] else 0
  }

  // The row's delivery is over: marked, or remembered because the mark was not confirmed.
  function Settle(w: World, id: RunId, status: Status, ack: Ack): World {
    w.(table := MarkedTable(w.table, id, status, ack),
       inMemory := if ack.Acked? then w.inMemory else w.inMemory + {id})
  }

  function CloseOut(w: World, id: RunId, attempt: Attempt, ack: Ack): Turn {
    var logged := w.(log := w.log + [Entry(id, attempt)]);
    match attempt.ending
    case Sent(_, _) => Turn(Settle(logged, id, Delivered, ack), Progressed)
    case Interrupted => Turn(logged, Idle)
    case NeverReturned => Turn(logged, Hung)
    case OutcomeUnknown =>
      Turn(Settle(logged, id, Failed, ack).(attempts := w.attempts - {id}), Progressed)
    case Retryable =>
      var n := AttemptsOf(w.attempts, id) + 1;
      if n >= MAX_DELIVERY_ATTEMPTS then
        Turn(Settle(logged, id, Failed, ack).(attempts := w.attempts - {id}), Progressed)
      else Turn(logged.(attempts := w.attempts[id := n]), Progressed)
  }

  datatype Target = NoChat | NotAllowed | Ready(chat: int)

  function ClassifyTarget(row: Row, allowed: set<int>): Target {
    match row.chat
    case None => NoChat
    case Some(chat) => if chat !in allowed then NotAllowed else Ready(chat)
  }

  function Deliver(w: World, r: Round, row: Row): Turn {
    if ShouldHold(row.forced, r.mode, r.idleFor) then Turn(w, Idle)
    else if row.id in w.inMemory then
      Turn(w.(table := MarkedTable(w.table, row.id, Delivered, r.mark),
              inMemory := if r.mark.Acked? then w.inMemory - {row.id} else w.inMemory), Progressed)
    else
      match ClassifyTarget(row, r.allowed)
      case NoChat => Turn(Settle(w, row.id, NoTarget, r.mark), Progressed)
      case NotAllowed => Turn(Settle(w, row.id, Denied, r.mark), Progressed)
      case Ready(_) =>
        if !r.sessionFound then Turn(w, OwnerError)
        else if !row.readable then Turn(Settle(w, row.id, Failed, r.mark), Progressed)
        else CloseOut(w, row.id, AttemptOf(r.control, r.opening, r.wires), r.mark)
  }

  function Arrive(w: World, rows: seq<Row>): World {
    w.(table := w.table.(pending := w.table.pending + rows))
  }

  function Choose(w: World, r: Round, row: Row): Turn {
    if row.kind.Background? || row.producer.None? then Deliver(w, r, row)
    else
      var seen := Arrive(w, r.lateArrivals);
      var rows, producer := seen.table.pending, row.producer.value;
      match NewestOf(rows, producer)
      case None => Turn(seen, if r.dedupAck.Acked? then Idle else OwnerError)
      case Some(newest) =>
        var deduped := seen.(table := Retire(seen.table, Superseded(rows, producer, newest.id), Overtaken));
        match r.dedupAck
        case Lost(applied) => Turn(if applied then deduped else seen, OwnerError)
        case Acked => Deliver(deduped, r, Candidate(rows, producer, newest))
  }

  function Step(w: World, r: Round): Turn {
    var here := Arrive(w, r.arrivals);
    if !r.fetchAnswers then Turn(here, OwnerError)
    else
      var f := Fetch(here.table.pending, here.inMemory, r.sweepAcks);
      var swept := here.(table := Retire(here.table, f.gone, Delivered));
      match f.result
      case OwnerFailed => Turn(swept, OwnerError)
      case Exhausted => Turn(swept, Idle)
      case Found(row) => Choose(swept, r, row)
  }

  class DeliveryLoopState {
    var deliveredInMemory: set<RunId>
    var attemptCounts: map<RunId, nat>
    ghost var log: seq<Entry>

    constructor ()
      ensures deliveredInMemory == {} && attemptCounts == map[] && log == []
    {
      deliveredInMemory := {};
      attemptCounts := map[];
      log := [];
    }

    ghost function Snapshot(owner: Owner): World
      reads this, owner
    {
      World(owner.table, deliveredInMemory, attemptCounts, log)
    }

    method RunDeliveryOnce(owner: Owner, r: Round) returns (end: RoundEnd)
      modifies this, owner
      ensures Turn(Snapshot(owner), end) == Step(old(Snapshot(owner)), r)
    {
      owner.Arrive(r.arrivals);
      if !r.fetchAnswers {
        return OwnerError;
      }
      var fetched := FetchNextPending(owner, deliveredInMemory, r.sweepAcks);
      match fetched {
        case OwnerFailed => end := OwnerError;
        case Exhausted => end := Idle;
        case Found(row) => end := ChooseAndDeliver(owner, r, row);
      }
    }

    method ChooseAndDeliver(owner: Owner, r: Round, row: Row) returns (end: RoundEnd)
      modifies this, owner
      ensures Turn(Snapshot(owner), end) == Choose(old(Snapshot(owner)), r, row)
    {
      if row.kind.Cron? && row.producer.Some? {
        owner.Arrive(r.lateArrivals);
        var ok, candidate := owner.DeduplicateJob(row.producer.value, r.dedupAck);
        if !ok {
          return OwnerError;
        }
        if candidate.None? {
          return Idle;
        }
        end := DeliverRow(owner, r, candidate.value);
      } else {
        end := DeliverRow(owner, r, row);
      }
    }

    method SettleRow(owner: Owner, id: RunId, status: Status, ack: Ack)
      modifies this, owner
      ensures Snapshot(owner) == Settle(old(Snapshot(owner)), id, status, ack)
    {
      var ok := owner.MarkOutcome(id, status, ack);
      if !ok {
        deliveredInMemory := deliveredInMemory + {id};
      }
    }

    method DeliverRow(owner: Owner, r: Round, row: Row) returns (end: RoundEnd)
      modifies this, owner
      ensures Turn(Snapshot(owner), end) == Deliver(old(Snapshot(owner)), r, row)
    {
      if ShouldHold(row.forced, r.mode, r.idleFor) {
        return Idle;
      }
      if row.id in deliveredInMemory {
        var ok := owner.MarkOutcome(row.id, Delivered, r.mark);
        if ok {
          deliveredInMemory := deliveredInMemory - {row.id};
        }
        return Progressed;
      }
      match ClassifyTarget(row, r.allowed) {
        case NoChat =>
          SettleRow(owner, row.id, NoTarget, r.mark);
          return Progressed;
        case NotAllowed =>
          SettleRow(owner, row.id, Denied, r.mark);
          return Progressed;
        case Ready(_) =>
      }
      if !r.sessionFound {
        return OwnerError;
      }
      if !row.readable {
        SettleRow(owner, row.id, Failed, r.mark);
        return Progressed;
      }
      var attempt := DeliverThroughSession(r.control, r.opening, r.wires);
      log := log + [Entry(row.id, attempt)];
      end := CloseAttempt(owner, row.id, attempt, r.mark);
    }

    method CloseAttempt(owner: Owner, id: RunId, attempt: Attempt, ack: Ack) returns (end: RoundEnd)
      requires log != [] && log[|log| - 1] == Entry(id, attempt)
      modifies this, owner
      ensures Turn(Snapshot(owner), end) ==
              CloseOut(old(Snapshot(owner)).(log := old(log)[..|old(log)| - 1]), id, attempt, ack)
    {
      assert log[..|log| - 1] + [Entry(id, attempt)] == log;
      match attempt.ending {
        case Sent(_, _) =>
          SettleRow(owner, id, Delivered, ack);
          end := Progressed;
        case Interrupted =>
          end := Idle;
        case NeverReturned =>
          end := Hung;
        case OutcomeUnknown =>
          SettleRow(owner, id, Failed, ack);
          attemptCounts := attemptCounts - {id};
          end := Progressed;
        case Retryable =>
          attemptCounts := attemptCounts[id := AttemptsOf(attemptCounts, id) + 1];
          if attemptCounts[id] >= MAX_DELIVERY_ATTEMPTS {
            SettleRow(owner, id, Failed, ack);
            attemptCounts := attemptCounts - {id};
          }
          end := Progressed;
      }
    }
  }
}
