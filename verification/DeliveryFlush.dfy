/**
 The shutdown flush (`flush_ready_deliveries_for_shutdown`): a fresh loop state run until
 there is nothing left to do. Its 20 s deadline is a backstop: the rounds run out first.
*/
module DeliveryFlush {
  import opened Basics
  import opened DeliverySend
  import opened DeliveryOwner
  import opened DeliveryFetch
  import opened DeliveryLoop
  import opened DeliverySafety

  // Attempts a row can still cost: none once it is remembered.
  function Cost(inMemory: set<RunId>, attempts: map<RunId, nat>, id: RunId): nat {
    if id in inMemory then 0 else Max(0, MAX_DELIVERY_ATTEMPTS - AttemptsOf(attempts, id))
  }

  function Budget(rows: seq<Row>, inMemory: set<RunId>, attempts: map<RunId, nat>): nat {
    if rows == [] then 0
    else Cost(inMemory, attempts, rows[0].id) + Budget(rows[1..], inMemory, attempts)
  }

  function WorldBudget(w: World): nat {
    Budget(w.table.pending, w.inMemory, w.attempts)
  }

  /** Taking rows away and lowering costs lowers the budget, strictly if some row pays. */
  lemma {:induction false} BudgetDrops(rows: seq<Row>, gone: set<RunId>,
                                       m: set<RunId>, a: map<RunId, nat>, m': set<RunId>, a': map<RunId, nat>,
                                       payer: RunId)
    requires forall id :: id !in gone ==> Cost(m', a', id) <= Cost(m, a, id)
    requires Cost(m, a, payer) > 0 && (payer in gone || Cost(m', a', payer) < Cost(m, a, payer))
    ensures Budget(Keep(rows, gone), m', a') <= Budget(rows, m, a)
    ensures payer in Ids(rows) ==> Budget(Keep(rows, gone), m', a') < Budget(rows, m, a)
  {
    if rows != [] {
      BudgetDrops(rows[1..], gone, m, a, m', a', payer);
      if payer in Ids(rows) && rows[0].id != payer {
        var r :| r in rows && r.id == payer;
        assert r in rows[1..];
      }
      if rows[0].id !in gone {
        var kept := Keep(rows, gone);
        assert kept[0] == rows[0] && kept[1..] == Keep(rows[1..], gone);
      }
    }
  }

  ghost predicate FlushRound(r: Round) {
    r.mode.ShutdownFlush? && r.arrivals == [] && r.lateArrivals == []
  }

  lemma ArriveNothing(w: World)
    ensures Arrive(w, []) == w
  {
    assert w.table.pending + [] == w.table.pending;
  }

  lemma OpenRowCosts(w: World, id: RunId)
    requires Inv(w) && id in Ids(w.table.pending) && id !in w.inMemory
    ensures Cost(w.inMemory, w.attempts, id) > 0
  {
    assert RowInv(w, id);
  }

  // A settled row either leaves the pending list or costs nothing from then on.
  lemma SettleSpends(w: World, id: RunId, status: Status, ack: Ack, attempts: map<RunId, nat>)
    requires id in Ids(w.table.pending) && Cost(w.inMemory, w.attempts, id) > 0
    requires forall other :: other != id ==> AttemptsOf(attempts, other) == AttemptsOf(w.attempts, other)
    ensures Budget(MarkedTable(w.table, id, status, ack).pending, Settle(w, id, status, ack).inMemory,
                   attempts) < WorldBudget(w)
  {
    KeepNothing(w.table.pending);
    var gone := if ack == Lost(false) then {} else {id};
    BudgetDrops(w.table.pending, gone, w.inMemory, w.attempts, Settle(w, id, status, ack).inMemory, attempts, id);
  }

  lemma CloseOutSpends(w: World, id: RunId, attempt: Attempt, ack: Ack)
    requires id in Ids(w.table.pending) && Cost(w.inMemory, w.attempts, id) > 0
    requires CloseOut(w, id, attempt, ack).end.Progressed?
    ensures WorldBudget(CloseOut(w, id, attempt, ack).world) < WorldBudget(w)
  {
    match attempt.ending {
      case Sent(_, _) => SettleSpends(w, id, Delivered, ack, w.attempts);
      case OutcomeUnknown => SettleSpends(w, id, Failed, ack, w.attempts - {id});
      case Retryable =>
        if AttemptsOf(w.attempts, id) + 1 >= MAX_DELIVERY_ATTEMPTS {
          SettleSpends(w, id, Failed, ack, w.attempts - {id});
        } else {
          RetrySpends(w, id);
        }
    }
  }

  lemma RetrySpends(w: World, id: RunId)
    requires id in Ids(w.table.pending) && Cost(w.inMemory, w.attempts, id) > 0
    ensures Budget(w.table.pending, w.inMemory, w.attempts[id := AttemptsOf(w.attempts, id) + 1]) < WorldBudget(w)
  {
    KeepNothing(w.table.pending);
    BudgetDrops(w.table.pending, {}, w.inMemory, w.attempts, w.inMemory,
                w.attempts[id := AttemptsOf(w.attempts, id) + 1], id);
  }

  /** Delivering an open row spends at least one unit. */
  lemma DeliverSpends(w: World, r: Round, row: Row)
    requires Inv(w) && row.id in Ids(w.table.pending) && row.id !in w.inMemory
    requires Deliver(w, r, row).end.Progressed?
    ensures WorldBudget(Deliver(w, r, row).world) < WorldBudget(w)
  {
    OpenRowCosts(w, row.id);
    SettleSpends(w, row.id, NoTarget, r.mark, w.attempts);
    SettleSpends(w, row.id, Denied, r.mark, w.attempts);
    SettleSpends(w, row.id, Failed, r.mark, w.attempts);
    if ClassifyTarget(row, r.allowed).Ready? && r.sessionFound && row.readable {
      CloseOutSpends(w, row.id, AttemptOf(r.control, r.opening, r.wires), r.mark);
    }
  }

  lemma {:induction false} BudgetKeeps(rows: seq<Row>, gone: set<RunId>, m: set<RunId>, a: map<RunId, nat>)
    ensures Budget(Keep(rows, gone), m, a) <= Budget(rows, m, a)
  {
    if rows != [] {
      BudgetKeeps(rows[1..], gone, m, a);
      if rows[0].id !in gone {
        var kept := Keep(rows, gone);
        assert kept[0] == rows[0] && kept[1..] == Keep(rows[1..], gone);
      }
    }
  }

  /**
   A round that reports progress spends at least one unit, even when its marks are lost:
   if the dedup call brings back a row the loop already remembers, the row it fetched was
   superseded.
  */
  lemma FlushRoundSpends(w: World, r: Round)
    requires Inv(w) && FlushRound(r) && Step(w, r).end.Progressed?
    ensures WorldBudget(Step(w, r).world) < WorldBudget(w)
  {
    ArriveNothing(w);
    var f := Fetch(w.table.pending, w.inMemory, r.sweepAcks);
    ProgressFetches(w, r);
    BudgetKeeps(w.table.pending, f.gone, w.inMemory, w.attempts);
    ChooseSpends(w.(table := Retire(w.table, f.gone, Delivered)), r, f.result.row);
  }

  lemma ProgressFetches(w: World, r: Round)
    requires Inv(w) && FlushRound(r) && Arrive(w, []) == w && Step(w, r).end.Progressed?
    ensures var f := Fetch(w.table.pending, w.inMemory, r.sweepAcks);
            && f.result.Found?
            && var swept := w.(table := Retire(w.table, f.gone, Delivered));
            && Step(w, r) == Choose(swept, r, f.result.row)
            && Inv(swept) && f.result.row in swept.table.pending && f.result.row.id !in swept.inMemory
  {
    var f := Fetch(w.table.pending, w.inMemory, r.sweepAcks);
    RetireKeepsInv(w, f.gone, Delivered);
    SweepFinds(Batch(w.table.pending, w.inMemory), w.inMemory, r.sweepAcks);
  }

  lemma ChooseSpends(w: World, r: Round, row: Row)
    requires Inv(w) && FlushRound(r) && row in w.table.pending && row.id !in w.inMemory
    requires Choose(w, r, row).end.Progressed?
    ensures WorldBudget(Choose(w, r, row).world) < WorldBudget(w)
  {
    if row.kind.Background? || row.producer.None? {
      DeliverSpends(w, r, row);
    } else {
      ArriveNothing(w);
      var rows, producer := w.table.pending, row.producer.value;
      var newest := NewestOf(rows, producer).value;
      var gone := Superseded(rows, producer, newest.id);
      var deduped := w.(table := Retire(w.table, gone, Overtaken));
      var candidate := Candidate(rows, producer, newest);
      RetireKeepsInv(w, gone, Overtaken);
      SupersedeSparesWinner(rows, producer, newest);
      BudgetKeeps(rows, gone, w.inMemory, w.attempts);
      if candidate.id !in w.inMemory {
        DeliverSpends(deduped, r, candidate);
      } else {
        OpenRowCosts(w, row.id);
        assert row.id in gone;
        RememberedSpends(w, gone, candidate.id, r.mark, row.id);
      }
    }
  }

  lemma RememberedSpends(w: World, gone: set<RunId>, id: RunId, ack: Ack, payer: RunId)
    requires payer in gone && payer in Ids(w.table.pending) && Cost(w.inMemory, w.attempts, payer) > 0 &&
      id in w.inMemory
    ensures Budget(MarkedTable(Retire(w.table, gone, Overtaken), id, Delivered, ack).pending,
                   if ack.Acked? then w.inMemory - {id} else w.inMemory, w.attempts) < WorldBudget(w)
  {
    var rows := w.table.pending;
    KeepKeep(rows, gone, {id});
    KeepNothing(Keep(rows, gone));
    var all := if ack == Lost(false) then gone else gone + {id};
    BudgetDrops(rows, all, w.inMemory, w.attempts, if ack.Acked? then w.inMemory - {id} else w.inMemory, w.attempts,
                payer);
  }

  lemma {:induction false} BudgetBound(rows: seq<Row>, m: set<RunId>, a: map<RunId, nat>)
    ensures Budget(rows, m, a) <= MAX_DELIVERY_ATTEMPTS * |rows|
  {
    if rows != [] {
      BudgetBound(rows[1..], m, a);
    }
  }

  // A round in which the owner answers and honours every mark, and the attempt comes to an end
  // of its own: sends may still fail.
  ghost predicate SmoothRound(r: Round) {
    && FlushRound(r) && r.fetchAnswers && r.sessionFound
    && HonestAcks(r.sweepAcks) && r.dedupAck.Acked? && r.mark.Acked?
    && !AttemptOf(r.control, r.opening, r.wires).ending.Interrupted?
    && !AttemptOf(r.control, r.opening, r.wires).ending.NeverReturned?
  }

  // It remembers nothing new.
  lemma SmoothDelivers(w: World, r: Round, row: Row)
    requires SmoothRound(r)
    ensures Deliver(w, r, row).end.Progressed? && Deliver(w, r, row).world.inMemory <= w.inMemory
  {
  }

  lemma SmoothChooses(w: World, r: Round, row: Row)
    requires SmoothRound(r) && row in w.table.pending
    ensures Choose(w, r, row).end.Progressed? && Choose(w, r, row).world.inMemory <= w.inMemory
  {
    if row.kind.Background? || row.producer.None? {
      SmoothDelivers(w, r, row);
    } else {
      ArriveNothing(w);
      var newest := NewestOf(w.table.pending, row.producer.value);
      assert SameJob(row, row.producer.value) && newest.Some?;
      var deduped := w.(table := Retire(w.table, Superseded(w.table.pending, row.producer.value, newest.value.id),
                                        Overtaken));
      SmoothDelivers(deduped, r, Candidate(w.table.pending, row.producer.value, newest.value));
    }
  }

  /**
   A smooth round that makes no progress has confirmed every row of the owner's window and
   leaves exactly the rows behind it; below the owner's cap there are none.
  */
  lemma SmoothRoundEnds(w: World, r: Round)
    requires Inv(w) && SmoothRound(r)
    ensures Step(w, r).world.inMemory <= w.inMemory
    ensures Step(w, r).end.Progressed? ||
            Step(w, r).world.table.pending == w.table.pending[|Batch(w.table.pending, w.inMemory)|..]
    ensures Step(w, r).end.Progressed? || |w.inMemory| >= OWNER_FETCH_MAX || Step(w, r).world.table.pending == []
  {
    ArriveNothing(w);
    var f := Fetch(w.table.pending, w.inMemory, r.sweepAcks);
    SweepFindsFirst(Batch(w.table.pending, w.inMemory), w.inMemory, r.sweepAcks);
    if f.result.Found? {
      FoundIsKept(w, r);
      SmoothChooses(w.(table := Retire(w.table, f.gone, Delivered)), r, f.result.row);
    } else {
      StarvedFetchDrainsTheWindow(w.table.pending, w.inMemory, r.sweepAcks);
      if |w.inMemory| < OWNER_FETCH_MAX {
        WindowHoldsAll(w, r);
      }
    }
  }

  lemma FoundIsKept(w: World, r: Round)
    requires Fetch(w.table.pending, w.inMemory, r.sweepAcks).result.Found?
    ensures var f := Fetch(w.table.pending, w.inMemory, r.sweepAcks); f.result.row in Keep(w.table.pending, f.gone)
  {
    SweepFinds(Batch(w.table.pending, w.inMemory), w.inMemory, r.sweepAcks);
  }

  // Fewer remembered rows than the window has places: all pending rows were in it.
  lemma WindowHoldsAll(w: World, r: Round)
    requires Inv(w) && |w.inMemory| < OWNER_FETCH_MAX
    requires HonestAcks(r.sweepAcks) && Fetch(w.table.pending, w.inMemory, r.sweepAcks).result.Exhausted?
    ensures |Batch(w.table.pending, w.inMemory)| == |w.table.pending|
  {
    SmallSetNeverStarves(w.table.pending, w.inMemory, r.sweepAcks);
    NoneMeansAllInside(w.table.pending, w.inMemory);
    Pigeonhole(w.table.pending, w.inMemory);
  }

  lemma IdleForgetsNothing(w: World, r: Round)
    requires SmoothRound(r) && !Step(w, r).end.Progressed?
    ensures Step(w, r).world.inMemory == w.inMemory
  {
    ArriveNothing(w);
    var f := Fetch(w.table.pending, w.inMemory, r.sweepAcks);
    if f.result.Found? {
      FoundIsKept(w, r);
      SmoothChooses(w.(table := Retire(w.table, f.gone, Delivered)), r, f.result.row);
    }
  }

  // What one turn of the flush adds to what is known.
  lemma TurnFacts(w: World, r: Round)
    requires Inv(w) && FlushRound(r)
    ensures var turn := Step(w, r);
            && (turn.end.Progressed? ==> Inv(turn.world) && WorldBudget(turn.world) < WorldBudget(w))
            && (SmoothRound(r) && w.inMemory == {} ==> turn.world.inMemory == {})
            && (SmoothRound(r) && !turn.end.Progressed? ==>
                turn.world.table.pending == [] || |turn.world.inMemory| >= OWNER_FETCH_MAX)
  {
    StepKeepsInv(w, r);
    if Step(w, r).end.Progressed? {
      FlushRoundSpends(w, r);
    }
    if SmoothRound(r) {
      SmoothRoundEnds(w, r);
      if !Step(w, r).end.Progressed? {
        IdleForgetsNothing(w, r);
      }
    }
  }

  // Turn `i` is the round from where the turn before ended.
  ghost predicate TurnAt(t: Table, rounds: nat -> Round, turns: seq<Turn>, i: nat) {
    i < |turns| && turns[i] == Step(if i == 0 then Start(t) else turns[i - 1].world, rounds(i))
  }

  ghost predicate IsFlush(t: Table, rounds: nat -> Round, turns: seq<Turn>) {
    forall i: nat {:trigger TurnAt(t, rounds, turns, i)} :: i < |turns| ==> TurnAt(t, rounds, turns, i)
  }

  function WorldAfter(t: Table, turns: seq<Turn>): World {
    if turns == [] then Start(t) else turns[|turns| - 1].world
  }

  lemma TurnStays(t: Table, rounds: nat -> Round, turns: seq<Turn>, turn: Turn, i: nat)
    requires TurnAt(t, rounds, turns, i)
    ensures TurnAt(t, rounds, turns + [turn], i)
  {
    var more := turns + [turn];
    assert more[i] == turns[i];
    assert i > 0 ==> more[i - 1] == turns[i - 1];
  }

  lemma FlushAppend(t: Table, rounds: nat -> Round, turns: seq<Turn>, turn: Turn)
    requires IsFlush(t, rounds, turns) && turn == Step(WorldAfter(t, turns), rounds(|turns|))
    ensures IsFlush(t, rounds, turns + [turn])
  {
    forall i: nat | i < |turns| + 1 ensures TurnAt(t, rounds, turns + [turn], i) {
      if i < |turns| {
        TurnStays(t, rounds, turns, turn, i);
      } else {
        TurnIsLast(t, rounds, turns, turn);
      }
    }
  }

  lemma TurnIsLast(t: Table, rounds: nat -> Round, turns: seq<Turn>, turn: Turn)
    requires turn == Step(WorldAfter(t, turns), rounds(|turns|))
    ensures TurnAt(t, rounds, turns + [turn], |turns|)
  {
    var more := turns + [turn];
    assert more[|turns|] == turn;
    assert turns != [] ==> more[|turns| - 1] == turns[|turns| - 1];
  }

  ghost predicate AllSmooth(rounds: nat -> Round, n: nat) {
    n == 0 || (SmoothRound(rounds(n - 1)) && AllSmooth(rounds, n - 1))
  }

  lemma {:induction false} SomeNotSmooth(rounds: nat -> Round, n: nat)
    requires !AllSmooth(rounds, n)
    ensures exists i :: 0 <= i < n && !SmoothRound(rounds(i))
  {
    if SmoothRound(rounds(n - 1)) {
      SomeNotSmooth(rounds, n - 1);
    }
  }

  // The first `n` rounds were begun before the deadline, and made progress.
  ghost predicate InTime(clock: nat -> nat, deadline: nat, n: nat) {
    n == 0 || (clock(n - 1) < deadline && InTime(clock, deadline, n - 1))
  }

  ghost predicate ProgressedUpTo(turns: seq<Turn>, n: nat) {
    n <= |turns| && forall i :: 0 <= i < n ==> turns[i].end.Progressed?
  }

  // One round, and what it adds to what is known.
  method FlushOnce(owner: Owner, state: DeliveryLoopState, rounds: nat -> Round, n: nat, ghost t: Table,
                   ghost turns: seq<Turn>)
    returns (end: RoundEnd, ghost more: seq<Turn>)
    requires Inv(state.Snapshot(owner)) && FlushRound(rounds(n))
    requires |turns| == n && IsFlush(t, rounds, turns) && state.Snapshot(owner) == WorldAfter(t, turns)
    modifies state, owner
    ensures |more| == n + 1 && turns == more[..n] && more[n] == Turn(state.Snapshot(owner), end)
    ensures IsFlush(t, rounds, more)
    ensures end.Progressed? ==>
              Inv(state.Snapshot(owner)) && WorldBudget(state.Snapshot(owner)) < old(WorldBudget(state.Snapshot(owner)))
    ensures AllSmooth(rounds, n + 1) && old(state.deliveredInMemory) == {} ==> state.deliveredInMemory == {}
    ensures AllSmooth(rounds, n + 1) ==> AllSmooth(rounds, n)
    ensures ProgressedUpTo(turns, n) ==>
              ProgressedUpTo(more, n) && (end.Progressed? ==> ProgressedUpTo(more, n + 1))
    ensures SmoothRound(rounds(n)) && !end.Progressed? ==>
              owner.table.pending == [] || |state.deliveredInMemory| >= OWNER_FETCH_MAX
    ensures AllSmooth(rounds, n + 1) && !end.Progressed? && old(state.deliveredInMemory) == {} ==>
              owner.table.pending == []
  {
    ghost var before := state.Snapshot(owner);
    end := state.RunDeliveryOnce(owner, rounds(n));
    TurnFacts(before, rounds(n));
    FlushAppend(t, rounds, turns, Turn(state.Snapshot(owner), end));
    more := turns + [Turn(state.Snapshot(owner), end)];
  }

  /**
   The flush makes one round after another and stops at the deadline or at the first round
   without progress. With no new rows that is after at most three rounds per pending row and one
   more, whatever marks are lost, sends fail or clocks say. It leaves a row pending only if the
   deadline passed, its last round was not smooth, or the owner's cap of remembered rows was
   reached - and that not unless some round was not smooth either.
  */
  method FlushReadyDeliveries(owner: Owner, rounds: nat -> Round, clock: nat -> nat, deadline: nat)
    returns (state: DeliveryLoopState, calls: nat, ghost turns: seq<Turn>)
    requires Coherent(owner.table)
    requires forall i :: FlushRound(rounds(i))
    modifies owner
    ensures calls <= MAX_DELIVERY_ATTEMPTS * |old(owner.table).pending| + 1
    ensures fresh(state)
    ensures |turns| == calls && IsFlush(old(owner.table), rounds, turns)
    ensures state.Snapshot(owner) == WorldAfter(old(owner.table), turns)
    ensures InTime(clock, deadline, calls) && (calls > 0 ==> ProgressedUpTo(turns, calls - 1))
    ensures clock(calls) >= deadline || (calls > 0 && !turns[calls - 1].end.Progressed?)
    ensures owner.table.pending == [] || clock(calls) >= deadline ||
            (calls > 0 && (!SmoothRound(rounds(calls - 1)) || |state.deliveredInMemory| >= OWNER_FETCH_MAX))
    ensures owner.table.pending == [] || clock(calls) >= deadline ||
            exists i :: 0 <= i < calls && !SmoothRound(rounds(i))
  {
    state := new DeliveryLoopState();
    calls, turns := 0, [];
    StartInv(owner.table);
    assert state.Snapshot(owner) == Start(owner.table);
    BudgetBound(owner.table.pending, {}, map[]);
    while true
      invariant Inv(state.Snapshot(owner)) && fresh(state)
      invariant AllSmooth(rounds, calls) ==> state.deliveredInMemory == {}
      invariant |turns| == calls && IsFlush(old(owner.table), rounds, turns)
      invariant state.Snapshot(owner) == WorldAfter(old(owner.table), turns)
      invariant InTime(clock, deadline, calls) && ProgressedUpTo(turns, calls)
      invariant calls + WorldBudget(state.Snapshot(owner)) <= MAX_DELIVERY_ATTEMPTS * |old(owner.table).pending|
      decreases WorldBudget(state.Snapshot(owner))
    {
      if clock(calls) >= deadline {
        return;
      }
      assert FlushRound(rounds(calls));
      var end;
      end, turns := FlushOnce(owner, state, rounds, calls, old(owner.table), turns);
      calls := calls + 1;
      if end != Progressed {
        if !AllSmooth(rounds, calls) {
          SomeNotSmooth(rounds, calls);
        }
        return;
      }
    }
  }
}
