/** The curator's gate and circuit breaker (`learning_curator.rs`), over whole traces of runs. */
module CuratorGate {
  import opened Basics

  // A stored time; what is stored may not parse.
  datatype Stamp = At(time: int) | Garbled

  datatype CuratorState = CuratorState(lastRunAt: Option<Stamp>, failures: nat, circuitOpenUntil: Option<Stamp>)

  datatype Config = Config(
    enabled: bool, paused: bool, intervalHours: nat, minIdleHours: nat, minCooldownHours: nat,
    changeThreshold: nat, failureThreshold: nat, circuitCooldownHours: nat, reportOnly: bool)

  datatype Trigger = CostSpike | SkillChanges | TimeFallback
  datatype Decision =
    | Run(trigger: Trigger)
    | SkipDisabled | SkipPaused | SkipCircuitOpen | SkipChatNotIdle | SkipCooldown | SkipNoTrigger

  // How a gated pass goes on: given up before any stamp, failed, or through.
  datatype Course = Abandoned | Fails | Succeeds

  // What one invocation meets; None where an owner read fails.
  datatype Input = Input(
    now: int, loaded: bool, activity: Option<Option<int>>, spike: bool, changes: Option<nat>,
    course: Course, saved: bool)

  datatype Kind = Seeded | Failed | Succeeded | Proposed

  // A pass that stamped `last_run_at`, and when it started.
  datatype Pass = Pass(at: int, kind: Kind)

  const HOUR: int := 3600

  const FRESH := CuratorState(None, 0, None)

  // The last run has a time that parses.
  predicate RanAt(s: CuratorState) {
    s.lastRunAt.Some? && s.lastRunAt.value.At?
  }

  predicate IsLater(stamp: Option<Stamp>, now: int) {
    stamp.Some? && stamp.value.At? && stamp.value.time > now
  }

  function CheapSkip(c: Config, s: CuratorState, now: int, activity: Option<int>): Option<Decision> {
    if !c.enabled then Some(SkipDisabled)
    else if c.paused then Some(SkipPaused)
    else if IsLater(s.circuitOpenUntil, now) then Some(SkipCircuitOpen)
    else if activity.Some? && now - activity.value < c.minIdleHours * HOUR then Some(SkipChatNotIdle)
    else if RanAt(s) && now - s.lastRunAt.value.time < c.minCooldownHours * HOUR then Some(SkipCooldown)
    else None
  }

  function NextCircuitOpenUntil(failures: nat, threshold: nat, cooldownHours: nat, now: int): Option<int> {
    if failures >= threshold then Some(now + cooldownHours * HOUR) else None
  }

  function ShouldRunNow(c: Config, s: CuratorState, now: int, activity: Option<int>, spike: bool, changes: nat)
    : Decision
  {
    match CheapSkip(c, s, now, activity)
    case Some(skip) => skip
    case None =>
      if spike then Run(CostSpike)
      else if changes >= c.changeThreshold then Run(SkillChanges)
      else if RanAt(s) && now - s.lastRunAt.value.time >= c.intervalHours * HOUR then Run(TimeFallback)
      else SkipNoTrigger
  }

  function MarkFailedRun(c: Config, s: CuratorState, now: int): CuratorState {
    var failures := s.failures + 1;
    var open := match NextCircuitOpenUntil(failures, c.failureThreshold, c.circuitCooldownHours, now)
                case Some(until) => Some(At(until))
                case None => s.circuitOpenUntil;
    CuratorState(Some(At(now)), failures, open)
  }

  // The state a pass of some kind leaves.
  function Stamped(c: Config, s: CuratorState, now: int, kind: Kind): CuratorState {
    match kind
    case Failed => MarkFailedRun(c, s, now)
    case Succeeded => CuratorState(Some(At(now)), 0, None)
    case Proposed => s.(lastRunAt := Some(At(now)))
    case Seeded => s.(lastRunAt := Some(At(now)))
  }

  // The pass an invocation makes, if it makes one.
  function PassOf(c: Config, s: CuratorState, i: Input): Option<Kind> {
    if !i.loaded then None
    else if s.lastRunAt.None? then Some(Seeded)
    else if i.activity.None? || i.changes.None? || s.lastRunAt.value.Garbled? then None
    else if !ShouldRunNow(c, s, i.now, i.activity.value, i.spike, i.changes.value).Run? || i.course.Abandoned? then None
    else if c.reportOnly then Some(Proposed)
    else if i.course.Fails? then Some(Failed)
    else Some(Succeeded)
  }

  function After(c: Config, s: CuratorState, i: Input): CuratorState {
    match PassOf(c, s, i)
    case Some(kind) => if i.saved then Stamped(c, s, i.now, kind) else s
    case None => s
  }

  function Passes(c: Config, s: CuratorState, inputs: seq<Input>): seq<Pass>
    decreases |inputs|
  {
    if inputs == [] then []
    else
      var rest := Passes(c, After(c, s, inputs[0]), inputs[1..]);
      match PassOf(c, s, inputs[0])
      case Some(kind) => [Pass(inputs[0].now, kind)] + rest
      case None => rest
  }

  ghost predicate AllSaved(inputs: seq<Input>) {
    forall k :: 0 <= k < |inputs| ==> inputs[k].saved
  }

  // ---- spacing ----

  lemma PassRespectsGate(c: Config, s: CuratorState, i: Input)
    requires PassOf(c, s, i).Some? && s.lastRunAt.Some?
    ensures s.lastRunAt.value.At? && i.now >= s.lastRunAt.value.time + c.minCooldownHours * HOUR
    ensures s.circuitOpenUntil.Some? && s.circuitOpenUntil.value.At? ==> s.circuitOpenUntil.value.time <= i.now
  {
  }

  /** After the seeding run, the curator stamps a pass exactly when every gate is open and some trigger fires. */
  lemma PassesExactlyWhenDue(c: Config, s: CuratorState, i: Input)
    requires s.lastRunAt.Some? && s.lastRunAt.value.At?
    ensures var rested := i.now - s.lastRunAt.value.time;
            PassOf(c, s, i).Some? <==>
            (&& i.loaded && i.activity.Some? && i.changes.Some? && !i.course.Abandoned?
             && c.enabled && !c.paused
             && (s.circuitOpenUntil.Some? && s.circuitOpenUntil.value.At? ==> s.circuitOpenUntil.value.time <= i.now)
             && (i.activity.value.Some? ==> i.activity.value.value + c.minIdleHours * 3600 <= i.now)
             && rested >= c.minCooldownHours * 3600
             && (i.spike || i.changes.value >= c.changeThreshold || rested >= c.intervalHours * 3600))
  {
  }

  /** Without a last run nothing is gated: the first invocation that loads the state only seeds the time. */
  lemma FirstRunOnlySeeds(c: Config, s: CuratorState, i: Input)
    requires s.lastRunAt.None?
    ensures PassOf(c, s, i) == if i.loaded then Some(Seeded) else None
    ensures After(c, s, i) ==
      if i.loaded && i.saved then CuratorState(Some(At(i.now)), s.failures, s.circuitOpenUntil) else s
  {
  }

  /** What a gated pass counts as: a proposal when it only reports, otherwise what became of it. */
  lemma KindFollowsCourse(c: Config, s: CuratorState, i: Input)
    requires s.lastRunAt.Some? && PassOf(c, s, i).Some?
    ensures PassOf(c, s, i) == Some(Proposed) <==> c.reportOnly
    ensures PassOf(c, s, i) == Some(Failed) <==> !c.reportOnly && i.course.Fails?
    ensures PassOf(c, s, i) == Some(Succeeded) <==> !c.reportOnly && i.course.Succeeds?
  {
  }

  /**
   What a saved pass leaves. A failure counts, and from the threshold on opens the circuit for
   the whole cooldown; a success resets the count and closes the circuit; a proposal leaves both
   as they were. Every one of them stamps its start.
  */
  lemma PassLeaves(c: Config, s: CuratorState, i: Input)
    requires s.lastRunAt.Some? && PassOf(c, s, i).Some? && i.saved
    ensures var after := After(c, s, i);
            && after.lastRunAt == Some(At(i.now))
            && (c.reportOnly ==> after.failures == s.failures && after.circuitOpenUntil == s.circuitOpenUntil)
            && (!c.reportOnly && i.course.Succeeds? ==> after.failures == 0 && after.circuitOpenUntil.None?)
            && (!c.reportOnly && i.course.Fails? ==>
                && after.failures == s.failures + 1
                && (s.failures + 1 >= c.failureThreshold ==>
                    after.circuitOpenUntil == Some(At(i.now + c.circuitCooldownHours * 3600)))
                && (s.failures + 1 < c.failureThreshold ==> after.circuitOpenUntil == s.circuitOpenUntil))
  {
  }

  /** Without a pass, or without a save, the stored state stays. */
  lemma NothingElseIsStored(c: Config, s: CuratorState, i: Input)
    requires PassOf(c, s, i).None? || !i.saved
    ensures After(c, s, i) == s
  {
  }

  /** The gates in their order, and behind them the triggers in theirs. */
  lemma DecisionLaw(c: Config, s: CuratorState, now: int, activity: Option<int>, spike: bool, changes: nat)
    ensures var d := ShouldRunNow(c, s, now, activity, spike, changes);
            var open := s.circuitOpenUntil.Some? && s.circuitOpenUntil.value.At? && s.circuitOpenUntil.value.time > now;
            var busy := activity.Some? && now - activity.value < c.minIdleHours * 3600;
            var cooling := s.lastRunAt.Some? && s.lastRunAt.value.At?
                           && now - s.lastRunAt.value.time < c.minCooldownHours * 3600;
            var due := s.lastRunAt.Some? && s.lastRunAt.value.At?
                       && now - s.lastRunAt.value.time >= c.intervalHours * 3600;
            && (!c.enabled ==> d == SkipDisabled)
            && (c.enabled && c.paused ==> d == SkipPaused)
            && (c.enabled && !c.paused && open ==> d == SkipCircuitOpen)
            && (c.enabled && !c.paused && !open && busy ==> d == SkipChatNotIdle)
            && (c.enabled && !c.paused && !open && !busy && cooling ==> d == SkipCooldown)
            && (c.enabled && !c.paused && !open && !busy && !cooling ==>
                && (spike ==> d == Run(CostSpike))
                && (!spike && changes >= c.changeThreshold ==> d == Run(SkillChanges))
                && (!spike && changes < c.changeThreshold && due ==> d == Run(TimeFallback))
                && (!spike && changes < c.changeThreshold && !due ==> d == SkipNoTrigger))
  {
  }

  ghost predicate Spaced(passes: seq<Pass>, gap: int) {
    forall k :: 0 < k < |passes| ==> passes[k].at - passes[k - 1].at >= gap
  }

  /**
   Passes start at least the cooldown apart, whatever the clock does between them: a clock
   that runs backwards only delays the next pass.
  */
  lemma {:induction false} PassesAreSpaced(c: Config, s: CuratorState, inputs: seq<Input>)
    requires AllSaved(inputs)
    ensures Spaced(Passes(c, s, inputs), c.minCooldownHours * HOUR)
    ensures var passes := Passes(c, s, inputs);
            s.lastRunAt.Some? && s.lastRunAt.value.At? && passes != [] ==>
              passes[0].at >= s.lastRunAt.value.time + c.minCooldownHours * HOUR
    decreases |inputs|
  {
    if inputs != [] {
      var i := inputs[0];
      PassesAreSpaced(c, After(c, s, i), inputs[1..]);
      if PassOf(c, s, i).Some? {
        var rest := Passes(c, After(c, s, i), inputs[1..]);
        var passes := Passes(c, s, inputs);
        assert passes == [Pass(i.now, PassOf(c, s, i).value)] + rest;
        assert After(c, s, i).lastRunAt == Some(At(i.now));
        if s.lastRunAt.Some? {
          PassRespectsGate(c, s, i);
        }
        forall k | 0 < k < |passes| ensures passes[k].at - passes[k - 1].at >= c.minCooldownHours * HOUR {
          if k > 1 {
            assert rest[k - 1].at - rest[k - 2].at >= c.minCooldownHours * HOUR;
          }
        }
      }
    }
  }

  /** Saving is what the spacing rests on: a pass whose save is lost is repeated at once. */
  lemma LostSaveRepeats(c: Config, s: CuratorState, i: Input)
    requires PassOf(c, s, i).Some? && !i.saved
    ensures Passes(c, s, [i, i]) == [Pass(i.now, PassOf(c, s, i).value), Pass(i.now, PassOf(c, s, i).value)]
  {
    assert [i, i][1..] == [i] && [i][1..] == [];
    assert After(c, s, i) == s;
    assert Passes(c, s, [i]) == [Pass(i.now, PassOf(c, s, i).value)];
  }

  /** A stored time that does not parse stops the curator for good. */
  lemma {:induction false} GarbledNeverRuns(c: Config, s: CuratorState, inputs: seq<Input>)
    requires s.lastRunAt == Some(Garbled)
    ensures Passes(c, s, inputs) == []
    decreases |inputs|
  {
    if inputs != [] {
      GarbledNeverRuns(c, s, inputs[1..]);
    }
  }

  // ---- failures in a row ----

  function Failures(passes: seq<Pass>): nat {
    if passes == [] then 0 else (if passes[0].kind.Failed? then 1 else 0) + Failures(passes[1..])
  }

  ghost predicate NoSuccess(passes: seq<Pass>) {
    forall k :: 0 <= k < |passes| ==> !passes[k].kind.Succeeded?
  }

  lemma TailHasNoSuccess(passes: seq<Pass>)
    requires passes != [] && NoSuccess(passes)
    ensures NoSuccess(passes[1..])
  {
  }

  // The hours that must pass between failure number `n` in a row and the next.
  function Gap(c: Config, n: nat): nat {
    if n >= c.failureThreshold then Max(c.minCooldownHours, c.circuitCooldownHours) else c.minCooldownHours
  }

  // From failure number `n` to failure number `n + more`.
  function Wait(c: Config, n: nat, more: nat): nat
    decreases more
  {
    if more == 0 then 0 else Gap(c, n) + Wait(c, n + 1, more - 1)
  }

  // The last failure in the current row was at `at`.
  ghost predicate InRow(c: Config, s: CuratorState, at: int) {
    && s.failures >= 1 && s.lastRunAt.Some? && s.lastRunAt.value.At? && s.lastRunAt.value.time >= at
    && (s.failures >= c.failureThreshold ==> s.circuitOpenUntil == Some(At(at + c.circuitCooldownHours * HOUR)))
  }

  lemma NextInRow(c: Config, s: CuratorState, i: Input, at: int)
    requires InRow(c, s, at) && i.saved
    ensures match PassOf(c, s, i)
            case Some(Failed) =>
              && i.now >= at + Gap(c, s.failures) * HOUR
              && InRow(c, After(c, s, i), i.now) && After(c, s, i).failures == s.failures + 1
            case Some(Succeeded) => true
            case _ => InRow(c, After(c, s, i), at) && After(c, s, i).failures == s.failures
  {
    if PassOf(c, s, i).Some? {
      PassRespectsGate(c, s, i);
    }
  }

  /** With a row of failures under way, each further failure waits out its gap. */
  lemma {:induction false} FailuresWait(c: Config, s: CuratorState, at: int, inputs: seq<Input>, k: nat)
    requires InRow(c, s, at) && AllSaved(inputs)
    requires k < |Passes(c, s, inputs)| && Passes(c, s, inputs)[k].kind.Failed? && NoSuccess(Passes(c, s, inputs)[..k])
    ensures Passes(c, s, inputs)[k].at >= at + Wait(c, s.failures, Failures(Passes(c, s, inputs)[..k + 1])) * HOUR
    decreases |inputs|
  {
    var i := inputs[0];
    var next := After(c, s, i);
    var rest := Passes(c, next, inputs[1..]);
    var passes := Passes(c, s, inputs);
    NextInRow(c, s, i, at);
    match PassOf(c, s, i) {
      case None =>
        FailuresWait(c, next, at, inputs[1..], k);
      case Some(kind) =>
        assert passes[..k + 1][1..] == rest[..k];
        if k == 0 {
          FirstFailureWaits(c, s.failures);
        } else {
          assert passes[..k][0].kind == kind;
          assert passes[..k][1..] == rest[..k - 1];
          TailHasNoSuccess(passes[..k]);
          FailuresWait(c, next, if kind.Failed? then i.now else at, inputs[1..], k - 1);
        }
    }
  }

  lemma FirstFailureWaits(c: Config, n: nat)
    ensures Wait(c, n, 1) == Gap(c, n)
  {
    assert Wait(c, n + 1, 0) == 0;
  }

  // The total in closed form.
  lemma {:induction false} WaitOpen(c: Config, n: nat, more: nat)
    requires n >= c.failureThreshold
    ensures Wait(c, n, more) == more * Max(c.minCooldownHours, c.circuitCooldownHours)
    decreases more
  {
    if more > 0 {
      WaitOpen(c, n + 1, more - 1);
    }
  }

  lemma {:induction false} WaitTotal(c: Config, n: nat, more: nat)
    requires n <= c.failureThreshold <= n + more
    ensures Wait(c, n, more) ==
            (c.failureThreshold - n) * c.minCooldownHours
            + (n + more - c.failureThreshold) * Max(c.minCooldownHours, c.circuitCooldownHours)
    decreases more
  {
    if n == c.failureThreshold {
      WaitOpen(c, n, more);
    } else {
      WaitTotal(c, n + 1, more - 1);
      var left := c.failureThreshold - n;
      assert left * c.minCooldownHours == c.minCooldownHours + (left - 1) * c.minCooldownHours;
    }
  }

  /**
   Failure number n in a row, beyond the threshold, starts no earlier after the first than
   threshold - 1 cooldowns and n - threshold openings of the circuit take.
  */
  lemma FailuresInARow(c: Config, s: CuratorState, first: Input, later: seq<Input>, k: nat)
    requires s.failures == 0 && c.failureThreshold >= 1
    requires PassOf(c, s, first) == Some(Failed) && first.saved && AllSaved(later)
    requires var passes := Passes(c, After(c, s, first), later);
             k < |passes| && passes[k].kind.Failed? && NoSuccess(passes[..k])
    ensures var passes := Passes(c, After(c, s, first), later);
            var n := 1 + Failures(passes[..k + 1]);
            n > c.failureThreshold ==>
              passes[k].at - first.now >=
              ((c.failureThreshold - 1) * c.minCooldownHours
               + (n - c.failureThreshold) * Max(c.minCooldownHours, c.circuitCooldownHours)) * HOUR
  {
    var next := After(c, s, first);
    var more := Failures(Passes(c, next, later)[..k + 1]);
    FailuresWait(c, next, first.now, later, k);
    if 1 + more > c.failureThreshold {
      WaitTotal(c, 1, more);
    }
  }

  // ---- the program's own form ----

  class Curator {
    const config: Config
    // The owner's copy; every invocation loads it and may save it.
    var stored: CuratorState

    constructor (config: Config)
      ensures this.config == config && stored == FRESH
    {
      this.config, stored := config, FRESH;
    }

    method SaveState(state: CuratorState, saved: bool)
      modifies this
      ensures stored == if saved then state else old(stored)
    {
      if saved {
        stored := state;
      }
    }

    /** `run_if_due`: the pass and the stored state are those of the trace model. */
    method RunIfDue(i: Input) returns (pass: Option<Kind>)
      modifies this
      ensures pass == PassOf(config, old(stored), i)
      ensures stored == After(config, old(stored), i)
    {
      if !i.loaded {
        return None;
      }
      var state := stored;
      if state.lastRunAt.None? {
        SaveState(state.(lastRunAt := Some(At(i.now))), i.saved);
        return Some(Seeded);
      }
      if i.activity.None? {
        return None;
      }
      if CheapSkip(config, state, i.now, i.activity.value).Some? {
        return None;
      }
      if state.lastRunAt.value.Garbled? || i.changes.None? {
        return None;
      }
      var decision := ShouldRunNow(config, state, i.now, i.activity.value, i.spike, i.changes.value);
      if !decision.Run? || i.course.Abandoned? {
        return None;
      }
      if config.reportOnly {
        SaveState(state.(lastRunAt := Some(At(i.now))), i.saved);
        return Some(Proposed);
      }
      if i.course.Succeeds? {
        SaveState(CuratorState(Some(At(i.now)), 0, None), i.saved);
        return Some(Succeeded);
      }
      SaveState(MarkFailedRun(config, state, i.now), i.saved);
      return Some(Failed);
    }
  }
}
