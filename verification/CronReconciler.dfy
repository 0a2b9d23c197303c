/**
 The cron reconciler (`reconcile_jobs`): a table of job loops kept equal to the specs the
 owner holds, and manual triggers, each to be executed at most once. The owner's callers may
 edit specs and trigger jobs between any two of the reconciler's calls.
*/
module CronReconciler {
  import opened Basics

  type Name = string
  type TriggerId = nat
  type LoopId = nat

  datatype ScheduleKind = Recurring(cron: string) | OneShotCron(cron: string) | RunAt(time: int) | Immediate

  // The job's configuration, and the pending manual trigger with its extra instruction.
  datatype CronSpec = CronSpec(
    kind: ScheduleKind, prompt: string, lockTtl: Option<string>, maxBudgetUsd: real,
    chat: Option<int>, thread: Option<int>, model: Option<string>,
    trigger: Option<TriggerId>, extraInstruction: Option<string>)

  // `PartialEq` of a spec: the configuration only, none of the trigger's fields.
  predicate SameConfig(a: CronSpec, b: CronSpec) {
    && a.kind == b.kind && a.prompt == b.prompt && a.lockTtl == b.lockTtl && a.maxBudgetUsd == b.maxBudgetUsd
    && a.chat == b.chat && a.thread == b.thread && a.model == b.model
  }

  predicate IsRunJobLoopSkipKind(kind: ScheduleKind) {
    kind.RunAt? || kind.Immediate?
  }

  datatype Entry = Entry(spec: CronSpec, loop: LoopId)

  // A spawned loop and the job it runs.
  datatype Loop = Loop(id: LoopId, name: Name, spec: CronSpec)

  // The table holds exactly the jobs that have a loop, each under its current configuration.
  ghost predicate Projects(handles: map<Name, Entry>, specs: map<Name, CronSpec>) {
    && (forall name :: name in handles <==> name in specs && !IsRunJobLoopSkipKind(specs[name].kind))
    && (forall name :: name in handles ==> SameConfig(handles[name].spec, specs[name]))
  }

  function LoopsOf(handles: map<Name, Entry>): set<Loop> {
    set name | name in handles :: LoopAt(handles, name)
  }

  function LoopAt(handles: map<Name, Entry>, name: Name): Loop
    requires name in handles
  {
    Loop(handles[name].loop, name, handles[name].spec)
  }

  lemma LoopsWithout(handles: map<Name, Entry>, name: Name)
    requires name in handles
    ensures LoopsOf(handles - {name}) == LoopsOf(handles) - {LoopAt(handles, name)}
  {
    var rest := handles - {name};
    forall l ensures l in LoopsOf(rest) <==> l in LoopsOf(handles) && l != LoopAt(handles, name) {
      if l in LoopsOf(handles) && l != LoopAt(handles, name) {
        assert l.name in rest && l == LoopAt(rest, l.name);
      }
    }
  }

  lemma LoopsWith(handles: map<Name, Entry>, name: Name, e: Entry)
    requires name !in handles
    ensures LoopsOf(handles[name := e]) == LoopsOf(handles) + {Loop(e.loop, name, e.spec)}
  {
    var more := handles[name := e];
    forall l ensures l in LoopsOf(more) <==> l in LoopsOf(handles) || l == Loop(e.loop, name, e.spec) {
      if l in LoopsOf(handles) {
        assert l.name in more && l == LoopAt(more, l.name);
      }
      if l == Loop(e.loop, name, e.spec) {
        assert l == LoopAt(more, name);
      }
    }
  }

  predicate Unchanged(handles: map<Name, Entry>, specs: map<Name, CronSpec>, name: Name) {
    name in handles && name in specs && SameConfig(handles[name].spec, specs[name])
  }

  // ---- triggers ----

  ghost predicate NoRepeats(executed: seq<TriggerId>) {
    forall i, j :: 0 <= i < j < |executed| ==> executed[i] != executed[j]
  }

  // No trigger is pending twice, and none that was executed is pending.
  ghost predicate TriggersSound(specs: map<Name, CronSpec>, next: TriggerId, executed: seq<TriggerId>) {
    && NoRepeats(executed)
    && (forall t :: t in executed ==> t < next)
    && (forall n :: n in specs && specs[n].trigger.Some? ==>
        specs[n].trigger.value < next && specs[n].trigger.value !in executed)
    && (forall n, m :: n in specs && m in specs && n != m && specs[n].trigger.Some? && specs[m].trigger.Some? ==>
          specs[n].trigger.value != specs[m].trigger.value)
  }

  predicate PendingIn(specs: map<Name, CronSpec>, name: Name) {
    name in specs && specs[name].trigger.Some?
  }

  // Later states of the owner hold only triggers pending before, under the same name, or new ones.
  ghost predicate OnlyNewer(before: map<Name, CronSpec>, next: TriggerId, after: map<Name, CronSpec>) {
    forall n :: n in after && after[n].trigger.Some? && after[n].trigger.value < next ==>
      n in before && before[n].trigger == after[n].trigger
  }

  // How the clear of a job's trigger ends, with the lock file of the job found fresh or not.
  datatype Answer = Cleared(lockFresh: bool) | Refused(applied: bool)

  // One job without its trigger; every other spec as it was.
  function WithoutTrigger(specs: map<Name, CronSpec>, name: Name): map<Name, CronSpec> {
    if name in specs then specs[name := specs[name].(trigger := None, extraInstruction := None)] else specs
  }

  class CronOwner {
    var specs: map<Name, CronSpec>
    // The number of manual triggers so far; each is known by its number.
    var next: TriggerId

    constructor ()
      ensures specs == map[] && next == 0
    {
      specs, next := map[], 0;
    }

    method Trigger(name: Name, extra: Option<string>)
      modifies this
      ensures next == old(next) + 1
      ensures name !in old(specs) ==> specs == old(specs)
      ensures name in old(specs) ==>
        specs == old(specs)[name := old(specs)[name].(trigger := Some(old(next)), extraInstruction := extra)]
    {
      if name in specs {
        specs := specs[name := specs[name].(trigger := Some(next), extraInstruction := extra)];
      }
      next := next + 1;
    }

    // A new spec, or a new configuration that leaves a pending trigger alone.
    method Put(name: Name, spec: CronSpec)
      modifies this
      ensures next == old(next)
      ensures specs ==
        old(specs)[name := spec.(trigger := if name in old(specs) then old(specs)[name].trigger else None)]
    {
      specs := specs[name := spec.(trigger := if name in specs then specs[name].trigger else None)];
    }

    method Delete(name: Name)
      modifies this
      ensures next == old(next) && specs == old(specs) - {name}
    {
      specs := specs - {name};
    }

    // What the owner's other callers do in between.
    method Others(ghost executed: seq<TriggerId>)
      requires TriggersSound(specs, next, executed)
      modifies this
      ensures TriggersSound(specs, next, executed) && old(next) <= next
      ensures OnlyNewer(old(specs), old(next), specs)
    {
      var n: nat := *;
      while 0 < n
        invariant TriggersSound(specs, next, executed) && old(next) <= next
        invariant OnlyNewer(old(specs), old(next), specs)
      {
        var choice: int, name: Name, extra: Option<string>, spec: CronSpec := *, *, *, *;
        if choice == 0 {
          Trigger(name, extra);
        } else if choice == 1 {
          Put(name, spec);
        } else {
          Delete(name);
        }
        n := n - 1;
      }
    }

    // `cron_clear_triggered`: unconditional; a call that fails may have been applied.
    method ClearTriggered(name: Name, answer: Answer, ghost executed: seq<TriggerId>) returns (ok: bool)
      requires TriggersSound(specs, next, executed)
      modifies this
      ensures TriggersSound(specs, next, executed) && next == old(next)
      ensures OnlyNewer(old(specs), old(next), specs)
      ensures ok == answer.Cleared?
      ensures specs == if answer == Refused(false) then old(specs) else WithoutTrigger(old(specs), name)
    {
      ok := answer.Cleared?;
      if answer != Refused(false) {
        specs := WithoutTrigger(specs, name);
      }
    }
  }

  // The table while loops are spawned: current entries only, none missing but for `rest`, the
  // old ones kept, the new ones with new loops.
  ghost predicate Filled(before: map<Name, Entry>, now: map<Name, Entry>, specs: map<Name, CronSpec>, rest: set<Name>,
                         from: LoopId)
  {
    && (forall name :: name in now ==> Unchanged(now, specs, name))
    && (forall name :: name in specs && name !in rest && !IsRunJobLoopSkipKind(specs[name].kind) ==> name in now)
    && (forall name :: name in before ==> name in now && now[name] == before[name])
    && (forall name :: name in now && name !in before ==> from <= now[name].loop)
  }

  lemma FilledOneMore(before: map<Name, Entry>, now: map<Name, Entry>, specs: map<Name, CronSpec>, rest: set<Name>,
                      from: LoopId, name: Name, loop: LoopId)
    requires Filled(before, now, specs, rest + {name}, from) && name in specs && name !in now && from <= loop
    ensures Filled(before, now[name := Entry(specs[name], loop)], specs, rest, from)
  {
  }

  class Reconciler {
    const owner: CronOwner
    var handles: map<Name, Entry>
    var spawned: LoopId
    // Loops spawned and not aborted; the triggers executed, in order.
    ghost var live: set<Loop>
    ghost var executed: seq<TriggerId>

    ghost predicate Table() reads this {
      && live == LoopsOf(handles)
      && forall name :: name in handles ==>
           handles[name].loop < spawned && !IsRunJobLoopSkipKind(handles[name].spec.kind)
    }

    ghost predicate Valid() reads this, owner {
      Table() && TriggersSound(owner.specs, owner.next, executed)
    }

    constructor (owner: CronOwner)
      requires TriggersSound(owner.specs, owner.next, [])
      ensures Valid() && this.owner == owner && handles == map[]
    {
      this.owner, handles, spawned, live, executed := owner, map[], 0, {}, [];
    }

    // Loops of removed or changed jobs go.
    method AbortStale(specs: map<Name, CronSpec>)
      requires Table()
      modifies this`handles, this`live
      ensures Table()
      ensures forall name :: name in handles <==> Unchanged(old(handles), specs, name)
      ensures forall name :: name in handles ==> name in old(handles) && handles[name] == old(handles)[name]
    {
      var toRemove := set name | name in handles && !Unchanged(handles, specs, name);
      ghost var before := handles;
      while toRemove != {}
        invariant Table()
        invariant toRemove <= handles.Keys <= before.Keys
        invariant forall name :: name in handles ==> handles[name] == before[name]
        invariant forall name :: name in toRemove ==> !Unchanged(before, specs, name)
        invariant forall name :: name in before && name !in toRemove ==>
          (name in handles <==> Unchanged(before, specs, name))
        decreases |toRemove|
      {
        var name :| name in toRemove;
        LoopsWithout(handles, name);
        live := live - {LoopAt(handles, name)};
        handles := handles - {name};
        toRemove := toRemove - {name};
      }
    }

    method SpawnLoop(name: Name, spec: CronSpec)
      requires Table() && name !in handles && !IsRunJobLoopSkipKind(spec.kind)
      modifies this`handles, this`live, this`spawned
      ensures Table() && spawned == old(spawned) + 1
      ensures handles == old(handles)[name := Entry(spec, old(spawned))]
    {
      LoopsWith(handles, name, Entry(spec, spawned));
      live := live + {Loop(spawned, name, spec)};
      handles := handles[name := Entry(spec, spawned)];
      spawned := spawned + 1;
    }

    // New and changed jobs get a loop.
    method SpawnMissing(specs: map<Name, CronSpec>)
      requires Table()
      requires forall name :: name in handles ==> Unchanged(handles, specs, name)
      modifies this`handles, this`live, this`spawned
      ensures Table() && Projects(handles, specs) && old(spawned) <= spawned
      ensures forall name :: name in old(handles) ==> name in handles && handles[name] == old(handles)[name]
      ensures forall name :: name in handles && name !in old(handles) ==> old(spawned) <= handles[name].loop
    {
      var rest := specs.Keys;
      while rest != {}
        invariant Table() && rest <= specs.Keys && old(spawned) <= spawned
        invariant Filled(old(handles), handles, specs, rest, old(spawned))
        decreases |rest|
      {
        var name :| name in rest;
        rest := rest - {name};
        if IsRunJobLoopSkipKind(specs[name].kind) {
          continue;
        }
        if name in handles {
          continue;
        }
        FilledOneMore(old(handles), handles, specs, rest, old(spawned), name, spawned);
        SpawnLoop(name, specs[name]);
      }
    }

    // Loaded triggers still to be looked at: none of them executed, and none pending elsewhere.
    ghost predicate Unfired(loaded: map<Name, CronSpec>, rest: set<Name>) reads this, owner {
      && (forall n :: n in rest && PendingIn(loaded, n) ==>
            loaded[n].trigger.value < owner.next && loaded[n].trigger.value !in executed)
      && (forall n, m :: n in rest && PendingIn(loaded, n) && m in owner.specs && n != m ==>
            owner.specs[m].trigger != loaded[n].trigger)
      && (forall n, m :: n in rest && m in rest && PendingIn(loaded, n) && m in loaded && n != m ==>
            loaded[m].trigger != loaded[n].trigger)
    }

    // One loaded spec: clear the owner's trigger first, and execute exactly when that succeeded
    // and no fresh lock file says that the previous run is still active.
    method FireTriggered(loaded: map<Name, CronSpec>, rest: set<Name>, name: Name, answer: Answer)
      requires Valid() && name in rest && name in loaded && Unfired(loaded, rest)
      modifies this`executed, owner
      ensures Valid() && Unfired(loaded, rest - {name})
      ensures executed ==
        if loaded[name].trigger.Some? && answer == Cleared(false) then old(executed) + [loaded[name].trigger.value]
        else old(executed)
    {
      if loaded[name].trigger.None? {
        return;
      }
      owner.Others(executed);
      var ok := owner.ClearTriggered(name, answer, executed);
      if !ok {
        return;
      }
      if answer.lockFresh {
        return;
      }
      executed := executed + [loaded[name].trigger.value];
    }

    method FireNext(loaded: map<Name, CronSpec>, rest: set<Name>, name: Name, answers: Name -> Answer,
                    ghost start: seq<TriggerId>, ghost done: set<Name>)
      requires Valid() && name in rest && name in loaded && Unfired(loaded, rest)
      requires ExecutedAre(start, executed, loaded, answers, done)
      modifies this`executed, owner
      ensures Valid() && Unfired(loaded, rest - {name})
      ensures ExecutedAre(start, executed, loaded, answers, done + {name})
    {
      ghost var before := executed;
      FireTriggered(loaded, rest, name, answers(name));
      ExecutedOneMore(start, before, executed, loaded, answers, done, name);
    }

    method FireAllTriggered(loaded: map<Name, CronSpec>, answers: Name -> Answer)
      requires Valid() && loaded == owner.specs
      modifies this`executed, owner
      ensures Valid() && ExecutedAre(old(executed), executed, loaded, answers, loaded.Keys)
    {
      var rest := loaded.Keys;
      ghost var done: set<Name> := {};
      while rest != {}
        invariant Valid() && done + rest == loaded.Keys && Unfired(loaded, rest)
        invariant ExecutedAre(old(executed), executed, loaded, answers, done)
        decreases |rest|
      {
        var name :| name in rest;
        FireNext(loaded, rest, name, answers, old(executed), done);
        rest, done := rest - {name}, done + {name};
      }
      assert done == loaded.Keys;
    }

    /**
     `reconcile_jobs`: after a tick that loaded the specs, the table is exactly their jobs with
     loops, an unchanged job still has its loop, and the loops not aborted are the table's. The
     triggers executed are exactly those pending when the specs were loaded whose clear succeeded
     and whose job was not locked; and none is ever executed twice.
    */
    method ReconcileJobs(reachable: bool, answers: Name -> Answer) returns (loaded: Option<map<Name, CronSpec>>)
      requires Valid()
      modifies this, owner
      ensures Valid() && old(executed) <= executed
      ensures loaded == if reachable then Some(old(owner.specs)) else None
      ensures loaded.None? ==> handles == old(handles) && executed == old(executed)
      ensures loaded.Some? ==>
        && Projects(handles, loaded.value)
        && (forall name :: name in handles <==>
            name in loaded.value && (loaded.value[name].kind.Recurring? || loaded.value[name].kind.OneShotCron?))
        && (forall name :: Unchanged(old(handles), loaded.value, name) ==>
            name in handles && handles[name] == old(handles)[name])
        && (forall name :: name in handles && !Unchanged(old(handles), loaded.value, name) ==>
            handles[name].loop >= old(spawned))
      ensures reachable ==>
        ExecutedAre(old(executed), executed, old(owner.specs), answers, old(owner.specs).Keys)
    {
      if !reachable {
        return None;
      }
      var specs := owner.specs;
      AbortStale(specs);
      SpawnMissing(specs);
      FireAllTriggered(specs, answers);
      return Some(specs);
    }

    /** Any number of ticks, with the owner's callers in between. */
    method Ticks(ticks: seq<Tick>) returns (last: Option<map<Name, CronSpec>>)
      requires Valid()
      modifies this, owner
      ensures Valid() && old(executed) <= executed
      ensures ticks != [] && ticks[|ticks| - 1].reachable ==> last.Some?
      ensures last.Some? ==> Projects(handles, last.value)
    {
      last := None;
      for i := 0 to |ticks|
        invariant Valid() && old(executed) <= executed
        invariant i > 0 && ticks[i - 1].reachable ==> last.Some?
        invariant last.Some? ==> Projects(handles, last.value)
      {
        owner.Others(executed);
        var loaded := ReconcileJobs(ticks[i].reachable, ticks[i].answers);
        last := if loaded.Some? then loaded else last;
      }
    }
  }

  // What one tick meets: the owner's load, and an answer for each job.
  datatype Tick = Tick(reachable: bool, answers: Name -> Answer)

  // The trigger is one of the loaded ones, was cleared, and its job was not locked.
  ghost predicate Fires(loaded: map<Name, CronSpec>, answers: Name -> Answer, names: set<Name>, t: TriggerId) {
    exists n :: n in names && n in loaded && loaded[n].trigger == Some(t) && answers(n) == Cleared(false)
  }

  ghost predicate ExecutedAre(before: seq<TriggerId>, now: seq<TriggerId>, loaded: map<Name, CronSpec>,
                              answers: Name -> Answer, names: set<Name>)
  {
    before <= now && forall t: TriggerId :: t in now <==> t in before || Fires(loaded, answers, names, t)
  }

  lemma ExecutedOneMore(before: seq<TriggerId>, now: seq<TriggerId>, later: seq<TriggerId>, loaded: map<Name, CronSpec>,
                        answers: Name -> Answer, names: set<Name>, name: Name)
    requires ExecutedAre(before, now, loaded, answers, names) && name in loaded
    requires later == if loaded[name].trigger.Some? && answers(name) == Cleared(false)
                      then now + [loaded[name].trigger.value] else now
    ensures ExecutedAre(before, later, loaded, answers, names + {name})
  {
    forall t: TriggerId ensures t in later <==> t in before || Fires(loaded, answers, names + {name}, t) {
      assert Fires(loaded, answers, names + {name}, t) <==>
             Fires(loaded, answers, names, t) || (loaded[name].trigger == Some(t) && answers(name) == Cleared(false));
    }
  }

  /** Two specs are the same configuration when they differ in nothing but the trigger's fields. */
  lemma SameConfigIff(a: CronSpec, b: CronSpec)
    ensures SameConfig(a, b) <==>
      a.(trigger := None, extraInstruction := None) == b.(trigger := None, extraInstruction := None)
  {
  }
}
