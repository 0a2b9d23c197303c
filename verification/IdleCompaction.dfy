/**
 Idle-compaction timers (`idle_compaction.rs`): a shared map of cancellation tokens, the
 tasks that sleep on them or compact, and the session locks compactions must win.
*/
module IdleCompaction {
  import opened Basics

  type Key = (int, int)
  type Token = nat
  type Session = string

  // A fire task: waiting out the idle window, re-checking, or compacting under the session lock.
  datatype Phase = Sleeping | Checking | Compacting(session: Session)
  datatype Task = Task(key: Key, phase: Phase)

  datatype Holder = Turn | Compaction(token: Token)

  datatype State = State(timers: map<Key, Token>, tasks: map<Token, Task>, cancelled: set<Token>, next: Token,
                         locks: map<Session, Holder>)

  const MIN_USED_TOKENS: nat := 400_000

  predicate EndsWith(s: string, suffix: string) {
    |suffix| <= |s| && s[|s| - |suffix|..] == suffix
  }

  predicate IsOpus1m(model: Option<string>) {
    model.Some? && "claude-opus" <= model.value && EndsWith(model.value, "[1m]")
  }

  predicate ShouldCompact(model: Option<string>, used: nat) {
    IsOpus1m(model) && used >= MIN_USED_TOKENS
  }

  // ---- the operations, each one atomic ----

  function CancelOf(s: State, key: Key): State {
    if key in s.timers then s.(timers := s.timers - {key}, cancelled := s.cancelled + {s.timers[key]}) else s
  }

  function ArmOf(s: State, key: Key): State {
    var c := CancelOf(s, key);
    c.(timers := c.timers[key := c.next], tasks := c.tasks[c.next := Task(key, Sleeping)], next := c.next + 1)
  }

  // The turn-end hook; an unreadable footprint (None) changes nothing.
  function TurnEndOf(s: State, key: Key, model: Option<string>, used: Option<nat>): State {
    if !IsOpus1m(model) then CancelOf(s, key)
    else match used
      case None => s
      case Some(n) => if ShouldCompact(model, n) then ArmOf(s, key) else CancelOf(s, key)
  }

  // The end of a task that was past its sleep: the guard drops, the lock is released.
  function FinishOf(s: State, token: Token): State
    requires token in s.tasks
  {
    var task := s.tasks[token];
    State(if token in s.cancelled then s.timers else s.timers - {task.key},
          s.tasks - {token}, s.cancelled, s.next,
          if task.phase.Compacting? then s.locks - {task.phase.session} else s.locks)
  }

  // What happens next; `Elapse` may win over a cancellation that is also there.
  datatype Action =
    | Arm(key: Key)
    | Cancel(key: Key)
    | TurnEnd(key: Key, model: Option<string>, used: Option<nat>)
    | Elapse(token: Token)
    | LeaveSleep(token: Token)
    | Start(token: Token, model: Option<string>, used: Option<nat>, session: Option<Session>)
    | Finish(token: Token)
    | TurnLocks(locked: Session)
    | TurnUnlocks(unlocked: Session)

  predicate InPhase(s: State, token: Token, phase: Phase) {
    token in s.tasks && s.tasks[token].phase == phase
  }

  // One action; one that is not possible now changes nothing.
  function Step(s: State, a: Action): State {
    match a
    case Arm(key) => ArmOf(s, key)
    case Cancel(key) => CancelOf(s, key)
    case TurnEnd(key, model, used) => TurnEndOf(s, key, model, used)
    case Elapse(token) =>
      if InPhase(s, token, Sleeping) then s.(tasks := s.tasks[token := s.tasks[token].(phase := Checking)]) else s
    case LeaveSleep(token) =>
      if InPhase(s, token, Sleeping) && token in s.cancelled then s.(tasks := s.tasks - {token}) else s
    case Start(token, model, used, session) =>
      if !InPhase(s, token, Checking) then s
      else if used.None? || !ShouldCompact(model, used.value) || session.None? || session.value in s.locks
      then FinishOf(s, token)
      else s.(tasks := s.tasks[token := s.tasks[token].(phase := Compacting(session.value))],
              locks := s.locks[session.value := Compaction(token)])
    case Finish(token) =>
      if token in s.tasks && !s.tasks[token].phase.Sleeping? then FinishOf(s, token) else s
    case TurnLocks(session) => if session in s.locks then s else s.(locks := s.locks[session := Turn])
    case TurnUnlocks(session) =>
      if session in s.locks && s.locks[session].Turn? then s.(locks := s.locks - {session}) else s
  }

  function Run(s: State, actions: seq<Action>): State {
    if actions == [] then s else Step(Run(s, actions[..|actions| - 1]), actions[|actions| - 1])
  }

  const INITIAL := State(map[], map[], {}, 0, map[])

  // ---- the invariant ----

  // A task nothing has cancelled.
  predicate Active(s: State, token: Token) {
    token in s.tasks && token !in s.cancelled
  }

  // The map and the active tasks correspond one to one.
  ghost predicate Bijection(s: State) {
    && (forall key :: key in s.timers ==> Active(s, s.timers[key]) && s.tasks[s.timers[key]].key == key)
    && (forall token :: Active(s, token) ==> s.tasks[token].key in s.timers && s.timers[s.tasks[token].key] == token)
  }

  // A lock a compaction holds belongs to the task compacting that session, and conversely.
  ghost predicate LocksHeld(s: State) {
    && (forall session :: session in s.locks && s.locks[session].Compaction? ==>
        InPhase(s, s.locks[session].token, Compacting(session)))
    && (forall token :: token in s.tasks && s.tasks[token].phase.Compacting? ==>
          s.tasks[token].phase.session in s.locks && s.locks[s.tasks[token].phase.session] == Compaction(token))
  }

  // Tokens are never reused.
  ghost predicate Numbered(s: State) {
    && (forall token :: token in s.tasks ==> token < s.next)
    && (forall token :: token in s.cancelled ==> token < s.next)
  }

  ghost predicate Inv(s: State) {
    Bijection(s) && LocksHeld(s) && Numbered(s)
  }

  lemma CancelKeepsInv(s: State, key: Key)
    requires Inv(s)
    ensures Inv(CancelOf(s, key))
  {
    var c := CancelOf(s, key);
    forall token | Active(c, token) ensures c.tasks[token].key in c.timers && c.timers[c.tasks[token].key] == token {
      assert Active(s, token);
    }
    forall k | k in c.timers ensures Active(c, c.timers[k]) && c.tasks[c.timers[k]].key == k {
      assert Active(s, s.timers[k]);
    }
  }

  lemma ArmKeepsInv(s: State, key: Key)
    requires Inv(s)
    ensures Inv(ArmOf(s, key))
  {
    CancelKeepsInv(s, key);
    var c, a := CancelOf(s, key), ArmOf(s, key);
    forall token | Active(a, token) ensures a.tasks[token].key in a.timers && a.timers[a.tasks[token].key] == token {
      assert token != c.next ==> Active(c, token);
    }
    forall k | k in a.timers ensures Active(a, a.timers[k]) && a.tasks[a.timers[k]].key == k {
      assert k != key ==> Active(c, c.timers[k]);
    }
  }

  lemma FinishKeepsInv(s: State, token: Token)
    requires Inv(s) && token in s.tasks
    ensures Inv(FinishOf(s, token))
  {
    var f := FinishOf(s, token);
    forall t | Active(f, t) ensures f.tasks[t].key in f.timers && f.timers[f.tasks[t].key] == t {
      assert Active(s, t);
      assert Active(s, token) ==> s.timers[s.tasks[token].key] == token;
    }
    forall k | k in f.timers ensures Active(f, f.timers[k]) && f.tasks[f.timers[k]].key == k {
      assert Active(s, s.timers[k]);
    }
  }

  lemma RephaseKeepsBijection(s: State, token: Token, phase: Phase)
    requires Bijection(s) && token in s.tasks
    ensures Bijection(s.(tasks := s.tasks[token := s.tasks[token].(phase := phase)]))
  {
    var r := s.(tasks := s.tasks[token := s.tasks[token].(phase := phase)]);
    assert forall t :: Active(r, t) <==> Active(s, t);
  }

  lemma StartKeepsInv(s: State, token: Token, session: Session)
    requires Inv(s) && InPhase(s, token, Checking) && session !in s.locks
    ensures Inv(s.(tasks := s.tasks[token := s.tasks[token].(phase := Compacting(session))],
                   locks := s.locks[session := Compaction(token)]))
  {
    RephaseKeepsBijection(s, token, Compacting(session));
  }

  lemma TurnLockKeepsInv(s: State, a: Action)
    requires Inv(s) && (a.TurnLocks? || a.TurnUnlocks?)
    ensures Inv(Step(s, a))
  {
    assert forall t :: Active(Step(s, a), t) <==> Active(s, t);
  }

  lemma StepKeepsInv(s: State, a: Action)
    requires Inv(s)
    ensures Inv(Step(s, a))
  {
    match a
    case Arm(key) => ArmKeepsInv(s, key);
    case Cancel(key) => CancelKeepsInv(s, key);
    case TurnEnd(key, _, _) =>
      ArmKeepsInv(s, key);
      CancelKeepsInv(s, key);
    case Elapse(token) =>
      if InPhase(s, token, Sleeping) {
        RephaseKeepsBijection(s, token, Checking);
      }
    case LeaveSleep(token) =>
      assert forall t :: Active(Step(s, a), t) <==> Active(s, t);
    case Start(token, _, _, session) =>
      if InPhase(s, token, Checking) {
        FinishKeepsInv(s, token);
        if session.Some? && session.value !in s.locks {
          StartKeepsInv(s, token, session.value);
        }
      }
    case Finish(token) =>
      if token in s.tasks {
        FinishKeepsInv(s, token);
      }
    case TurnLocks(_) => TurnLockKeepsInv(s, a);
    case TurnUnlocks(_) => TurnLockKeepsInv(s, a);
  }

  /** Whatever happens in whatever order, timers and uncancelled tasks correspond one to one. */
  lemma {:induction false} RunsKeepInv(actions: seq<Action>)
    ensures Inv(Run(INITIAL, actions))
    decreases |actions|
  {
    if actions != [] {
      RunsKeepInv(actions[..|actions| - 1]);
      StepKeepsInv(Run(INITIAL, actions[..|actions| - 1]), actions[|actions| - 1]);
    }
  }

  // ---- what it means ----

  /** Each session has at most one uncancelled timer or compaction. */
  lemma AtMostOneActive(actions: seq<Action>, t: Token, u: Token)
    requires var s := Run(INITIAL, actions); Active(s, t) && Active(s, u) && s.tasks[t].key == s.tasks[u].key
    ensures t == u
  {
    RunsKeepInv(actions);
  }

  /** Two compactions never share a session, and none runs beside a turn that holds its lock. */
  lemma CompactionsExclude(actions: seq<Action>, t: Token, u: Token, session: Session)
    requires var s := Run(INITIAL, actions); InPhase(s, t, Compacting(session))
    ensures var s := Run(INITIAL, actions);
            session in s.locks && s.locks[session] == Compaction(t) && (InPhase(s, u, Compacting(session)) ==> t == u)
  {
    RunsKeepInv(actions);
  }

  /** After a cancel nothing uncancelled is left for the key; other keys are as before. */
  lemma CancelReachesAll(actions: seq<Action>, key: Key, token: Token)
    ensures var s := Run(INITIAL, actions); var c := CancelOf(s, key);
            && (Active(c, token) <==> Active(s, token) && s.tasks[token].key != key)
            && c.tasks == s.tasks
  {
    RunsKeepInv(actions);
    var s := Run(INITIAL, actions);
    if Active(s, token) && s.tasks[token].key != key && key in s.timers {
      assert Active(s, s.timers[key]);
    }
  }

  /** A task that finishes takes only its own entry: what a newer arm put there stays. */
  lemma FinishSparesNewer(actions: seq<Action>, token: Token, key: Key)
    requires token in Run(INITIAL, actions).tasks
    ensures var s := Run(INITIAL, actions); var f := FinishOf(s, token);
            key in f.timers <==> key in s.timers && s.timers[key] != token
    ensures var s := Run(INITIAL, actions); var f := FinishOf(s, token);
            key in f.timers ==> f.timers[key] == s.timers[key]
  {
    RunsKeepInv(actions);
    var s := Run(INITIAL, actions);
    if key in s.timers {
      assert Active(s, s.timers[key]);
    }
    if Active(s, token) {
      assert s.timers[s.tasks[token].key] == token;
    }
  }

  // An Opus model with the long window.
  predicate LongOpus(model: Option<string>) {
    && model.Some? && "claude-opus" <= model.value
    && |model.value| >= 4 && model.value[|model.value| - 4..] == "[1m]"
  }

  /**
   The turn-end hook: one fresh timer for a long-window Opus session of at least 400,000 tokens,
   none for any other, and no change when the footprint is unreadable.
  */
  lemma TurnEndLeaves(actions: seq<Action>, key: Key, model: Option<string>, used: Option<nat>, token: Token)
    ensures var s := Run(INITIAL, actions); var e := TurnEndOf(s, key, model, used);
            if !LongOpus(model) || used.Some? then
              (Active(e, token) && e.tasks[token].key == key) <==>
                (token == s.next && LongOpus(model) && used.Some? && used.value >= 400_000)
            else e == s
  {
    RunsKeepInv(actions);
    CancelReachesAll(actions, key, token);
    assert |"[1m]"| == 4;
    assert IsOpus1m(model) <==> LongOpus(model);
  }

  /** A timer armed is asleep, uncancelled and the one the map knows; other keys keep theirs. */
  lemma ArmLeaves(actions: seq<Action>, key: Key, other: Key)
    ensures var s := Run(INITIAL, actions); var a := ArmOf(s, key);
            && InPhase(a, s.next, Sleeping) && Active(a, s.next) && a.tasks[s.next].key == key
            && key in a.timers && a.timers[key] == s.next
            && (key in s.timers ==> s.timers[key] in a.cancelled)
            && (other != key ==> (other in a.timers <==> other in s.timers))
            && (other != key && other in s.timers ==> a.timers[other] == s.timers[other])
  {
    RunsKeepInv(actions);
  }

  /**
   A task past its sleep compacts exactly when the footprint and the model still call for it,
   there is a session, and nobody holds its lock; otherwise it is gone.
  */
  lemma StartsExactlyWhen(s: State, token: Token, model: Option<string>, used: Option<nat>, session: Option<Session>)
    requires InPhase(s, token, Checking)
    ensures var n := Step(s, Start(token, model, used, session));
            if used.Some? && used.value >= 400_000 && LongOpus(model) && session.Some? && session.value !in s.locks then
              && InPhase(n, token, Compacting(session.value))
              && n.locks == s.locks[session.value := Compaction(token)] && n.timers == s.timers
            else
              token !in n.tasks && n.locks == s.locks
    ensures var n := Step(s, Start(token, model, used, session));
            forall other :: other != token ==>
              (other in n.tasks <==> other in s.tasks) && (other in s.tasks ==> n.tasks[other] == s.tasks[other])
  {
    assert |"[1m]"| == 4;
    assert IsOpus1m(model) <==> LongOpus(model);
  }

  // The guard's drop as the two map accesses it consists of.
  function RemoveUnchecked(s: State, token: Token): State
    requires token in s.tasks
  {
    s.(timers := s.timers - {s.tasks[token].key}, tasks := s.tasks - {token})
  }

  /**
   Taking the drop as one step matters: a turn end between its check and its removal makes it
   remove the newer entry, and no cancel reaches that timer any more.
  */
  lemma SplitDropLosesTimer(key: Key)
    ensures var s := Run(INITIAL, [Arm(key), Elapse(0)]);
            && Active(s, 0)
            && var after := RemoveUnchecked(ArmOf(s, key), 0);
               Active(after, 1) && Active(CancelOf(after, key), 1)
  {
    var actions := [Arm(key), Elapse(0)];
    assert actions[..1] == [Arm(key)] && [Arm(key)][..0] == [];
    assert Run(INITIAL, []) == INITIAL;
    assert Run(INITIAL, [Arm(key)]) == Step(INITIAL, Arm(key));
    assert Run(INITIAL, actions) == Step(Step(INITIAL, Arm(key)), Elapse(0));
  }

  // ---- the shared state as the program updates it ----

  class CompactTimers {
    var timers: map<Key, Token>
    var cancelled: set<Token>
    var tasks: map<Token, Task>
    var next: Token
    var locks: map<Session, Holder>

    ghost function Now(): State reads this {
      State(timers, tasks, cancelled, next, locks)
    }

    constructor ()
      ensures Now() == INITIAL
    {
      timers, cancelled, tasks, next, locks := map[], {}, map[], 0, map[];
    }

    method Cancel(key: Key)
      modifies this
      ensures Now() == CancelOf(old(Now()), key)
    {
      if key in timers {
        var token := timers[key];
        timers := timers - {key};
        cancelled := cancelled + {token};
      }
    }

    method Arm(key: Key)
      modifies this
      ensures Now() == ArmOf(old(Now()), key)
    {
      if key in timers {
        var prev := timers[key];
        timers := timers - {key};
        cancelled := cancelled + {prev};
      }
      var token := next;
      next := next + 1;
      timers := timers[key := token];
      tasks := tasks[token := Task(key, Sleeping)];
    }

    method OnTurnEnd(key: Key, model: Option<string>, used: Option<nat>)
      modifies this
      ensures Now() == TurnEndOf(old(Now()), key, model, used)
    {
      if !IsOpus1m(model) {
        Cancel(key);
        return;
      }
      if used.None? {
        return;
      }
      if ShouldCompact(model, used.value) {
        Arm(key);
      } else {
        Cancel(key);
      }
    }

    // `ReclaimTimer::drop`, and the release of the session lock before it.
    method Finish(token: Token)
      requires token in tasks
      modifies this
      ensures Now() == FinishOf(old(Now()), token)
    {
      var task := tasks[token];
      if task.phase.Compacting? {
        locks := locks - {task.phase.session};
      }
      if token !in cancelled {
        timers := timers - {task.key};
      }
      tasks := tasks - {token};
    }

    // `run_compaction` up to the spawn of `/compact`: re-check, then lock or give up.
    method StartCompaction(token: Token, model: Option<string>, used: Option<nat>, session: Option<Session>)
      requires InPhase(Now(), token, Checking)
      modifies this
      ensures Now() == Step(old(Now()), Start(token, model, used, session))
    {
      if used.None? || !ShouldCompact(model, used.value) || session.None? {
        Finish(token);
        return;
      }
      if session.value in locks {
        Finish(token);
        return;
      }
      locks := locks[session.value := Compaction(token)];
      tasks := tasks[token := tasks[token].(phase := Compacting(session.value))];
    }
  }
}
