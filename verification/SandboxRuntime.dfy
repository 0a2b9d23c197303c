/**
 The shared sandbox handle (`sandbox_runtime.rs`): one writer, any number of readers, and
 consumers that note affected chats or report failures between any two of the writer's
 stores. `history` holds every state a reader can see, `events` what happened in between.
*/
module SandboxRuntime {
  import opened Basics

  type Sandbox = nat
  type Diagnosis = string
  type Chat = (int, int)

  datatype Health = Ready | Unavailable(diagnosis: Diagnosis)

  datatype Snapshot = Snapshot(health: Health, sandbox: Option<Sandbox>)

  datatype Event = Noted(chat: Chat) | Drained(chats: set<Chat>) | Reported | Probed

  // What a reader must never see: a ready backend without a sandbox.
  predicate Consistent(s: Snapshot) {
    s.health.Ready? ==> s.sandbox.Some?
  }

  ghost predicate AllConsistent(history: seq<Snapshot>) {
    forall i :: 0 <= i < |history| ==> Consistent(history[i])
  }

  // Chats noted and not drained since.
  function Owed(events: seq<Event>): set<Chat> {
    if events == [] then {}
    else
      var before := Owed(events[..|events| - 1]);
      match events[|events| - 1]
      case Noted(chat) => before + {chat}
      case Drained(chats) => before - chats
      case _ => before
  }

  // A failure was reported and no probe has begun since.
  predicate Unprobed(events: seq<Event>) {
    events != [] &&
    match events[|events| - 1]
    case Reported => true
    case Probed => false
    case _ => Unprobed(events[..|events| - 1])
  }

  /** A noted chat that is no longer owed was drained after its last note. */
  lemma {:induction false} NotedThenDrained(events: seq<Event>, i: nat)
    requires i < |events| && events[i].Noted? && events[i].chat !in Owed(events)
    ensures exists j :: i < j < |events| && events[j].Drained? && events[i].chat in events[j].chats
    decreases |events|
  {
    var last := |events| - 1;
    var before := events[..last];
    if !(events[last].Drained? && events[i].chat in events[last].chats) {
      NotedThenDrained(before, i);
      var j :| i < j < |before| && before[j].Drained? && before[i].chat in before[j].chats;
      assert events[j].Drained? && events[i].chat in events[j].chats;
    }
  }

  /** A reported failure that is no longer unprobed was followed by a probe. */
  lemma {:induction false} ReportedThenProbed(events: seq<Event>, i: nat)
    requires i < |events| && events[i].Reported? && !Unprobed(events)
    ensures exists j :: i < j < |events| && events[j].Probed?
    decreases |events|
  {
    var last := |events| - 1;
    if !events[last].Probed? {
      ReportedThenProbed(events[..last], i);
    }
  }

  class SandboxRuntimeHandle {
    var health: Health
    var sandbox: Option<Sandbox>
    var affected: set<Chat>
    // The channel of capacity 1.
    var wake: bool
    ghost var history: seq<Snapshot>
    ghost var events: seq<Event>

    // Every visible state is consistent, and no noted chat is forgotten.
    ghost predicate Valid() reads this {
      && history != [] && history[|history| - 1] == Snapshot(health, sandbox)
      && AllConsistent(history)
      && affected == Owed(events)
    }

    // A reported failure still waits in the channel.
    ghost predicate Heard() reads this {
      Unprobed(events) ==> wake
    }

    constructor (initial: Option<Sandbox>, diagnosis: Diagnosis)
      ensures Valid() && Heard() && events == []
      ensures sandbox == initial && (health.Ready? <==> initial.Some?)
    {
      health := if initial.Some? then Ready else Unavailable(diagnosis);
      sandbox, affected, wake, events := initial, {}, false, [];
      history := [Snapshot(if initial.Some? then Ready else Unavailable(diagnosis), initial)];
    }

    // ---- any consumer ----

    method NoteAffected(chat: Chat)
      requires Valid()
      modifies this`affected, this`events
      ensures Valid() && (old(Heard()) ==> Heard())
      ensures affected == old(affected) + {chat} && events == old(events) + [Noted(chat)]
    {
      affected := affected + {chat};
      OneMore(Noted(chat));
      events := events + [Noted(chat)];
    }

    method ReportSuspectedFailure()
      requires Valid()
      modifies this`wake, this`events
      ensures Valid() && Heard() && wake && events == old(events) + [Reported]
    {
      // `try_send`: a full channel already holds a wake.
      wake := true;
      OneMore(Reported);
      events := events + [Reported];
    }

    lemma OneMore(e: Event)
      ensures (events + [e])[..|events|] == events
    {
    }

    // Whatever the consumers do between two accesses of the supervisor.
    method Others()
      requires Valid()
      modifies this`affected, this`wake, this`events
      ensures Valid() && (old(Heard()) ==> Heard())
      ensures old(wake) ==> wake
      ensures old(affected) <= affected && old(events) <= events
    {
      var n: nat := *;
      while 0 < n
        invariant Valid() && (old(Heard()) ==> Heard()) && (old(wake) ==> wake)
        invariant old(affected) <= affected && old(events) <= events
      {
        var report: bool := *;
        if report {
          ReportSuspectedFailure();
        } else {
          var chat: Chat := *;
          NoteAffected(chat);
        }
        n := n - 1;
      }
    }

    // ---- the supervisor only ----

    // The wake is taken from the channel, and the probe begins.
    method StartProbe()
      requires Valid()
      modifies this`wake, this`affected, this`events
      ensures Valid() && Heard() && old(affected) <= affected
      ensures old(events) <= events && Probed in events[|old(events)|..]
    {
      wake := false;
      Others();
      ghost var was := events;
      OneMore(Probed);
      events := events + [Probed];
      assert events[|was|] == Probed;
    }

    method StoreHealth(h: Health)
      requires Valid() && (h.Ready? ==> sandbox.Some?)
      modifies this`health, this`history
      ensures Valid() && health == h && history == old(history) + [Snapshot(h, sandbox)]
    {
      health := h;
      history := history + [Snapshot(health, sandbox)];
    }

    method StoreSandbox(s: Option<Sandbox>)
      requires Valid() && (health.Ready? ==> s.Some?)
      modifies this`sandbox, this`history
      ensures Valid() && sandbox == s && history == old(history) + [Snapshot(health, s)]
    {
      sandbox := s;
      history := history + [Snapshot(health, sandbox)];
    }

    /**
     `set_ready`: readers see the new sandbox before they see it ready. In between they see
     an unavailable backend that has a sandbox, so the two fields do not agree at all times.
    */
    method SetReady(s: Sandbox)
      requires Valid()
      modifies this
      ensures Valid() && (old(Heard()) ==> Heard()) && (old(wake) ==> wake)
      ensures old(affected) <= affected && old(events) <= events
      ensures health.Ready? && sandbox == Some(s)
      ensures history == old(history) + [Snapshot(old(health), Some(s)), Snapshot(Ready, Some(s))]
    {
      StoreSandbox(Some(s));
      Others();
      StoreHealth(Ready);
    }

    /** `set_unavailable`: the reverse order, for the same reason. */
    method SetUnavailable(diagnosis: Diagnosis)
      requires Valid()
      modifies this
      ensures Valid() && (old(Heard()) ==> Heard()) && (old(wake) ==> wake)
      ensures old(affected) <= affected && old(events) <= events
      ensures health == Unavailable(diagnosis) && sandbox == None
      ensures history == old(history) + [Snapshot(Unavailable(diagnosis), old(sandbox)),
                                         Snapshot(Unavailable(diagnosis), None)]
    {
      StoreHealth(Unavailable(diagnosis));
      Others();
      StoreSandbox(None);
    }

    method TakeAffected() returns (taken: set<Chat>)
      requires Valid()
      modifies this`affected, this`events
      ensures Valid() && (old(Heard()) ==> Heard())
      ensures taken == old(affected) && affected == {} && events == old(events) + [Drained(taken)]
    {
      taken := affected;
      affected := {};
      OneMore(Drained(taken));
      events := events + [Drained(taken)];
    }
  }
}
