/**
 One Telegram request raced against shutdown (`run_telegram_request_with_shutdown`).

 The executor is modelled by the wake-ups it grants: at each wake-up the wrapper sees
 the clock, the cancellation token, and - only if it polls the request - the request's
 own answer. The wrapper never sees anything else, so a property of every sequence of
 wake-ups is a property of every schedule.
*/
module TelegramRequest {
  import opened Basics

  const SEND_SHUTDOWN_GRACE: nat := 15

  // What the caller may stop a delivery with.
  datatype Control = Control(hasToken: bool, deadline: Option<nat>)

  datatype Wake<T> = Wake(now: nat, cancelled: bool, answer: Option<T>)

  datatype Race<T> = Race(enteredAt: nat, cancelledAtEntry: bool, cancelledAtLoop: bool, wakes: seq<Wake<T>>)

  datatype Verdict<T> =
    | Interrupted        // "delivery interrupted by shutdown"
    | OutcomeUnknown     // "delivery send outcome unknown after shutdown"
    | Answered(answer: T)
    | Pending            // the wake-ups ran out before the wrapper returned

  datatype Outcome<T> = Outcome(verdict: Verdict<T>, polled: bool)

  // The error used when shutdown wins before the request was ever polled.
  function PrePoll<T>(sideEffect: bool): Verdict<T> {
    if sideEffect then OutcomeUnknown else Interrupted
  }

  ghost predicate Ordered<T>(wakes: seq<Wake<T>>) {
    forall i, j :: 0 <= i <= j < |wakes| ==> wakes[i].now <= wakes[j].now
  }

  /** The two selects of the loop, one wake-up at a time. */
  function Drive<T>(c: Control, deadline: Option<nat>, polled: bool, sideEffect: bool,
                    wakes: seq<Wake<T>>): (o: Outcome<T>)
    ensures o.verdict.Interrupted? ==> !polled && !o.polled && !sideEffect
    ensures polled ==> o.polled
    decreases |wakes|
  {
    if wakes == [] then Outcome(Pending, polled)
    else
      var w := wakes[0];
      match deadline
      case Some(until) =>
        if until <= w.now then Outcome(OutcomeUnknown, polled)
        else if w.answer.Some? then Outcome(Answered(w.answer.value), true)
        else Drive(c, deadline, true, sideEffect, wakes[1..])
      case None =>
        if c.hasToken && w.cancelled && !polled then Outcome(PrePoll(sideEffect), false)
        else if w.answer.Some? then Outcome(Answered(w.answer.value), true)
        else if c.hasToken && w.cancelled then
          Drive(c, Some(w.now + SEND_SHUTDOWN_GRACE), true, sideEffect, wakes[1..])
        else Drive(c, None, true, sideEffect, wakes[1..])
  }

  /** Shutdown was already visible before the request could start. */
  predicate StoppedAtEntry<T>(c: Control, race: Race<T>) {
    || (c.deadline.Some? && c.deadline.value <= race.enteredAt)
    || (c.hasToken && race.cancelledAtEntry)
    || (c.hasToken && race.cancelledAtLoop && c.deadline.None?)
  }

  function RequestOutcome<T>(c: Control, sideEffect: bool, race: Race<T>): (o: Outcome<T>) {
    if StoppedAtEntry(c, race) then Outcome(PrePoll(sideEffect), false)
    else Drive(c, c.deadline, false, sideEffect, race.wakes)
  }

  method RunTelegramRequest<T>(c: Control, sideEffect: bool, race: Race<T>) returns (o: Outcome<T>)
    ensures o == RequestOutcome(c, sideEffect, race)
  {
    var polled := false;
    if c.deadline.Some? && c.deadline.value <= race.enteredAt {
      return Outcome(PrePoll(sideEffect), polled);
    }
    if c.hasToken && race.cancelledAtEntry {
      return Outcome(PrePoll(sideEffect), polled);
    }
    var deadline: Option<nat> := c.deadline;
    if deadline.None? && c.hasToken && race.cancelledAtLoop {
      return Outcome(PrePoll(sideEffect), polled);
    }
    var k := 0;
    while k < |race.wakes|
      invariant 0 <= k <= |race.wakes|
      invariant RequestOutcome(c, sideEffect, race) == Drive(c, deadline, polled, sideEffect, race.wakes[k..])
    {
      var w := race.wakes[k];
      assert race.wakes[k..][0] == w && race.wakes[k..][1..] == race.wakes[k + 1..];
      if deadline.Some? {
        if deadline.value <= w.now {
          return Outcome(OutcomeUnknown, polled);
        }
      } else if c.hasToken && w.cancelled {
        if !polled {
          return Outcome(PrePoll(sideEffect), polled);
        }
        deadline := Some(w.now + SEND_SHUTDOWN_GRACE);
      }
      polled := true;
      if w.answer.Some? {
        return Outcome(Answered(w.answer.value), polled);
      }
      k := k + 1;
    }
    o := Outcome(Pending, polled);
  }

  /** "Interrupted" is exactly: shutdown came before the first poll, and nothing had been sent. */
  lemma InterruptedIff<T>(c: Control, sideEffect: bool, race: Race<T>)
    ensures RequestOutcome(c, sideEffect, race).verdict.Interrupted? <==>
            && !sideEffect
            && (|| (c.deadline.Some? && c.deadline.value <= race.enteredAt)
                || (c.hasToken && race.cancelledAtEntry)
                || (c.hasToken && race.cancelledAtLoop && c.deadline.None?)
                || (c.deadline.None? && c.hasToken && race.wakes != [] && race.wakes[0].cancelled))
  {
    if !StoppedAtEntry(c, race) && race.wakes != [] {
      var w := race.wakes[0];
      if c.deadline.Some? && w.now < c.deadline.value && w.answer.None? {
        var rest := Drive(c, c.deadline, true, sideEffect, race.wakes[1..]);
      } else if c.deadline.None? && w.answer.None? && !(c.hasToken && w.cancelled) {
        var rest := Drive(c, None, true, sideEffect, race.wakes[1..]);
      }
    }
  }

  /**
   A request that was never polled ends as "outcome unknown" exactly when shutdown came first
   and something had been sent before - or when the deadline falls between the entry check and
   the first wake-up: then nothing was sent, and the attempt is final all the same.
  */
  lemma UnknownUnpolledIff<T>(c: Control, sideEffect: bool, race: Race<T>)
    ensures var o := RequestOutcome(c, sideEffect, race);
            o.verdict.OutcomeUnknown? && !o.polled <==>
            || (StoppedAtEntry(c, race) && sideEffect)
            || (&& !StoppedAtEntry(c, race) && race.wakes != []
                && (|| (c.deadline.Some? && c.deadline.value <= race.wakes[0].now)
                    || (c.deadline.None? && sideEffect && c.hasToken && race.wakes[0].cancelled)))
  {
    if !StoppedAtEntry(c, race) && race.wakes != [] {
      var w := race.wakes[0];
      if w.answer.None? {
        // Whatever comes after the first poll ends polled.
        if c.deadline.Some? && w.now < c.deadline.value {
          var rest := Drive(c, c.deadline, true, sideEffect, race.wakes[1..]);
        } else if c.deadline.None? && !(c.hasToken && w.cancelled) {
          var rest := Drive(c, None, true, sideEffect, race.wakes[1..]);
        }
      }
    }
  }

  lemma {:induction false} DeadlineSettles<T>(c: Control, until: nat, polled: bool, sideEffect: bool,
                                              wakes: seq<Wake<T>>, j: nat)
    requires j < |wakes| && until <= wakes[j].now
    ensures var v := Drive(c, Some(until), polled, sideEffect, wakes).verdict; v.Answered? || v.OutcomeUnknown?
    decreases |wakes|
  {
    if wakes[0].now < until && wakes[0].answer.None? {
      DeadlineSettles(c, until, true, sideEffect, wakes[1..], j - 1);
    }
  }

  /** An answer is the request's own: the first one any poll saw. */
  lemma {:induction false} AnswerIsTheRequests<T>(c: Control, deadline: Option<nat>, polled: bool, sideEffect: bool,
                                                  wakes: seq<Wake<T>>)
    requires Drive(c, deadline, polled, sideEffect, wakes).verdict.Answered?
    ensures var o := Drive(c, deadline, polled, sideEffect, wakes);
            && o.polled
            && exists k ::
                 && 0 <= k < |wakes| && wakes[k].answer == Some(o.verdict.answer)
                 && forall i :: 0 <= i < k ==> wakes[i].answer.None?
    decreases |wakes|
  {
    var w := wakes[0];
    if w.answer.Some? {
      assert wakes[0].answer == Some(Drive(c, deadline, polled, sideEffect, wakes).verdict.answer);
    } else {
      var next := if deadline.None? && c.hasToken && w.cancelled then Some(w.now + SEND_SHUTDOWN_GRACE) else deadline;
      AnswerIsTheRequests(c, next, true, sideEffect, wakes[1..]);
      var rest := wakes[1..];
      var k :|
        && 0 <= k < |rest| && rest[k].answer == Some(Drive(c, next, true, sideEffect, rest).verdict.answer)
        && forall i :: 0 <= i < k ==> rest[i].answer.None?;
      assert wakes[k + 1].answer == wakes[1..][k].answer;
      forall i | 0 <= i < k + 1 ensures wakes[i].answer.None? {
        if i > 0 { assert wakes[i] == wakes[1..][i - 1]; }
      }
    }
  }

  /** A deadline in hand settles the request by that deadline. */
  lemma DeadlineEndsRequest<T>(c: Control, sideEffect: bool, race: Race<T>, j: nat)
    requires c.deadline.Some? && j < |race.wakes| && c.deadline.value <= race.wakes[j].now
    ensures !RequestOutcome(c, sideEffect, race).verdict.Pending?
  {
    DeadlineSettles(c, c.deadline.value, false, sideEffect, race.wakes, j);
  }

  lemma {:induction false} GraceSettles<T>(c: Control, sideEffect: bool, wakes: seq<Wake<T>>, i: nat, j: nat)
    requires c.hasToken && Ordered(wakes) && i <= j < |wakes|
    requires wakes[i].cancelled && wakes[i].now + SEND_SHUTDOWN_GRACE <= wakes[j].now
    ensures var v := Drive(c, None, true, sideEffect, wakes).verdict; v.Answered? || v.OutcomeUnknown?
    decreases |wakes|
  {
    var w := wakes[0];
    if w.answer.None? {
      if w.cancelled {
        assert wakes[1..][j - 1] == wakes[j];
        DeadlineSettles(c, w.now + SEND_SHUTDOWN_GRACE, true, sideEffect, wakes[1..], j - 1);
      } else {
        GraceSettles(c, sideEffect, wakes[1..], i - 1, j - 1);
      }
    }
  }

  /**
   A cancel that arrives once the request has been polled ends it within the grace period:
   with the request's own answer, or with the terminal "outcome unknown" error.
  */
  lemma CancelEndsWithinGrace<T>(c: Control, sideEffect: bool, race: Race<T>, i: nat, j: nat)
    requires c.hasToken && c.deadline.None? && !StoppedAtEntry(c, race)
    requires Ordered(race.wakes) && 0 < i <= j < |race.wakes|
    requires !race.wakes[0].cancelled && race.wakes[i].cancelled
    requires race.wakes[i].now + SEND_SHUTDOWN_GRACE <= race.wakes[j].now
    ensures var v := RequestOutcome(c, sideEffect, race).verdict; v.Answered? || v.OutcomeUnknown?
  {
    var wakes := race.wakes;
    if wakes[0].answer.None? {
      assert wakes[1..][i - 1] == wakes[i] && wakes[1..][j - 1] == wakes[j];
      GraceSettles(c, sideEffect, wakes[1..], i - 1, j - 1);
    }
  }

  // ---- exactly when the request's own answer is the verdict ----

  predicate FirstAnswer<T>(wakes: seq<Wake<T>>, k: nat) {
    k < |wakes| && wakes[k].answer.Some? && forall j :: 0 <= j < k ==> wakes[j].answer.None?
  }

  predicate FirstCancel<T>(wakes: seq<Wake<T>>, i: nat) {
    i < |wakes| && wakes[i].cancelled && forall j :: 0 <= j < i ==> !wakes[j].cancelled
  }

  // No wake-up up to `k` has reached `until`.
  predicate AllBefore<T>(wakes: seq<Wake<T>>, k: nat, until: nat) {
    k < |wakes| && forall j :: 0 <= j <= k ==> wakes[j].now < until
  }

  // No wake-up behind the first cancel, up to `k`, is 15 or more behind it.
  ghost predicate WithinGrace<T>(wakes: seq<Wake<T>>, k: nat) {
    k < |wakes| &&
    forall i: nat, j: nat :: FirstCancel(wakes, i) && i < j <= k ==> wakes[j].now < wakes[i].now + 15
  }

  lemma FirstAnswerBehind<T>(wakes: seq<Wake<T>>, k: nat)
    requires FirstAnswer(wakes, k) && k > 0
    ensures FirstAnswer(wakes[1..], k - 1) && wakes[1..][k - 1] == wakes[k] && wakes[0].answer.None?
  {
    assert forall j :: 0 <= j < k - 1 ==> wakes[1..][j] == wakes[j + 1];
  }

  lemma {:induction false} AnsweredByDeadline<T>(c: Control, until: nat, polled: bool, sideEffect: bool,
                                                 wakes: seq<Wake<T>>, k: nat)
    requires FirstAnswer(wakes, k)
    ensures Drive(c, Some(until), polled, sideEffect, wakes).verdict == Answered(wakes[k].answer.value) <==>
            AllBefore(wakes, k, until)
    decreases k
  {
    if k > 0 {
      FirstAnswerBehind(wakes, k);
      AnsweredByDeadline(c, until, true, sideEffect, wakes[1..], k - 1);
      BeforeBehind(wakes, k, until);
    }
  }

  lemma BeforeBehind<T>(wakes: seq<Wake<T>>, k: nat, until: nat)
    requires 0 < k < |wakes|
    ensures AllBefore(wakes, k, until) <==> wakes[0].now < until && AllBefore(wakes[1..], k - 1, until)
  {
    if AllBefore(wakes[1..], k - 1, until) && wakes[0].now < until {
      forall j | 0 <= j <= k ensures wakes[j].now < until {
        assert j > 0 ==> wakes[j] == wakes[1..][j - 1];
      }
    }
  }

  lemma {:induction false} AnsweredUnhurried<T>(c: Control, polled: bool, sideEffect: bool, wakes: seq<Wake<T>>, k: nat)
    requires !c.hasToken && FirstAnswer(wakes, k)
    ensures Drive(c, None, polled, sideEffect, wakes).verdict == Answered(wakes[k].answer.value)
    decreases k
  {
    if k > 0 {
      FirstAnswerBehind(wakes, k);
      AnsweredUnhurried(c, true, sideEffect, wakes[1..], k - 1);
    }
  }

  lemma CancelledFirst<T>(wakes: seq<Wake<T>>, k: nat)
    requires 0 < k < |wakes| && wakes[0].cancelled
    ensures WithinGrace(wakes, k) <==> AllBefore(wakes[1..], k - 1, wakes[0].now + 15)
  {
    assert FirstCancel(wakes, 0);
    if AllBefore(wakes[1..], k - 1, wakes[0].now + 15) {
      forall i: nat, j: nat | FirstCancel(wakes, i) && i < j <= k ensures wakes[j].now < wakes[i].now + 15 {
        assert i == 0 && wakes[j] == wakes[1..][j - 1];
      }
    }
    if WithinGrace(wakes, k) {
      forall j | 0 <= j <= k - 1 ensures wakes[1..][j].now < wakes[0].now + 15 {
        assert wakes[1..][j] == wakes[j + 1];
      }
    }
  }

  lemma NotCancelledFirst<T>(wakes: seq<Wake<T>>, k: nat)
    requires 0 < k < |wakes| && !wakes[0].cancelled
    ensures WithinGrace(wakes, k) <==> WithinGrace(wakes[1..], k - 1)
  {
    var rest := wakes[1..];
    forall i: nat ensures FirstCancel(wakes, i + 1) <==> FirstCancel(rest, i) {
      if i < |rest| {
        assert rest[i] == wakes[i + 1];
        assert forall j :: 0 <= j < i ==> rest[j] == wakes[j + 1];
        assert FirstCancel(rest, i) ==> forall j :: 0 < j < i + 1 ==> wakes[j] == rest[j - 1];
      }
    }
    if WithinGrace(rest, k - 1) {
      forall i: nat, j: nat | FirstCancel(wakes, i) && i < j <= k ensures wakes[j].now < wakes[i].now + 15 {
        assert FirstCancel(rest, i - 1);
        assert rest[j - 1] == wakes[j] && rest[i - 1] == wakes[i];
      }
    }
    if WithinGrace(wakes, k) {
      forall i: nat, j: nat | FirstCancel(rest, i) && i < j <= k - 1 ensures rest[j].now < rest[i].now + 15 {
        assert FirstCancel(wakes, i + 1);
        assert rest[j] == wakes[j + 1] && rest[i] == wakes[i + 1];
      }
    }
  }

  lemma {:induction false} AnsweredWithinGrace<T>(c: Control, sideEffect: bool, wakes: seq<Wake<T>>, k: nat)
    requires c.hasToken && FirstAnswer(wakes, k)
    ensures Drive(c, None, true, sideEffect, wakes).verdict == Answered(wakes[k].answer.value) <==>
            WithinGrace(wakes, k)
    decreases k
  {
    if k > 0 {
      FirstAnswerBehind(wakes, k);
      if wakes[0].cancelled {
        AnsweredByDeadline(c, wakes[0].now + SEND_SHUTDOWN_GRACE, true, sideEffect, wakes[1..], k - 1);
        CancelledFirst(wakes, k);
      } else {
        AnsweredWithinGrace(c, sideEffect, wakes[1..], k - 1);
        NotCancelledFirst(wakes, k);
      }
    }
  }

  /**
   The verdict is the request's own first answer exactly when nothing stopped the request before
   its first poll and the answer came in time: before a given deadline, or, with a token, no
   later than 15 seconds after the first cancel that a wake-up saw.
  */
  lemma AnsweredIff<T>(c: Control, sideEffect: bool, race: Race<T>, k: nat)
    requires FirstAnswer(race.wakes, k)
    ensures RequestOutcome(c, sideEffect, race).verdict == Answered(race.wakes[k].answer.value) <==>
            && !(c.deadline.Some? && c.deadline.value <= race.enteredAt)
            && !(c.hasToken && race.cancelledAtEntry)
            && !(c.hasToken && race.cancelledAtLoop && c.deadline.None?)
            && (c.deadline.Some? ==> AllBefore(race.wakes, k, c.deadline.value))
            && (c.deadline.None? && c.hasToken ==> !race.wakes[0].cancelled && WithinGrace(race.wakes, k))
  {
    var wakes := race.wakes;
    if !StoppedAtEntry(c, race) {
      if c.deadline.Some? {
        AnsweredByDeadline(c, c.deadline.value, false, sideEffect, wakes, k);
      } else if !c.hasToken {
        AnsweredUnhurried(c, false, sideEffect, wakes, k);
      } else if !wakes[0].cancelled && k > 0 {
        FirstAnswerBehind(wakes, k);
        AnsweredWithinGrace(c, sideEffect, wakes[1..], k - 1);
        NotCancelledFirst(wakes, k);
      }
    }
  }
}
