/**
 The send phase of one delivery attempt: what `deliver_through_session` does from the
 parsed reply on. What the session does before that is its `Opening`.
*/
module DeliverySend {
  import opened Basics
  import opened TelegramRequest

  datatype Reply = Reply(hasContent: bool, hasAttachments: bool)

  datatype Opening =
    | GaveWay              // a lock wait or the subprocess was cut off by shutdown
    | Broke                // any other failure: no sandbox, spawn, timeout, bad reply
    | Parsed(reply: Reply)

  // The rich sender never fails as a whole: it reports how many messages arrived, and a
  // failed part only changes what is logged.
  datatype BodyResult = BodyResult(delivered: nat)

  datatype Wires = Wires(body: Race<BodyResult>, header: Race<bool>, plainHeader: Race<bool>, files: Race<bool>)

  datatype Ending =
    | Sent(texts: nat, batches: nat)
    | Interrupted
    | OutcomeUnknown
    | Retryable
    | NeverReturned

  // `bodyMayBePosted`: body text reached Telegram, or a body request was started and
  // its fate is unknown.
  datatype Attempt = Attempt(ending: Ending, bodyMayBePosted: bool)

  datatype Progress = Progress(texts: nat, batches: nat, body: nat, posted: bool, halted: Option<Ending>) {
    function Total(): nat { texts + batches }
  }

  /**
   How each request of the phase ends if it is reached. The attachment batch has two
   entries: its race when nothing was sent before it, and when something was.
  */
  datatype Outcomes = Outcomes(
    body: Outcome<BodyResult>,
    header: Outcome<bool>,
    plainHeader: Outcome<bool>,
    filesFirst: Outcome<bool>,
    filesAfterSend: Outcome<bool>)

  function OutcomesOf(c: Control, wires: Wires): Outcomes {
    Outcomes(
      RequestOutcome(c, false, wires.body),
      RequestOutcome(c, false, wires.header),
      RequestOutcome(c, false, wires.plainHeader),
      RequestOutcome(c, false, wires.files),
      RequestOutcome(c, true, wires.files))
  }

  // What `TelegramRequest` proves about every outcome and the phase relies on.
  ghost predicate Honest(o: Outcomes) {
    && (o.body.verdict.Interrupted? ==> !o.body.polled)
    && (o.header.verdict.Interrupted? ==> !o.header.polled)
    && (o.plainHeader.verdict.Interrupted? ==> !o.plainHeader.polled)
    && (o.filesFirst.verdict.Interrupted? ==> !o.filesFirst.polled)
    && !o.filesAfterSend.verdict.Interrupted?
  }

  function Halt<T>(v: Verdict<T>): Ending
    requires !v.Answered?
  {
    match v
    case Interrupted => Ending.Interrupted
    case OutcomeUnknown => Ending.OutcomeUnknown
    case Pending => NeverReturned
  }

  function BodyStage(reply: Reply, o: Outcomes): Progress {
    if !reply.hasContent then Progress(0, 0, 0, false, None)
    else if o.body.verdict.Answered? then
      var delivered := o.body.verdict.answer.delivered;
      Progress(delivered, 0, delivered, delivered > 0, None)
    else Progress(0, 0, 0, o.body.polled, Some(Halt(o.body.verdict)))
  }

  // The status line goes out on its own only when there is no body to carry it.
  function HeaderStage(reply: Reply, o: Outcomes, p: Progress): Progress {
    if p.halted.Some? || reply.hasContent || !reply.hasAttachments then p
    else if !o.header.verdict.Answered? then p.(halted := Some(Halt(o.header.verdict)))
    else if o.header.verdict.answer then p.(texts := p.texts + 1)
    else if !o.plainHeader.verdict.Answered? then p.(halted := Some(Halt(o.plainHeader.verdict)))
    else if o.plainHeader.verdict.answer then p.(texts := p.texts + 1)
    else p.(halted := Some(Retryable))
  }

  predicate AttachmentFailureIsFatal(bodyMessagesSent: nat) {
    bodyMessagesSent == 0
  }

  function FilesStage(reply: Reply, o: Outcomes, p: Progress): Progress {
    if p.halted.Some? || !reply.hasAttachments then p
    else
      var files := (if p.Total() > 0 then o.filesAfterSend else o.filesFirst).verdict;
      if !files.Answered? then p.(halted := Some(Halt(files)))
      else if files.answer then p.(batches := p.batches + 1)
      else if AttachmentFailureIsFatal(p.body) then p.(halted := Some(Retryable))
      else p
  }

  function SendPhase(reply: Reply, o: Outcomes): Progress {
    FilesStage(reply, o, HeaderStage(reply, o, BodyStage(reply, o)))
  }

  function Finish(p: Progress): Attempt {
    if p.halted.Some? then Attempt(p.halted.value, p.posted)
    else if p.Total() == 0 then Attempt(Retryable, p.posted)
    else Attempt(Sent(p.texts, p.batches), p.posted)
  }

  function AttemptFrom(opening: Opening, o: Outcomes): Attempt {
    match opening
    case GaveWay => Attempt(Ending.Interrupted, false)
    case Broke => Attempt(Retryable, false)
    case Parsed(reply) =>
      if !reply.hasContent && !reply.hasAttachments then Attempt(Retryable, false)
      else Finish(SendPhase(reply, o))
  }

  function AttemptOf(c: Control, opening: Opening, wires: Wires): Attempt {
    AttemptFrom(opening, OutcomesOf(c, wires))
  }

  method DeliverThroughSession(c: Control, opening: Opening, wires: Wires) returns (attempt: Attempt)
    ensures attempt == AttemptOf(c, opening, wires)
  {
    if opening.GaveWay? { return Attempt(Ending.Interrupted, false); }
    if opening.Broke? { return Attempt(Retryable, false); }
    var reply := opening.reply;
    if !reply.hasContent && !reply.hasAttachments { return Attempt(Retryable, false); }
    var p := Progress(0, 0, 0, false, None);
    if reply.hasContent { p := SendBody(c, reply, wires); }
    if p.halted.None? && !reply.hasContent && reply.hasAttachments { p := SendHeader(c, reply, wires, p); }
    if p.halted.None? && reply.hasAttachments { p := SendFiles(c, reply, wires, p); }
    if p.halted.Some? { return Attempt(p.halted.value, p.posted); }
    if p.Total() == 0 { return Attempt(Retryable, p.posted); }
    attempt := Attempt(Sent(p.texts, p.batches), p.posted);
  }

  method SendBody(c: Control, reply: Reply, wires: Wires) returns (p: Progress)
    requires reply.hasContent
    ensures p == BodyStage(reply, OutcomesOf(c, wires))
  {
    // The first request of the phase: nothing was sent before it.
    var o := RunTelegramRequest(c, false, wires.body);
    if !o.verdict.Answered? { return Progress(0, 0, 0, o.polled, Some(Halt(o.verdict))); }
    var delivered := o.verdict.answer.delivered;
    p := Progress(delivered, 0, delivered, delivered > 0, None);
  }

  method SendHeader(c: Control, reply: Reply, wires: Wires, before: Progress) returns (p: Progress)
    requires before.halted.None? && before.Total() == 0 && !reply.hasContent && reply.hasAttachments
    ensures p == HeaderStage(reply, OutcomesOf(c, wires), before)
  {
    var html := RunTelegramRequest(c, before.Total() > 0, wires.header);
    if !html.verdict.Answered? { return before.(halted := Some(Halt(html.verdict))); }
    if !html.verdict.answer {
      var plain := RunTelegramRequest(c, before.Total() > 0, wires.plainHeader);
      if !plain.verdict.Answered? { return before.(halted := Some(Halt(plain.verdict))); }
      if !plain.verdict.answer { return before.(halted := Some(Retryable)); }
    }
    p := before.(texts := before.texts + 1);
  }

  method SendFiles(c: Control, reply: Reply, wires: Wires, before: Progress) returns (p: Progress)
    requires before.halted.None? && reply.hasAttachments
    ensures p == FilesStage(reply, OutcomesOf(c, wires), before)
  {
    p := before;
    var files := RunTelegramRequest(c, before.Total() > 0, wires.files);
    if !files.verdict.Answered? { return before.(halted := Some(Halt(files.verdict))); }
    if files.verdict.answer {
      p := p.(batches := p.batches + 1);
    } else if AttachmentFailureIsFatal(p.body) {
      p := p.(halted := Some(Retryable));
    }
  }

  lemma OutcomesAreHonest(c: Control, wires: Wires)
    ensures Honest(OutcomesOf(c, wires))
  {
    InterruptedIff(c, true, wires.files);
    InterruptedIff(c, false, wires.files);
    InterruptedIff(c, false, wires.body);
    InterruptedIff(c, false, wires.header);
    InterruptedIff(c, false, wires.plainHeader);
  }

  lemma PhaseLaws(reply: Reply, o: Outcomes)
    requires Honest(o) && (reply.hasContent || reply.hasAttachments)
    ensures var p := SendPhase(reply, o);
            && (p.halted.Some? && (p.halted.value.Retryable? || p.halted.value.Interrupted?) ==> !p.posted)
            && (p.halted == Some(Ending.Interrupted) ==> p.Total() == 0)
            && (p.halted.None? && p.posted ==> p.Total() > 0)
            && (p.halted.Some? ==> !p.halted.value.Sent?)
  {
  }

  /**
   What each ending promises. A retryable or interrupted attempt put no body text into
   Telegram, an attempt whose body may have arrived is final, and success means that
   something was sent.
  */
  lemma AttemptLaws(c: Control, opening: Opening, wires: Wires)
    ensures var a := AttemptOf(c, opening, wires);
            && (a.ending.Retryable? || a.ending.Interrupted? ==> !a.bodyMayBePosted)
            && (a.bodyMayBePosted ==> a.ending.Sent? || a.ending.OutcomeUnknown? || a.ending.NeverReturned?)
            && (a.ending.Sent? ==> a.ending.texts + a.ending.batches > 0)
  {
    OutcomesAreHonest(c, wires);
    AttemptLawsFrom(opening, OutcomesOf(c, wires));
  }

  lemma AttemptLawsFrom(opening: Opening, o: Outcomes)
    requires Honest(o)
    ensures var a := AttemptFrom(opening, o);
            && (a.ending.Retryable? || a.ending.Interrupted? ==> !a.bodyMayBePosted)
            && (a.bodyMayBePosted ==> a.ending.Sent? || a.ending.OutcomeUnknown? || a.ending.NeverReturned?)
            && (a.ending.Sent? ==> a.ending.texts + a.ending.batches > 0)
  {
    if opening.Parsed? && (opening.reply.hasContent || opening.reply.hasAttachments) {
      PhaseLaws(opening.reply, o);
    }
  }

  // The request a phase stops at when nothing is answered after it.
  datatype Request = Body | Header | PlainHeader | Files

  // The last request the phase gets to before anything was sent.
  function LastUnsent(reply: Reply, o: Outcomes): Request {
    if reply.hasContent then (if o.body.verdict.Answered? then Files else Body)
    else if o.header.verdict.Answered? then PlainHeader
    else Header
  }

  predicate InterruptedUnpolled<T>(o: Outcome<T>) {
    o.verdict.Interrupted? && !o.polled
  }

  // That request was tried, with everything before it sent in vain, and shutdown beat its first poll.
  predicate BeatenAt(reply: Reply, o: Outcomes, last: Request) {
    match last
    case Body => InterruptedUnpolled(o.body)
    case Header => InterruptedUnpolled(o.header)
    case PlainHeader => o.header.verdict == Answered(false) && InterruptedUnpolled(o.plainHeader)
    case Files => reply.hasAttachments && o.body.verdict == Answered(BodyResult(0)) && InterruptedUnpolled(o.filesFirst)
  }

  /**
   The send phase is interrupted exactly when shutdown beats the first poll of the request it
   stops at, while nothing has been delivered before; and then nothing is delivered.
  */
  lemma InterruptedSentNothing(c: Control, reply: Reply, wires: Wires)
    requires reply.hasContent || reply.hasAttachments
    ensures var o := OutcomesOf(c, wires);
            SendPhase(reply, o).halted == Some(Ending.Interrupted) <==> BeatenAt(reply, o, LastUnsent(reply, o))
    ensures SendPhase(reply, OutcomesOf(c, wires)).halted == Some(Ending.Interrupted) ==>
            SendPhase(reply, OutcomesOf(c, wires)).Total() == 0
  {
    OutcomesAreHonest(c, wires);
    PhaseLaws(reply, OutcomesOf(c, wires));
    InterruptedAtLast(reply, OutcomesOf(c, wires));
  }

  lemma InterruptedAtLast(reply: Reply, o: Outcomes)
    requires Honest(o) && (reply.hasContent || reply.hasAttachments)
    ensures SendPhase(reply, o).halted == Some(Ending.Interrupted) <==> BeatenAt(reply, o, LastUnsent(reply, o))
  {
  }

  // ---- what each answer leads to ----

  // The ending a request that was not answered forces.
  predicate EndsAs<T>(ending: Ending, o: Outcome<T>) {
    match o.verdict
    case Interrupted => ending == Ending.Interrupted
    case OutcomeUnknown => ending == Ending.OutcomeUnknown
    case Pending => ending == NeverReturned
    case Answered(_) => false
  }

  lemma TextUnanswered(reply: Reply, o: Outcomes)
    requires reply.hasContent && !o.body.verdict.Answered?
    ensures var a := AttemptFrom(Parsed(reply), o); EndsAs(a.ending, o.body) && a.bodyMayBePosted == o.body.polled
  {
  }

  lemma TextAlone(reply: Reply, o: Outcomes, d: nat)
    requires reply.hasContent && !reply.hasAttachments && o.body.verdict == Answered(BodyResult(d))
    ensures AttemptFrom(Parsed(reply), o) == Attempt(if d > 0 then Sent(d, 0) else Retryable, d > 0)
  {
  }

  lemma TextAndFiles(reply: Reply, o: Outcomes, d: nat)
    requires reply.hasContent && reply.hasAttachments && o.body.verdict == Answered(BodyResult(d))
    ensures var a := AttemptFrom(Parsed(reply), o);
            var files := if d > 0 then o.filesAfterSend else o.filesFirst;
            && a.bodyMayBePosted == (d > 0)
            && (files.verdict == Answered(true) ==> a.ending == Sent(d, 1))
            && (files.verdict == Answered(false) ==> a.ending == if d > 0 then Sent(d, 0) else Retryable)
            && (!files.verdict.Answered? ==> EndsAs(a.ending, files))
  {
    var p := Progress(d, 0, d, d > 0, None);
    assert BodyStage(reply, o) == p && HeaderStage(reply, o, p) == p;
    assert AttemptFrom(Parsed(reply), o) == Finish(FilesStage(reply, o, p));
    FilesAfterText(reply, o, d);
  }

  lemma FilesAfterText(reply: Reply, o: Outcomes, d: nat)
    requires reply.hasAttachments
    ensures var a := Finish(FilesStage(reply, o, Progress(d, 0, d, d > 0, None)));
            var files := if d > 0 then o.filesAfterSend else o.filesFirst;
            && a.bodyMayBePosted == (d > 0)
            && (files.verdict == Answered(true) ==> a.ending == Sent(d, 1))
            && (files.verdict == Answered(false) ==> a.ending == if d > 0 then Sent(d, 0) else Retryable)
            && (!files.verdict.Answered? ==> EndsAs(a.ending, files))
  {
  }

  lemma AttachmentEndings(reply: Reply, o: Outcomes)
    requires !reply.hasContent && reply.hasAttachments
    ensures var a := AttemptFrom(Parsed(reply), o);
            && !a.bodyMayBePosted
            && (if o.header.verdict == Answered(true)
                   || (o.header.verdict == Answered(false) && o.plainHeader.verdict == Answered(true)) then
                  if o.filesAfterSend.verdict == Answered(true) then a.ending == Sent(1, 1)
                  else if o.filesAfterSend.verdict == Answered(false) then a.ending == Retryable
                  else EndsAs(a.ending, o.filesAfterSend)
                else if o.header.verdict == Answered(false) then
                  if o.plainHeader.verdict == Answered(false) then a.ending == Retryable
                  else EndsAs(a.ending, o.plainHeader)
                else EndsAs(a.ending, o.header))
  {
  }

  /**
   What an attempt with text reports. The text counts as sent if any of it arrived, and then a
   failing attachment is dropped; otherwise a failing attachment, like no text, means a retry.
  */
  lemma TextIsReported(c: Control, reply: Reply, wires: Wires)
    requires reply.hasContent
    ensures var a := AttemptOf(c, Parsed(reply), wires);
            var body := RequestOutcome(c, false, wires.body);
            match body.verdict
            case Answered(b) =>
              var files := RequestOutcome(c, b.delivered > 0, wires.files);
              && a.bodyMayBePosted == (b.delivered > 0)
              && (!reply.hasAttachments || files.verdict == Answered(false) ==>
                  a.ending == if b.delivered > 0 then Sent(b.delivered, 0) else Retryable)
              && (reply.hasAttachments && files.verdict == Answered(true) ==> a.ending == Sent(b.delivered, 1))
              && (reply.hasAttachments && !files.verdict.Answered? ==> EndsAs(a.ending, files))
            case _ => EndsAs(a.ending, body) && a.bodyMayBePosted == body.polled
  {
    var o := OutcomesOf(c, wires);
    match o.body.verdict
    case Answered(b) =>
      if reply.hasAttachments {
        TextAndFiles(reply, o, b.delivered);
      } else {
        TextAlone(reply, o, b.delivered);
      }
    case _ => TextUnanswered(reply, o);
  }

  /**
   What an attempt with attachments alone reports. The header goes out first, as plain text if
   it is rejected; the attachments have to follow, and a failure of either means a retry.
  */
  lemma AttachmentsAreReported(c: Control, reply: Reply, wires: Wires)
    requires !reply.hasContent && reply.hasAttachments
    ensures var a := AttemptOf(c, Parsed(reply), wires);
            var header, plain := RequestOutcome(c, false, wires.header), RequestOutcome(c, false, wires.plainHeader);
            var files := RequestOutcome(c, true, wires.files);
            var headed := header.verdict == Answered(true) ||
                          (header.verdict == Answered(false) && plain.verdict == Answered(true));
            && !a.bodyMayBePosted
            && (headed && files.verdict == Answered(true) ==> a.ending == Sent(1, 1))
            && (headed && files.verdict == Answered(false) ==> a.ending == Retryable)
            && (headed && !files.verdict.Answered? ==> EndsAs(a.ending, files))
            && (header.verdict == Answered(false) && plain.verdict == Answered(false) ==> a.ending == Retryable)
            && (header.verdict == Answered(false) && !plain.verdict.Answered? ==> EndsAs(a.ending, plain))
            && (!header.verdict.Answered? ==> EndsAs(a.ending, header))
  {
    AttachmentEndings(reply, OutcomesOf(c, wires));
  }

  /** Without a reply to send, nothing is sent: shutdown interrupts, everything else is retried. */
  lemma NothingToSend(c: Control, opening: Opening, wires: Wires)
    requires opening.Parsed? ==> !opening.reply.hasContent && !opening.reply.hasAttachments
    ensures AttemptOf(c, opening, wires) == Attempt(if opening.GaveWay? then Ending.Interrupted else Retryable, false)
  {
  }
}
