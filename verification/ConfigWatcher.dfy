/**
 Hot reload of `agent.yaml` (`config_watcher.rs`): each file event is ignored, applied to the
 runtime cells, or answered with a restart. Parsing is a parameter.
*/
module ConfigWatcher {
  import opened Basics

  // The learning settings: nine ignored legacy fields, and everything else.
  datatype Learning = Learning(
    forkProbeEnabled: Option<bool>, forkProbeModel: Option<string>, legacyProbeModel: Option<string>,
    backgroundReviewEnabled: Option<bool>, episodeSelectorModel: Option<string>,
    episodeSelectorMaxBudgetUsd: Option<real>, episodeSettleSeconds: Option<nat>,
    circuitFailureThreshold: Option<nat>, circuitCooldownMinutes: Option<nat>, others: string)

  datatype SandboxConfig = SandboxConfig(providers: seq<string>, others: string)

  datatype AgentConfig = AgentConfig(
    model: Option<string>, debug: Option<bool>, learning: Learning, sandbox: Option<SandboxConfig>, others: string)

  type Parse = string -> Option<AgentConfig>

  datatype ChangeKind =
    | NoChange
    | HotReloadable(newModel: Option<string>, newDebug: Option<bool>)
    | ProvidersReload(newModel: Option<string>, newDebug: Option<bool>, newConfig: AgentConfig)
    | RestartRequired

  function NormalizeForReloadDiff(c: AgentConfig): AgentConfig {
    c.(model := None, debug := None,
       learning := Learning(None, None, None, None, None, None, None, None, None, c.learning.others))
  }

  function ClearProviders(c: AgentConfig): AgentConfig {
    match c.sandbox
    case Some(s) => c.(sandbox := Some(s.(providers := [])))
    case None => c
  }

  function Providers(c: AgentConfig): seq<string> {
    match c.sandbox
    case Some(s) => s.providers
    case None => []
  }

  function DiffClassify(parse: Parse, oldYaml: string, newYaml: string): ChangeKind {
    if oldYaml == newYaml then NoChange
    else match (parse(oldYaml), parse(newYaml))
      case (None, _) => RestartRequired
      case (_, None) => RestartRequired
      case (Some(before), Some(after)) =>
        var oldA, newA := NormalizeForReloadDiff(before), NormalizeForReloadDiff(after);
        if oldA == newA then HotReloadable(after.model, after.debug)
        else if ClearProviders(oldA) == ClearProviders(newA) then ProvidersReload(after.model, after.debug, after)
        else RestartRequired
  }

  // ---- which changes need a restart ----

  // Everything a running bot cannot take over, field by field.
  ghost predicate SameFixed(a: AgentConfig, b: AgentConfig) {
    && a.others == b.others && a.learning.others == b.learning.others
    && match (a.sandbox, b.sandbox)
       case (Some(s), Some(t)) => s.others == t.others
       case (None, None) => true
       case _ => false
  }

  /**
   A parsed change restarts exactly when a fixed field differs, and reconciles providers exactly
   when only they do.
  */
  lemma ClassifyByFields(parse: Parse, oldYaml: string, newYaml: string)
    requires oldYaml != newYaml && parse(oldYaml).Some? && parse(newYaml).Some?
    ensures var before, after := parse(oldYaml).value, parse(newYaml).value;
            match DiffClassify(parse, oldYaml, newYaml)
            case NoChange => false
            case HotReloadable(model, debug) =>
              SameFixed(before, after) && Providers(before) == Providers(after)
              && model == after.model && debug == after.debug
            case ProvidersReload(model, debug, config) =>
              SameFixed(before, after) && Providers(before) != Providers(after)
              && model == after.model && debug == after.debug
              && config == after
            case RestartRequired => !SameFixed(before, after)
  {
    var before, after := parse(oldYaml).value, parse(newYaml).value;
    var a, b := NormalizeForReloadDiff(before), NormalizeForReloadDiff(after);
    assert a.sandbox == before.sandbox && b.sandbox == after.sandbox;
    if SameFixed(before, after) {
      assert ClearProviders(a) == ClearProviders(b);
      assert Providers(before) == Providers(after) ==> a == b;
    } else {
      assert ClearProviders(a) != ClearProviders(b);
    }
  }

  lemma SameFixedEquivalence(a: AgentConfig, b: AgentConfig, c: AgentConfig)
    ensures SameFixed(a, b) ==> (SameFixed(b, c) <==> SameFixed(a, c))
    ensures SameFixed(a, b) <==> SameFixed(b, a)
  {
  }

  // ---- the watcher as a function of the events ----

  // A debounced event: an error, something about other files, or a reading of the yaml, with
  // the reconcile task still listening or gone.
  datatype Event = WatchError | Irrelevant | Changed(contents: Option<string>, consumerGone: bool)

  datatype State = State(lastYaml: string, model: Option<string>, debug: bool, published: seq<string>, restart: bool)

  // The start-up sets the cells from the configuration it parsed; the watcher then reads the
  // file for itself.
  function Begin(boot: AgentConfig, cli: bool, initialYaml: string): State {
    State(initialYaml, boot.model, boot.debug.GetOr(cli), Providers(boot), false)
  }

  function React(parse: Parse, cli: bool, s: State, event: Event): State {
    if !event.Changed? then s
    else match event.contents
      case None => s.(restart := true)
      case Some(yaml) =>
        match DiffClassify(parse, s.lastYaml, yaml)
        case NoChange => s.(lastYaml := yaml)
        case HotReloadable(model, debug) => s.(lastYaml := yaml, model := model, debug := debug.GetOr(cli))
        case ProvidersReload(model, debug, config) =>
          s.(lastYaml := yaml, model := model, debug := debug.GetOr(cli),
             published := if event.consumerGone then s.published else Providers(config))
        case RestartRequired => s.(restart := true)
  }

  // The thread ends with the first restart it asks for.
  function ReactAll(parse: Parse, cli: bool, s: State, events: seq<Event>): State {
    if events == [] then s
    else
      var before := ReactAll(parse, cli, s, events[..|events| - 1]);
      if before.restart then before else React(parse, cli, before, events[|events| - 1])
  }

  // What can follow a first reading without a restart.
  ghost predicate Acceptable(parse: Parse, first: string, yaml: string) {
    yaml == first || (parse(first).Some? && parse(yaml).Some? && SameFixed(parse(first).value, parse(yaml).value))
  }

  ghost predicate NeedsRestart(parse: Parse, first: string, event: Event) {
    event.Changed? && (event.contents.None? || !Acceptable(parse, first, event.contents.value))
  }

  ghost predicate AnyNeedsRestart(parse: Parse, first: string, events: seq<Event>) {
    exists k :: 0 <= k < |events| && NeedsRestart(parse, first, events[k])
  }

  predicate IsReading(event: Event) {
    event.Changed? && event.contents.Some?
  }

  // Some reading differs from the first one, byte for byte.
  ghost predicate Differs(first: string, events: seq<Event>) {
    exists k :: 0 <= k < |events| && IsReading(events[k]) && events[k].contents.value != first
  }

  // Some reading lists other providers than the first one.
  ghost predicate ProvidersDiffer(parse: Parse, first: string, events: seq<Event>) {
    exists k :: 0 <= k < |events| && IsReading(events[k]) && ListsOthers(parse, first, events[k].contents.value)
  }

  predicate ListsOthers(parse: Parse, first: string, yaml: string) {
    parse(first).Some? && parse(yaml).Some? && Providers(parse(yaml).value) != Providers(parse(first).value)
  }

  ghost predicate Listening(events: seq<Event>) {
    forall k :: 0 <= k < |events| && events[k].Changed? ==> !events[k].consumerGone
  }

  // The last reading, or the first one when there is none since.
  function LastReading(first: string, events: seq<Event>): string {
    if events == [] then first
    else if IsReading(events[|events| - 1]) then events[|events| - 1].contents.value
    else LastReading(first, events[..|events| - 1])
  }

  // The cells a run without a restart leaves: those of the last reading once some reading
  // differed from the first, and until then still those of the start-up.
  ghost predicate CellsAre(parse: Parse, boot: AgentConfig, cli: bool, first: string, events: seq<Event>, s: State) {
    && s.lastYaml == LastReading(first, events)
    && Acceptable(parse, first, s.lastYaml)
    && (if Differs(first, events) then
          parse(s.lastYaml).Some? && parse(first).Some?
          && s.model == parse(s.lastYaml).value.model && s.debug == parse(s.lastYaml).value.debug.GetOr(cli)
        else s.lastYaml == first && s.model == boot.model && s.debug == boot.debug.GetOr(cli))
  }

  ghost predicate PublishedAre(parse: Parse, boot: AgentConfig, first: string, events: seq<Event>, s: State) {
    if ProvidersDiffer(parse, first, events) then
      parse(s.lastYaml).Some? && s.published == Providers(parse(s.lastYaml).value)
    else s.published == Providers(boot) && !ListsOthers(parse, first, s.lastYaml)
  }

  lemma AnySplits(parse: Parse, first: string, events: seq<Event>)
    requires events != []
    ensures var before, last := events[..|events| - 1], events[|events| - 1];
            && (AnyNeedsRestart(parse, first, events) <==>
                AnyNeedsRestart(parse, first, before) || NeedsRestart(parse, first, last))
            && (Differs(first, events) <==> Differs(first, before) || (IsReading(last) && last.contents.value != first))
            && (ProvidersDiffer(parse, first, events) <==>
                ProvidersDiffer(parse, first, before) ||
                  (IsReading(last) && ListsOthers(parse, first, last.contents.value)))
  {
    var before := events[..|events| - 1];
    assert forall k :: 0 <= k < |before| ==> before[k] == events[k];
    assert events[|events| - 1] == events[|before|];
  }

  // One reading, from a state that was never restarted.
  lemma ReadingKeepsCells(parse: Parse, boot: AgentConfig, cli: bool, first: string, before: seq<Event>, last: Event,
                          s: State)
    requires !s.restart && CellsAre(parse, boot, cli, first, before, s) && IsReading(last)
    ensures var next := React(parse, cli, s, last);
            && (next.restart <==> NeedsRestart(parse, first, last))
            && (!next.restart ==> CellsAre(parse, boot, cli, first, before + [last], next))
  {
    var yaml := last.contents.value;
    AnySplits(parse, first, before + [last]);
    assert (before + [last])[..|before|] == before;
    if s.lastYaml != yaml && parse(yaml).Some? && parse(s.lastYaml).Some? {
      ClassifyByFields(parse, s.lastYaml, yaml);
      if parse(first).Some? {
        SameFixedEquivalence(parse(first).value, parse(s.lastYaml).value, parse(yaml).value);
      }
    }
  }

  lemma ReadingKeepsPublished(parse: Parse, boot: AgentConfig, cli: bool, first: string, before: seq<Event>,
                              last: Event, s: State)
    requires !s.restart && CellsAre(parse, boot, cli, first, before, s) && PublishedAre(parse, boot, first, before, s)
    requires IsReading(last) && !last.consumerGone && !React(parse, cli, s, last).restart
    ensures PublishedAre(parse, boot, first, before + [last], React(parse, cli, s, last))
  {
    var yaml := last.contents.value;
    AnySplits(parse, first, before + [last]);
    assert (before + [last])[..|before|] == before;
    if s.lastYaml != yaml && parse(yaml).Some? && parse(s.lastYaml).Some? {
      ClassifyByFields(parse, s.lastYaml, yaml);
    }
  }

  /**
   The watcher over every event sequence and from every first reading, raced or not: a restart
   exactly when some event demands one against that reading, and otherwise the exact cells.
  */
  lemma {:induction false} WatchLaw(parse: Parse, boot: AgentConfig, cli: bool, first: string, events: seq<Event>)
    ensures var s := ReactAll(parse, cli, Begin(boot, cli, first), events);
            && (s.restart <==> AnyNeedsRestart(parse, first, events))
            && (!s.restart ==> CellsAre(parse, boot, cli, first, events, s))
            && (!s.restart && Listening(events) ==> PublishedAre(parse, boot, first, events, s))
    decreases |events|
  {
    if events != [] {
      var before, last := events[..|events| - 1], events[|events| - 1];
      WatchLaw(parse, boot, cli, first, before);
      AnySplits(parse, first, events);
      assert events == before + [last];
      var s := ReactAll(parse, cli, Begin(boot, cli, first), before);
      if !s.restart && IsReading(last) {
        ReadingKeepsCells(parse, boot, cli, first, before, last, s);
        if Listening(events) && !React(parse, cli, s, last).restart {
          assert Listening(before) && !events[|before|].consumerGone;
          ReadingKeepsPublished(parse, boot, cli, first, before, last, s);
        }
      }
    }
  }

  /**
   When the watcher first reads what the start-up parsed, then until a restart every cell is
   that of the last file and every fixed field that of the boot.
  */
  lemma FollowsTheFile(parse: Parse, boot: AgentConfig, cli: bool, first: string, events: seq<Event>)
    requires parse(first) == Some(boot) && !AnyNeedsRestart(parse, first, events)
    ensures var s := ReactAll(parse, cli, Begin(boot, cli, first), events);
            && s.lastYaml == LastReading(first, events) && parse(s.lastYaml).Some?
            && var c := parse(s.lastYaml).value;
               && SameFixed(boot, c) && s.model == c.model && s.debug == c.debug.GetOr(cli)
               && (Listening(events) ==> s.published == Providers(c))
  {
    WatchLaw(parse, boot, cli, first, events);
  }

  /**
   An edit between the start-up's parse and the watcher's first reading: each cell agrees with
   the last file exactly when some later reading differed (for the providers: in its providers)
   from that first reading, or the edit had left it alone; a fixed field the edit changed stays
   stale for as long as no restart is asked for.
  */
  lemma StaleAfterRaceIff(parse: Parse, boot: AgentConfig, cli: bool, first: string, events: seq<Event>)
    requires parse(first).Some? && !AnyNeedsRestart(parse, first, events)
    ensures var s := ReactAll(parse, cli, Begin(boot, cli, first), events);
            && !s.restart && parse(s.lastYaml).Some?
            && var edited, c := parse(first).value, parse(s.lastYaml).value;
               && (s.model == c.model <==> Differs(first, events) || boot.model == edited.model)
               && (s.debug == c.debug.GetOr(cli) <==>
                   Differs(first, events) || boot.debug.GetOr(cli) == edited.debug.GetOr(cli))
               && (Listening(events) ==>
                   (s.published == Providers(c) <==>
                    ProvidersDiffer(parse, first, events) || Providers(boot) == Providers(edited)))
               && (SameFixed(boot, c) <==> SameFixed(boot, edited))
  {
    WatchLaw(parse, boot, cli, first, events);
    var c := parse(ReactAll(parse, cli, Begin(boot, cli, first), events).lastYaml).value;
    SameFixedEquivalence(parse(first).value, c, boot);
    SameFixedEquivalence(parse(first).value, c, c);
    SameFixedEquivalence(c, boot, c);
    SameFixedEquivalence(parse(first).value, boot, boot);
  }

  /** A first reading that does not parse is noticed by the first reading that differs from it, and by no other. */
  lemma UnparsableFirstReading(parse: Parse, boot: AgentConfig, cli: bool, first: string, events: seq<Event>)
    requires parse(first).None? && forall k :: 0 <= k < |events| && events[k].Changed? ==> events[k].contents.Some?
    ensures ReactAll(parse, cli, Begin(boot, cli, first), events).restart <==> Differs(first, events)
  {
    WatchLaw(parse, boot, cli, first, events);
    if Differs(first, events) {
      var k :| 0 <= k < |events| && IsReading(events[k]) && events[k].contents.value != first;
      assert NeedsRestart(parse, first, events[k]);
    }
  }

  // ---- the thread itself ----

  class Watcher {
    const parse: Parse
    // The `--debug` flag of the command line.
    const initialDebug: bool
    var lastYaml: string
    var modelSwap: Option<string>
    var debugFlag: bool
    var configChanged: bool
    // The providers last sent to the reconcile task; before that, those of the start-up.
    var published: seq<string>

    ghost function Now(): State reads this {
      State(lastYaml, modelSwap, debugFlag, published, configChanged)
    }

    constructor (parse: Parse, boot: AgentConfig, initialDebug: bool, initialYaml: string)
      ensures this.parse == parse && this.initialDebug == initialDebug
      ensures Now() == Begin(boot, initialDebug, initialYaml)
    {
      this.parse, this.initialDebug, lastYaml := parse, initialDebug, initialYaml;
      modelSwap, debugFlag := boot.model, boot.debug.GetOr(initialDebug);
      configChanged, published := false, Providers(boot);
    }

    method OnEvent(event: Event)
      modifies this
      ensures Now() == React(parse, initialDebug, old(Now()), event)
    {
      if !event.Changed? {
        return;
      }
      if event.contents.None? {
        configChanged := true;
        return;
      }
      var newYaml := event.contents.value;
      match DiffClassify(parse, lastYaml, newYaml)
      case NoChange =>
        lastYaml := newYaml;
      case HotReloadable(newModel, newDebug) =>
        modelSwap := newModel;
        debugFlag := newDebug.GetOr(initialDebug);
        lastYaml := newYaml;
      case RestartRequired =>
        configChanged := true;
      case ProvidersReload(newModel, newDebug, newConfig) =>
        modelSwap := newModel;
        debugFlag := newDebug.GetOr(initialDebug);
        if !event.consumerGone {
          published := Providers(newConfig);
        }
        lastYaml := newYaml;
    }

    /** The whole thread: it handles the events in order and ends at the first that needs a restart. */
    method Watch(events: seq<Event>) returns (handled: nat)
      requires !configChanged
      modifies this
      ensures Now() == ReactAll(parse, initialDebug, old(Now()), events)
      ensures handled <= |events| && (!configChanged ==> handled == |events|)
      ensures configChanged ==> handled > 0 && !ReactAll(parse, initialDebug, old(Now()), events[..handled - 1]).restart
    {
      handled := 0;
      while handled < |events|
        invariant handled <= |events| && !configChanged
        invariant Now() == ReactAll(parse, initialDebug, old(Now()), events[..handled])
      {
        assert events[..handled + 1][..handled] == events[..handled];
        OnEvent(events[handled]);
        handled := handled + 1;
        if configChanged {
          RestartIsLast(parse, initialDebug, old(Now()), events, handled);
          return;
        }
      }
      assert events[..handled] == events;
    }
  }

  lemma {:induction false} RestartIsLast(parse: Parse, cli: bool, s: State, events: seq<Event>, k: nat)
    requires k <= |events| && ReactAll(parse, cli, s, events[..k]).restart
    ensures ReactAll(parse, cli, s, events) == ReactAll(parse, cli, s, events[..k])
    decreases |events|
  {
    if k < |events| {
      var before := events[..|events| - 1];
      assert before[..k] == events[..k];
      RestartIsLast(parse, cli, s, before, k);
    } else {
      assert events[..k] == events;
    }
  }
}
