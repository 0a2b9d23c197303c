/**
 Provider secrets of a live sandbox (`hot_reconcile_providers` and its retry loop): obsolete
 bindings are revoked, desired ones applied, and a run may fail between any two calls.
*/
module ProviderReconcile {
  import opened Basics

  type EnvVar = string

  // The guest's secrets, and the source each one names; the two are read separately.
  datatype Live = Live(values: map<EnvVar, string>, sources: map<EnvVar, string>)

  datatype Binding = Binding(envVar: EnvVar, source: string, value: string)

  datatype ProviderKind = BuiltIn(slug: string) | Generic(definition: Option<EnvVar>)
  datatype ProviderEntry = ProviderEntry(name: string, kind: ProviderKind)

  type Catalog = map<string, EnvVar>

  const SOURCE_ENV_PREFIX := "RIGHT_PROVIDER_"

  predicate IsHex(c: char) {
    '0' <= c <= '9' || 'a' <= c <= 'f' || 'A' <= c <= 'F'
  }

  predicate IsSourceIdentity(source: string) {
    && SOURCE_ENV_PREFIX <= source && |source| == |SOURCE_ENV_PREFIX| + 32
    && forall i :: |SOURCE_ENV_PREFIX| <= i < |source| ==> IsHex(source[i])
  }

  function ProviderEntryEnvVar(entry: ProviderEntry, catalog: Catalog): Option<EnvVar> {
    match entry.kind
    case BuiltIn(slug) => if slug in catalog then Some(catalog[slug]) else None
    case Generic(definition) => definition
  }

  // A built-in provider names the variable of its slug in the catalog, a generic one its own.
  predicate Names(e: ProviderEntry, catalog: Catalog, v: EnvVar) {
    || (e.kind.BuiltIn? && e.kind.slug in catalog && catalog[e.kind.slug] == v)
    || (e.kind.Generic? && e.kind.definition == Some(v))
  }

  // Variables of the declared providers; an entry without one is skipped.
  function ManagedVars(entries: seq<ProviderEntry>, catalog: Catalog): (vars: set<EnvVar>)
    ensures forall v :: v in vars <==> exists e :: e in entries && Names(e, catalog, v)
  {
    if entries == [] then {}
    else
      var last := entries[|entries| - 1];
      assert forall e :: e in entries <==> e in entries[..|entries| - 1] || e == last;
      assert forall e, v :: Names(e, catalog, v) <==> ProviderEntryEnvVar(e, catalog) == Some(v);
      var before := ManagedVars(entries[..|entries| - 1], catalog);
      match ProviderEntryEnvVar(last, catalog)
      case Some(v) => before + {v}
      case None => before
  }

  // ---- what a reconcile is to achieve ----

  function RemoveAll(live: Live, gone: set<EnvVar>): Live {
    Live(live.values - gone, live.sources - gone)
  }

  function Apply(live: Live, b: Binding): Live {
    Live(live.values[b.envVar := b.value], live.sources[b.envVar := b.source])
  }

  function ApplyAll(live: Live, bs: seq<Binding>): Live {
    if bs == [] then live else Apply(ApplyAll(live, bs[..|bs| - 1]), bs[|bs| - 1])
  }

  function Desired(bs: seq<Binding>): set<EnvVar> {
    if bs == [] then {} else Desired(bs[..|bs| - 1]) + {bs[|bs| - 1].envVar}
  }

  predicate IsObsolete(live: Live, managed: set<EnvVar>, desired: set<EnvVar>, v: EnvVar) {
    && v in live.sources && v in live.values
    && v in managed && IsSourceIdentity(live.sources[v]) && v !in desired
  }

  function Obsolete(live: Live, managed: set<EnvVar>, desired: set<EnvVar>): set<EnvVar> {
    set v | v in live.sources && IsObsolete(live, managed, desired, v)
  }

  function Goal(live: Live, managed: set<EnvVar>, bs: seq<Binding>): Live {
    ApplyAll(RemoveAll(live, Obsolete(live, managed, Desired(bs))), bs)
  }

  predicate SameAt(a: Live, b: Live, v: EnvVar) {
    && (v in a.values <==> v in b.values) && (v in a.values ==> a.values[v] == b.values[v])
    && (v in a.sources <==> v in b.sources) && (v in a.sources ==> a.sources[v] == b.sources[v])
  }

  predicate GoneAt(live: Live, v: EnvVar) {
    v !in live.values && v !in live.sources
  }

  ghost predicate AgreeOutside(a: Live, b: Live, vars: set<EnvVar>) {
    forall v :: SameAt(a, b, v) || v in vars
  }

  // How far attempts that failed part-way may have brought `start`.
  ghost predicate Between(start: Live, now: Live, managed: set<EnvVar>, bs: seq<Binding>) {
    forall v :: SameAt(start, now, v) || v in Desired(bs)
                || (IsObsolete(start, managed, Desired(bs), v) && GoneAt(now, v))
  }

  lemma SameEverywhere(a: Live, b: Live)
    requires AgreeOutside(a, b, {})
    ensures a == b
  {
    forall v
      ensures (v in a.values <==> v in b.values) && (v in a.values ==> a.values[v] == b.values[v])
      ensures (v in a.sources <==> v in b.sources) && (v in a.sources ==> a.sources[v] == b.sources[v])
    {
      assert SameAt(a, b, v);
    }
    assert a.values == b.values && a.sources == b.sources;
  }

  // Applying forgets whatever the bound variables held.
  lemma {:induction false} ApplyForgets(a: Live, b: Live, bs: seq<Binding>, vars: set<EnvVar>)
    requires AgreeOutside(a, b, vars + Desired(bs))
    ensures AgreeOutside(ApplyAll(a, bs), ApplyAll(b, bs), vars)
    decreases |bs|
  {
    if bs != [] {
      var rest, last := bs[..|bs| - 1], bs[|bs| - 1];
      assert vars + {last.envVar} + Desired(rest) == vars + Desired(bs);
      ApplyForgets(a, b, rest, vars + {last.envVar});
      var x, y := ApplyAll(a, rest), ApplyAll(b, rest);
      forall v ensures SameAt(Apply(x, last), Apply(y, last), v) || v in vars {
        assert SameAt(x, y, v) || v in vars + {last.envVar};
      }
    } else {
      assert vars + {} == vars;
    }
  }

  lemma {:induction false} ApplyTouchesDesired(live: Live, bs: seq<Binding>)
    ensures AgreeOutside(live, ApplyAll(live, bs), Desired(bs))
    decreases |bs|
  {
    if bs != [] {
      var rest, last := bs[..|bs| - 1], bs[|bs| - 1];
      ApplyTouchesDesired(live, rest);
      forall v ensures SameAt(live, ApplyAll(live, bs), v) || v in Desired(bs) {
        assert SameAt(live, ApplyAll(live, rest), v) || v in Desired(rest);
      }
    }
  }

  lemma ObsoletesGone(start: Live, now: Live, managed: set<EnvVar>, bs: seq<Binding>)
    requires Between(start, now, managed, bs)
    ensures AgreeOutside(
      RemoveAll(start, Obsolete(start, managed, Desired(bs))),
      RemoveAll(now, Obsolete(now, managed, Desired(bs))),
      Desired(bs))
  {
    var d := Desired(bs);
    var a := RemoveAll(start, Obsolete(start, managed, d));
    var b := RemoveAll(now, Obsolete(now, managed, d));
    forall v ensures SameAt(a, b, v) || v in d {
      assert SameAt(start, now, v) || v in d || (IsObsolete(start, managed, d, v) && GoneAt(now, v));
    }
  }

  /**
   Retries converge: after any attempts that failed part-way, a reconcile that succeeds leaves
   the same secrets as one that had succeeded the first time.
  */
  lemma RetriesConverge(start: Live, now: Live, managed: set<EnvVar>, bs: seq<Binding>)
    requires Between(start, now, managed, bs)
    ensures Goal(now, managed, bs) == Goal(start, managed, bs)
  {
    ObsoletesGone(start, now, managed, bs);
    var a := RemoveAll(start, Obsolete(start, managed, Desired(bs)));
    var b := RemoveAll(now, Obsolete(now, managed, Desired(bs)));
    assert {} + Desired(bs) == Desired(bs);
    ApplyForgets(a, b, bs, {});
    SameEverywhere(ApplyAll(a, bs), ApplyAll(b, bs));
  }

  // The binding that decides a desired variable is the last one for it.
  function LastIndexFor(bs: seq<Binding>, v: EnvVar): (i: nat)
    requires v in Desired(bs)
    ensures i < |bs| && bs[i].envVar == v
    ensures forall j :: i < j < |bs| ==> bs[j].envVar != v
  {
    if bs[|bs| - 1].envVar == v then |bs| - 1 else LastIndexFor(bs[..|bs| - 1], v)
  }

  function LastFor(bs: seq<Binding>, v: EnvVar): Binding
    requires v in Desired(bs)
  {
    bs[LastIndexFor(bs, v)]
  }

  lemma {:induction false} DesiredIsBound(live: Live, bs: seq<Binding>, v: EnvVar)
    requires v in Desired(bs)
    ensures var after := ApplyAll(live, bs);
            && v in after.values && after.values[v] == LastFor(bs, v).value
            && v in after.sources && after.sources[v] == LastFor(bs, v).source
    decreases |bs|
  {
    if bs[|bs| - 1].envVar != v {
      DesiredIsBound(live, bs[..|bs| - 1], v);
    }
  }

  /** Bound, revoked or untouched: what a successful reconcile does to each variable. */
  lemma GoalByVariable(live: Live, managed: set<EnvVar>, bs: seq<Binding>, v: EnvVar)
    ensures var after := Goal(live, managed, bs);
            if v in Desired(bs) then
              && v in after.values && after.values[v] == LastFor(bs, v).value
              && v in after.sources && after.sources[v] == LastFor(bs, v).source
            else if v in live.values && v in live.sources && IsSourceIdentity(live.sources[v]) && v in managed then
              v !in after.values && v !in after.sources
            else SameAt(live, after, v)
  {
    var removed := RemoveAll(live, Obsolete(live, managed, Desired(bs)));
    if v in Desired(bs) {
      DesiredIsBound(removed, bs, v);
    } else {
      ApplyTouchesDesired(removed, bs);
      assert SameAt(removed, Goal(live, managed, bs), v);
    }
  }

  lemma GoalIsBetween(live: Live, managed: set<EnvVar>, bs: seq<Binding>)
    ensures Between(live, Goal(live, managed, bs), managed, bs)
  {
    var after := Goal(live, managed, bs);
    forall v ensures SameAt(live, after, v) || v in Desired(bs)
                     || (IsObsolete(live, managed, Desired(bs), v) && GoneAt(after, v)) {
      GoalByVariable(live, managed, bs, v);
    }
  }

  /** Reconciling again changes nothing. */
  lemma ReconcileIsIdempotent(live: Live, managed: set<EnvVar>, bs: seq<Binding>)
    ensures Goal(Goal(live, managed, bs), managed, bs) == Goal(live, managed, bs)
  {
    GoalIsBetween(live, managed, bs);
    RetriesConverge(live, Goal(live, managed, bs), managed, bs);
  }

  // A credential of Right's that is bound although no provider wants it.
  predicate Leftover(live: Live, bs: seq<Binding>, v: EnvVar) {
    v in live.values && v in live.sources && IsSourceIdentity(live.sources[v]) && v !in Desired(bs)
  }

  /** Exactly the leftovers that neither the previous nor the new declarations name survive. */
  lemma LeftoverIff(live: Live, managed: set<EnvVar>, bs: seq<Binding>, v: EnvVar)
    ensures Leftover(Goal(live, managed, bs), bs, v) <==> Leftover(live, bs, v) && v !in managed
  {
    GoalByVariable(live, managed, bs, v);
  }

  lemma BetweenTrans(a: Live, b: Live, c: Live, managed: set<EnvVar>, bs: seq<Binding>)
    requires Between(a, b, managed, bs) && Between(b, c, managed, bs)
    ensures Between(a, c, managed, bs)
  {
    forall v ensures SameAt(a, c, v) || v in Desired(bs) || (IsObsolete(a, managed, Desired(bs), v) && GoneAt(c, v)) {
      assert SameAt(a, b, v) || v in Desired(bs) || (IsObsolete(a, managed, Desired(bs), v) && GoneAt(b, v));
      assert SameAt(b, c, v) || v in Desired(bs) || (IsObsolete(b, managed, Desired(bs), v) && GoneAt(c, v));
    }
  }

  lemma RemovedIsBetween(start: Live, gone: set<EnvVar>, managed: set<EnvVar>, bs: seq<Binding>)
    requires gone <= Obsolete(start, managed, Desired(bs))
    ensures Between(start, RemoveAll(start, gone), managed, bs)
  {
    forall v ensures SameAt(start, RemoveAll(start, gone), v) || v in Desired(bs)
                     || (IsObsolete(start, managed, Desired(bs), v) && GoneAt(RemoveAll(start, gone), v)) {
      assert v in gone ==> v in Obsolete(start, managed, Desired(bs));
    }
  }

  lemma RemoveOneMore(start: Live, gone: set<EnvVar>, v: EnvVar)
    ensures RemoveAll(RemoveAll(start, gone), {v}) == RemoveAll(start, gone + {v})
  {
  }

  lemma {:induction false} DesiredPrefix(bs: seq<Binding>, k: nat)
    requires k <= |bs|
    ensures Desired(bs[..k]) <= Desired(bs)
    decreases |bs| - k
  {
    if k < |bs| {
      assert bs[..k + 1][..k] == bs[..k];
      DesiredPrefix(bs, k + 1);
    } else {
      assert bs[..k] == bs;
    }
  }

  lemma AppliedIsBetween(start: Live, managed: set<EnvVar>, bs: seq<Binding>, k: nat)
    requires k <= |bs|
    ensures Between(start, ApplyAll(RemoveAll(start, Obsolete(start, managed, Desired(bs))), bs[..k]), managed, bs)
  {
    var gone := Obsolete(start, managed, Desired(bs));
    var removed := RemoveAll(start, gone);
    var now := ApplyAll(removed, bs[..k]);
    RemovedIsBetween(start, gone, managed, bs);
    ApplyTouchesDesired(removed, bs[..k]);
    DesiredPrefix(bs, k);
    forall v ensures SameAt(start, now, v) || v in Desired(bs)
                     || (IsObsolete(start, managed, Desired(bs), v) && GoneAt(now, v)) {
      assert SameAt(removed, now, v) || v in Desired(bs[..k]);
      assert SameAt(start, removed, v) || v in Desired(bs)
             || (IsObsolete(start, managed, Desired(bs), v) && GoneAt(removed, v));
    }
  }

  // ---- the reconcile itself ----

  class SandboxHandle {
    var live: Live

    constructor (live: Live)
      ensures this.live == live
    {
      this.live := live;
    }

    // Calls to the guest, numbered within an attempt; one that fails may have taken effect.
    method RemoveSecret(v: EnvVar, a: Attempt, call: nat) returns (ok: bool)
      modifies this
      ensures ok == !a.Fails(call)
      ensures live == if ok || a.took then RemoveAll(old(live), {v}) else old(live)
    {
      ok := !a.Fails(call);
      if ok || a.took {
        live := RemoveAll(live, {v});
      }
    }

    method ApplySecret(b: Binding, a: Attempt, call: nat) returns (ok: bool)
      modifies this
      ensures ok == !a.Fails(call)
      ensures live == if ok || a.took then Apply(old(live), b) else old(live)
    {
      ok := !a.Fails(call);
      if ok || a.took {
        live := Apply(live, b);
      }
    }

    // One reference: what is obsolete is revoked.
    method RemoveIfObsolete(seen: Live, managed: set<EnvVar>, desired: set<EnvVar>, ghost rest: set<EnvVar>,
                            ghost gone: set<EnvVar>, calls: nat, a: Attempt, v: EnvVar)
      returns (ok: bool, calls': nat, ghost gone': set<EnvVar>)
      requires Revoking(Obsolete(seen, managed, desired), rest, gone, calls) && v in rest
      requires live == RemoveAll(seen, gone) && a.Reaches(calls)
      modifies this
      ensures gone' <= Obsolete(seen, managed, desired) && live == RemoveAll(seen, gone')
      ensures if ok then Revoking(Obsolete(seen, managed, desired), rest - {v}, gone', calls') && a.Reaches(calls')
              else !a.Reaches(|Obsolete(seen, managed, desired)|)
    {
      ghost var obsolete := Obsolete(seen, managed, desired);
      if !IsObsolete(seen, managed, desired, v) {
        NothingToRevoke(obsolete, rest, gone, calls, v);
        return true, calls, gone;
      }
      ok := RemoveSecret(v, a, calls);
      RemoveOneMore(seen, gone, v);
      OneMoreRevoked(obsolete, rest, gone, calls, v);
      calls' := calls + 1;
      gone' := if ok || a.took then gone + {v} else gone;
    }

    // The removals, in whatever order the source references are listed.
    method RemoveObsolete(managed: set<EnvVar>, desired: set<EnvVar>, a: Attempt)
      returns (ok: bool, calls: nat, ghost gone: set<EnvVar>)
      modifies this
      ensures gone <= Obsolete(old(live), managed, desired) && live == RemoveAll(old(live), gone)
      ensures ok <==> a.Reaches(|Obsolete(old(live), managed, desired)|)
      ensures ok ==> gone == Obsolete(old(live), managed, desired) && calls == |gone|
    {
      var seen := live;
      var rest := seen.sources.Keys;
      ghost var obsolete := Obsolete(seen, managed, desired);
      gone, calls := {}, 0;
      assert RemoveAll(seen, gone) == seen;
      while rest != {}
        invariant Revoking(obsolete, rest, gone, calls)
        invariant live == RemoveAll(seen, gone) && a.Reaches(calls)
        decreases |rest|
      {
        var v :| v in rest;
        ok, calls, gone := RemoveIfObsolete(seen, managed, desired, rest, gone, calls, a, v);
        if !ok {
          return;
        }
        rest := rest - {v};
      }
      AllRevoked(obsolete, gone, calls);
      ok := true;
    }

    method ApplyBindings(bs: seq<Binding>, a: Attempt, calls: nat) returns (ok: bool, ghost applied: nat)
      requires a.Reaches(calls)
      modifies this
      ensures applied <= |bs| && live == ApplyAll(old(live), bs[..applied])
      ensures ok <==> a.Reaches(calls + |bs|)
      ensures ok ==> applied == |bs|
    {
      ghost var start := live;
      var i := 0;
      while i < |bs|
        invariant i <= |bs| && live == ApplyAll(start, bs[..i]) && a.Reaches(calls + i)
      {
        assert bs[..i + 1][..i] == bs[..i];
        ok := ApplySecret(bs[i], a, calls + i);
        if !ok {
          return false, if a.took then i + 1 else i;
        }
        i := i + 1;
      }
      return true, |bs|;
    }

    /**
     `hot_reconcile_providers`: it succeeds exactly when the bindings resolve and no call fails
     among the removals of what is obsolete and the applications of what is desired. Success
     reaches the goal; a failure anywhere leaves a state from which the goal is still the same.
    */
    method HotReconcileProviders(previous: seq<ProviderEntry>, config: seq<ProviderEntry>, catalog: Catalog,
                                 bs: seq<Binding>, a: Attempt)
      returns (ok: bool)
      modifies this
      ensures ok == (a.resolved &&
                     a.Reaches(|Obsolete(old(live), ManagedVars(previous + config, catalog), Desired(bs))| + |bs|))
      ensures ok ==> live == Goal(old(live), ManagedVars(previous + config, catalog), bs)
      ensures Between(old(live), live, ManagedVars(previous + config, catalog), bs)
    {
      if !a.resolved {
        return false;
      }
      ghost var start := live;
      var managed := ManagedVars(previous + config, catalog);
      var calls;
      ghost var gone;
      ok, calls, gone := RemoveObsolete(managed, Desired(bs), a);
      RemovedIsBetween(start, gone, managed, bs);
      if !ok {
        return;
      }
      ghost var applied;
      ok, applied := ApplyBindings(bs, a, calls);
      AppliedIsBetween(start, managed, bs, applied);
      assert bs[..|bs|] == bs;
    }

    /**
     The retry loop of the provider task: at most three attempts, and no more than needed;
     whichever of them succeeds, the secrets are those of a success at the first. An attempt in
     which nothing fails succeeds.
    */
    method ReconcileWithRetries(previous: seq<ProviderEntry>, config: seq<ProviderEntry>, catalog: Catalog,
                                bs: seq<Binding>, tries: seq<Attempt>)
      returns (ok: bool, shutdown: bool, attempts: nat)
      requires |tries| == |HOT_RECONCILE_BACKOFFS_MS| + 1
      modifies this
      ensures ok ==> live == Goal(old(live), ManagedVars(previous + config, catalog), bs)
      ensures Between(old(live), live, ManagedVars(previous + config, catalog), bs)
      ensures 1 <= attempts <= 3
      ensures forall j :: 0 <= j < attempts && tries[j].resolved && tries[j].failsAt.None? ==> ok && attempts == j + 1
      ensures shutdown ==> !ok && attempts < 3 && tries[attempts - 1].shutdown
      ensures !ok && !shutdown ==> attempts == 3
      ensures forall j :: 0 <= j < attempts - 1 ==> !tries[j].shutdown
    {
      ghost var managed := ManagedVars(previous + config, catalog);
      var attempt := 0;
      while true
        invariant 0 <= attempt <= |HOT_RECONCILE_BACKOFFS_MS|
        invariant Between(old(live), live, managed, bs)
        invariant forall j :: 0 <= j < attempt ==> !(tries[j].resolved && tries[j].failsAt.None?) && !tries[j].shutdown
        decreases |HOT_RECONCILE_BACKOFFS_MS| - attempt
      {
        ghost var before := live;
        ok := HotReconcileProviders(previous, config, catalog, bs, tries[attempt]);
        RetriesConverge(old(live), before, managed, bs);
        BetweenTrans(old(live), before, live, managed, bs);
        if ok || attempt >= |HOT_RECONCILE_BACKOFFS_MS| {
          return ok, false, attempt + 1;
        }
        if tries[attempt].shutdown {
          return false, true, attempt + 1;
        }
        attempt := attempt + 1;
      }
    }
  }

  // What one attempt meets: whether the bindings and the guest's secrets can be read, the number
  // of the first call that fails and whether it took effect, and shutdown during the pause after.
  datatype Attempt = Attempt(resolved: bool, failsAt: Option<nat>, took: bool, shutdown: bool) {
    predicate Fails(call: nat) {
      failsAt == Some(call)
    }

    // The first `n` calls succeed.
    predicate Reaches(n: nat) {
      failsAt.None? || failsAt.value >= n
    }
  }

  // So many calls have revoked what is obsolete among the references looked at.
  ghost predicate Revoking(obsolete: set<EnvVar>, rest: set<EnvVar>, gone: set<EnvVar>, calls: nat) {
    gone <= obsolete <= gone + rest && gone !! rest && |gone| == calls
  }

  lemma OneMoreRevoked(obsolete: set<EnvVar>, rest: set<EnvVar>, gone: set<EnvVar>, calls: nat, v: EnvVar)
    requires Revoking(obsolete, rest, gone, calls) && v in rest && v in obsolete
    ensures Revoking(obsolete, rest - {v}, gone + {v}, calls + 1)
    ensures calls < |obsolete|
  {
    Contained(gone + {v}, obsolete);
  }

  lemma NothingToRevoke(obsolete: set<EnvVar>, rest: set<EnvVar>, gone: set<EnvVar>, calls: nat, v: EnvVar)
    requires Revoking(obsolete, rest, gone, calls) && v in rest && v !in obsolete
    ensures Revoking(obsolete, rest - {v}, gone, calls)
  {
  }

  lemma AllRevoked(obsolete: set<EnvVar>, gone: set<EnvVar>, calls: nat)
    requires Revoking(obsolete, {}, gone, calls)
    ensures gone == obsolete && calls == |obsolete|
  {
    assert gone + {} == gone;
  }

  lemma Contained(a: set<EnvVar>, b: set<EnvVar>)
    requires a <= b
    ensures |a| <= |b|
  {
    if a != {} {
      var v :| v in a;
      Contained(a - {v}, b - {v});
    }
  }

  const HOT_RECONCILE_BACKOFFS_MS: seq<nat> := [500, 2000]

  // ---- over reloads ----

  // One accepted provider change, and the secrets after its last attempt.
  datatype Reload = Reload(entries: seq<ProviderEntry>, bindings: seq<Binding>, ok: bool, after: Live)

  // Each reload compares with the one before, whether or not that one succeeded.
  ghost predicate IsRun(live: Live, config: seq<ProviderEntry>, reloads: seq<Reload>, catalog: Catalog)
    decreases |reloads|
  {
    reloads == [] ||
    (var r := reloads[0];
     var managed := ManagedVars(config + r.entries, catalog);
     && (if r.ok then r.after == Goal(live, managed, r.bindings) else Between(live, r.after, managed, r.bindings))
     && IsRun(r.after, r.entries, reloads[1..], catalog))
  }

  // A credential of Right's, wanted or not.
  predicate IsRights(live: Live, v: EnvVar) {
    v in live.values && v in live.sources && IsSourceIdentity(live.sources[v])
  }

  // Every credential of Right's in the guest belongs to a declared provider.
  ghost predicate AllDeclared(live: Live, config: seq<ProviderEntry>, catalog: Catalog) {
    forall v :: IsRights(live, v) ==> v in ManagedVars(config, catalog)
  }

  lemma ManagedOfBoth(a: seq<ProviderEntry>, b: seq<ProviderEntry>, catalog: Catalog)
    ensures ManagedVars(a + b, catalog) == ManagedVars(a, catalog) + ManagedVars(b, catalog)
  {
    forall v ensures v in ManagedVars(a + b, catalog) <==> v in ManagedVars(a, catalog) + ManagedVars(b, catalog) {
      assert forall e :: e in a + b <==> e in a || e in b;
    }
  }

  // The reload bound a variable that its own declarations do not name, or gave up on one that
  // it dropped.
  predicate Escapes(before: seq<ProviderEntry>, r: Reload, v: EnvVar, catalog: Catalog) {
    && v !in ManagedVars(r.entries, catalog)
    && (v in Desired(r.bindings) || (!r.ok && v in ManagedVars(before, catalog)))
  }

  function DeclaredBefore(config: seq<ProviderEntry>, reloads: seq<Reload>, j: nat): seq<ProviderEntry>
    requires j <= |reloads|
  {
    if j == 0 then config else reloads[j - 1].entries
  }

  ghost predicate EscapesAt(config: seq<ProviderEntry>, reloads: seq<Reload>, j: nat, v: EnvVar, catalog: Catalog) {
    j < |reloads| && Escapes(DeclaredBefore(config, reloads, j), reloads[j], v, catalog)
  }

  // There from the start without a declaration, or let through by one of the first reloads.
  ghost predicate HasACause(live: Live, config: seq<ProviderEntry>, reloads: seq<Reload>, k: nat, v: EnvVar,
                            catalog: Catalog)
  {
    || (IsRights(live, v) && v !in ManagedVars(config, catalog))
    || exists j: nat :: j < k && EscapesAt(config, reloads, j, v, catalog)
  }

  // One reload: what is Right's and not declared afterwards was so before, or escaped here.
  lemma ReloadLetsThrough(live: Live, config: seq<ProviderEntry>, r: Reload, catalog: Catalog, v: EnvVar)
    requires IsRun(live, config, [r], catalog)
    requires IsRights(r.after, v) && v !in ManagedVars(r.entries, catalog) && !Escapes(config, r, v, catalog)
    ensures IsRights(live, v) && v !in ManagedVars(config, catalog)
  {
    var managed := ManagedVars(config + r.entries, catalog);
    ManagedOfBoth(config, r.entries, catalog);
    GoalByVariable(live, managed, r.bindings, v);
    if !r.ok {
      assert SameAt(live, r.after, v);
    }
  }

  lemma CauseFromLater(live: Live, config: seq<ProviderEntry>, reloads: seq<Reload>, k: nat, v: EnvVar,
                       catalog: Catalog)
    requires reloads != [] && HasACause(reloads[0].after, reloads[0].entries, reloads[1..], k, v, catalog)
    requires IsRun(live, config, [reloads[0]], catalog)
    ensures HasACause(live, config, reloads, k + 1, v, catalog)
  {
    var r := reloads[0];
    if j: nat :| j < k && EscapesAt(r.entries, reloads[1..], j, v, catalog) {
      assert EscapesAt(config, reloads, j + 1, v, catalog);
    } else {
      if !Escapes(config, r, v, catalog) {
        ReloadLetsThrough(live, config, r, catalog, v);
      } else {
        assert EscapesAt(config, reloads, 0, v, catalog);
      }
    }
  }

  /**
   For every run of reloads, failed ones among them: a credential that is Right's and that the
   latest declarations do not name was there undeclared from the start, or some reload bound it
   without declaring it, or dropped it and gave up.
  */
  lemma {:induction false} UndeclaredHasACause(live: Live, config: seq<ProviderEntry>, reloads: seq<Reload>,
                                               catalog: Catalog, k: nat, v: EnvVar)
    requires IsRun(live, config, reloads, catalog) && k < |reloads|
    requires IsRights(reloads[k].after, v) && v !in ManagedVars(reloads[k].entries, catalog)
    ensures HasACause(live, config, reloads, k + 1, v, catalog)
    decreases |reloads|
  {
    var r := reloads[0];
    assert IsRun(live, config, [r], catalog);
    if k > 0 {
      UndeclaredHasACause(r.after, r.entries, reloads[1..], catalog, k - 1, v);
      CauseFromLater(live, config, reloads, k, v, catalog);
    } else if Escapes(config, r, v, catalog) {
      assert EscapesAt(config, reloads, 0, v, catalog);
    } else {
      ReloadLetsThrough(live, config, r, catalog, v);
    }
  }

  /** A leftover of a reload that succeeds has its cause before that reload. */
  lemma LeftoverHasACause(live: Live, config: seq<ProviderEntry>, reloads: seq<Reload>, catalog: Catalog, k: nat,
                          v: EnvVar)
    requires IsRun(live, config, reloads, catalog) && k < |reloads|
    requires reloads[k].ok && Leftover(reloads[k].after, reloads[k].bindings, v)
    ensures HasACause(live, config, reloads, k, v, catalog)
  {
    var start, declared := if k == 0 then live else reloads[k - 1].after,
      if k == 0 then config else reloads[k - 1].entries;
    RunAt(live, config, reloads, catalog, k);
    ManagedOfBoth(declared, reloads[k].entries, catalog);
    LeftoverIff(start, ManagedVars(declared + reloads[k].entries, catalog), reloads[k].bindings, v);
    if k > 0 {
      UndeclaredHasACause(live, config, reloads, catalog, k - 1, v);
    }
  }

  lemma {:induction false} RunAt(live: Live, config: seq<ProviderEntry>, reloads: seq<Reload>, catalog: Catalog, k: nat)
    requires IsRun(live, config, reloads, catalog) && k < |reloads| && reloads[k].ok
    ensures var start := if k == 0 then live else reloads[k - 1].after;
            var declared := if k == 0 then config else reloads[k - 1].entries;
            reloads[k].after == Goal(start, ManagedVars(declared + reloads[k].entries, catalog), reloads[k].bindings)
    decreases |reloads|
  {
    if k > 0 {
      RunAt(reloads[0].after, reloads[0].entries, reloads[1..], catalog, k - 1);
    }
  }

  // In particular, while every reload succeeds and binds only what it declares, none leaves any.
  lemma SuccessfulReloadsRevoke(live: Live, config: seq<ProviderEntry>, reloads: seq<Reload>, catalog: Catalog, k: nat)
    requires IsRun(live, config, reloads, catalog) && AllDeclared(live, config, catalog) && k < |reloads|
    requires forall i :: 0 <= i < |reloads| ==>
      reloads[i].ok && Desired(reloads[i].bindings) <= ManagedVars(reloads[i].entries, catalog)
    ensures forall v :: !Leftover(reloads[k].after, reloads[k].bindings, v)
  {
    forall v ensures !Leftover(reloads[k].after, reloads[k].bindings, v) {
      if Leftover(reloads[k].after, reloads[k].bindings, v) {
        LeftoverHasACause(live, config, reloads, catalog, k, v);
      }
    }
  }

  /** A reload that gives up forgets what it had to revoke: the next success leaves it bound. */
  lemma FailedReloadForgets(v: EnvVar, source: string, value: string, catalog: Catalog)
    requires IsSourceIdentity(source)
    ensures var live := Live(map[v := value], map[v := source]);
            var declared := [ProviderEntry("p", Generic(Some(v)))];
            var reloads := [Reload([], [], false, live), Reload([], [], true, live)];
            && AllDeclared(live, declared, catalog) && IsRun(live, declared, reloads, catalog)
            && Leftover(reloads[1].after, reloads[1].bindings, v)
  {
    var live := Live(map[v := value], map[v := source]);
    var entry := ProviderEntry("p", Generic(Some(v)));
    assert entry in [entry] && ProviderEntryEnvVar(entry, catalog) == Some(v);
    var reloads := [Reload([], [], false, live), Reload([], [], true, live)];
    assert forall x :: SameAt(live, live, x);
    assert Between(live, live, ManagedVars([entry] + [], catalog), []);
    var nothing: seq<ProviderEntry> := [];
    assert nothing + nothing == nothing;
    assert RemoveAll(live, {}) == live;
    assert Goal(live, ManagedVars([], catalog), []) == live;
    assert reloads[1..] == [reloads[1]] && reloads[1..][1..] == [];
    assert IsRun(live, [], reloads[1..], catalog);
  }
}
