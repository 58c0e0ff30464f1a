/**
 * One buffered relay turn: authorization, at most a primary and a fallback leg with a
 * re-authorization between them, and a last authorization before the text may be
 * published. Providers and the configuration authority are parameters; what they were
 * asked is kept in a trace.
 */
module Relay {
  import opened Common

  /** Text as UTF-16 code units. */
  type Units = seq<bv16>

  // ----- targets

  datatype Target = Target(provider: string, model: string)

  datatype Snapshot = Snapshot(epoch: int, provider: string, modelId: string, modelName: Option<string>,
                               fallbackProvider: Option<string>, fallbackModelId: Option<string>, fallbackName: Option<string>)

  datatype Omitted = NotConfigured | Indistinct | NotRelayable | Unresolvable

  datatype Targets = Targets(primary: Option<Target>, fallback: Option<Target>, omitted: Option<Omitted>)

  predicate IsRelayable(provider: string) {
    provider == "opencode-zen" || provider == "opencode-go" || provider == "openai-api" || provider == "openrouter"
  }

  /** The stored name wins; otherwise only the conventional prefix can be stripped. */
  function BareModelName(provider: string, modelId: string, stored: Option<string>): Option<string> {
    var prefix := provider + ":";
    if stored.Some? && stored.value != [] then stored
    else if prefix < modelId then Some(modelId[|prefix|..])
    else None
  }

  predicate Given(text: Option<string>) { text.Some? && text.value != [] }

  function ResolveTargets(s: Snapshot): Targets {
    var name := BareModelName(s.provider, s.modelId, s.modelName);
    var primary := if name.Some? && IsRelayable(s.provider) then Some(Target(s.provider, name.value)) else None;
    if !Given(s.fallbackProvider) || !Given(s.fallbackModelId) then Targets(primary, None, Some(NotConfigured))
    else if !IsRelayable(s.fallbackProvider.value) then Targets(primary, None, Some(NotRelayable))
    else
      var fallbackName := BareModelName(s.fallbackProvider.value, s.fallbackModelId.value, s.fallbackName);
      if fallbackName.None? then Targets(primary, None, Some(Unresolvable))
      else
        var fallback := Target(s.fallbackProvider.value, fallbackName.value);
        if primary == Some(fallback) then Targets(primary, None, Some(Indistinct)) else Targets(primary, Some(fallback), None)
  }

  /** A target a leg accepts: a relayable provider and a resolved model name. */
  predicate Callable(t: Target) { IsRelayable(t.provider) && t.model != [] }

  lemma TargetsAreCallable(s: Snapshot)
    ensures var t := ResolveTargets(s);
            && (t.primary.Some? ==> Callable(t.primary.value))
            && (t.fallback.Some? ==> Callable(t.fallback.value) && t.primary != t.fallback)
            && (t.fallback.Some? <==> t.omitted.None?)
  {}

  /** The model a pair names: its stored name, or what follows the provider's own prefix. */
  predicate Names(provider: string, modelId: string, stored: Option<string>, name: string) {
    && name != ""
    && (if stored.Some? && stored.value != "" then stored.value == name else modelId == provider + ":" + name)
  }

  lemma NamedExactly(provider: string, modelId: string, stored: Option<string>, name: string)
    ensures BareModelName(provider, modelId, stored) == Some(name) <==> Names(provider, modelId, stored, name)
  {
    var prefix := provider + ":";
    if prefix < modelId { assert modelId == prefix + modelId[|prefix|..]; }
    if modelId == prefix + name && name != "" { assert prefix < modelId && modelId[|prefix|..] == name; }
  }

  const RELAYABLE := {"opencode-zen", "opencode-go", "openai-api", "openrouter"}

  // The primary target is the active pair, if the relay knows its provider and it names a
  // model; the fallback target is the other pair on the same terms, unless it is the
  // primary again.
  lemma TargetsExactly(s: Snapshot, t: Target)
    ensures ResolveTargets(s).primary == Some(t) <==>
              t.provider == s.provider && s.provider in RELAYABLE && Names(s.provider, s.modelId, s.modelName, t.model)
    ensures ResolveTargets(s).fallback == Some(t) <==>
              && s.fallbackProvider == Some(t.provider) && t.provider in RELAYABLE
              && s.fallbackModelId.Some? && s.fallbackModelId.value != ""
              && Names(t.provider, s.fallbackModelId.value, s.fallbackName, t.model)
              && ResolveTargets(s).primary != Some(t)
  {
    NamedExactly(s.provider, s.modelId, s.modelName, t.model);
    if s.fallbackProvider.Some? && s.fallbackModelId.Some? {
      NamedExactly(s.fallbackProvider.value, s.fallbackModelId.value, s.fallbackName, t.model);
    }
    assert "openrouter" != "" && "opencode-zen" != "" && "opencode-go" != "" && "openai-api" != "";
  }

  // ----- failures of a leg

  datatype LegError = LegError(timeoutName: bool, status: Option<int>, code: string)

  datatype LegResult = Text(text: string) | Failure(error: LegError)

  const PROVIDER_TIMEOUT := "agent.provider_timeout"
  const RATE_LIMITED := "agent.rate_limited"
  const PROVIDER_ERROR := "agent.provider_error"

  predicate IsFallbackEligible(e: LegError) {
    if e.timeoutName && e.status.None? && e.code == [] then true
    else if e.code == PROVIDER_TIMEOUT then e.status == Some(504)
    else
      || (e.status == Some(429) && e.code == RATE_LIMITED)
      || (e.code == PROVIDER_ERROR && e.status.Some? && 500 <= e.status.value <= 599)
  }

  // A fallback is tried after a local timeout, a provider timeout, a rate limit, and a
  // provider error of the server's making, each only under its own status; never otherwise.
  lemma EligibleExactly(e: LegError)
    ensures IsFallbackEligible(e) <==>
              || (e.timeoutName && e.status == None && e.code == "")
              || (e.code == "agent.provider_timeout" && e.status == Some(504))
              || (e.code == "agent.rate_limited" && e.status == Some(429))
              || (e.code == "agent.provider_error" && e.status.Some? && 500 <= e.status.value <= 599)
  {
    assert "agent.provider_timeout" != "" && "agent.rate_limited" != "" && "agent.provider_error" != "";
    assert "agent.provider_timeout"[6] != "agent.rate_limited"[6] && "agent.provider_timeout"[15] != "agent.provider_error"[15];
  }

  // ----- authorization

  datatype Mode = Disabled | Canary | All | Unrecognized

  /** What the authority answers; a percentage that is not finite is None. */
  datatype Config = Config(epoch: int, mode: Mode, percentage: Option<real>, allowlist: set<Units>)

  datatype Identity = Identity(workspace: Units, actor: Units, intention: Units)

  const FNV_OFFSET: bv32 := 0x811c9dc5

  /** One round of FNV-1a; Math.imul keeps the low 32 bits. */
  function Mixed(hash: bv32, unit: bv16): bv32 { (hash ^ (unit as bv32)) * 0x01000193 }

  function Fnv(units: Units): bv32 {
    if units == [] then FNV_OFFSET else Mixed(Fnv(units[..|units| - 1]), units[|units| - 1])
  }

  method CohortHash(input: Units) returns (hash: bv32)
    ensures hash == Fnv(input)
  {
    hash := FNV_OFFSET;
    var i := 0;
    while i < |input|
      invariant i <= |input| && hash == Fnv(input[..i])
    {
      assert input[..i + 1][..i] == input[..i];
      hash := Mixed(hash, input[i]);
      i := i + 1;
    }
    assert input[..i] == input;
  }

  function Bucket(who: Identity): real {
    ((Fnv(who.workspace + [58] + who.actor) as int) % 100) as real
  }

  predicate InCanary(who: Identity, percentage: Option<real>, allowlist: set<Units>) {
    if who.workspace in allowlist || who.actor in allowlist || who.intention in allowlist then true
    else
      var pct := if percentage.None? || percentage.value < 0.0 then 0.0 else if percentage.value > 100.0 then 100.0 else percentage.value;
      if pct >= 100.0 then true else if pct <= 0.0 then false else Bucket(who) < pct
  }

  // The hash is FNV-1a with 32 bits: its offset basis, and its published value for "a".
  lemma HashVectors()
    ensures Fnv([]) == 0x811c9dc5 && Fnv([97]) == 0xe40c292c
  {
    assert [97 as bv16][..0] == [];
    assert Fnv([97]) == Mixed(Fnv([]), 97);
  }

  // Who is in a canary: whoever the allowlist names, and of the hundred buckets that the
  // hash of workspace and actor spreads everybody over, those below the percentage.
  lemma InCanaryExactly(who: Identity, percentage: Option<real>, allowlist: set<Units>)
    ensures InCanary(who, percentage, allowlist) <==>
              || who.workspace in allowlist || who.actor in allowlist || who.intention in allowlist
              || (percentage.Some? && ((Fnv(who.workspace + [58] + who.actor) as int) % 100) as real < percentage.value)
  {}

  // Raising the percentage or extending the allowlist never drops anyone from a cohort.
  lemma CohortsGrow(who: Identity, low: real, high: real, few: set<Units>, more: set<Units>)
    requires low <= high && few <= more
    ensures InCanary(who, Some(low), few) ==> InCanary(who, Some(high), more)
  {}

  datatype Denial = AuthorityUnavailable | EpochChanged | RolloutDisabled | ModeUnknown | OutsideCohort

  datatype Authorization = Granted(snapshot: Snapshot) | Denied(reason: Denial)

  predicate Serves(who: Identity, c: Config) { c.mode == All || InCanary(who, c.percentage, c.allowlist) }

  function Authorize(s: Snapshot, who: Identity, answer: Option<Config>): Authorization {
    match answer
    case None => Denied(AuthorityUnavailable)
    case Some(c) =>
      if c.epoch != s.epoch then Denied(EpochChanged)
      else if c.mode == Disabled then Denied(RolloutDisabled)
      else if c.mode == Unrecognized then Denied(ModeUnknown)
      else if Serves(who, c) then Granted(s)
      else if Given(s.fallbackProvider) && Given(s.fallbackModelId) then
        Granted(s.(provider := s.fallbackProvider.value, modelId := s.fallbackModelId.value, modelName := s.fallbackName,
                   fallbackProvider := None, fallbackModelId := None, fallbackName := None))
      else Denied(OutsideCohort)
  }

  // Authorization is idempotent exactly when it did not promote: asked again under the
  // same answer, the authority refuses a snapshot it promoted to its fallback.
  lemma PromotionIsRefusedAgain(s: Snapshot, who: Identity, c: Config)
    requires Authorize(s, who, Some(c)).Granted?
    ensures var granted := Authorize(s, who, Some(c)).snapshot;
            && (Authorize(granted, who, Some(c)) == Granted(granted) <==> granted == s)
            && (Authorize(granted, who, Some(c)).Denied? <==> !Serves(who, c))
  {}

  /** An answer that serves the active pair of a snapshot. */
  predicate ServesActive(s: Snapshot, who: Identity, answer: Option<Config>) {
    && answer.Some? && answer.value.epoch == s.epoch
    && (answer.value.mode == All || (answer.value.mode == Canary && InCanary(who, answer.value.percentage, answer.value.allowlist)))
  }

  // What is granted, and why not: without an answer nothing is, nor after a change of
  // epoch, nor while the rollout is disabled or its mode is unknown. Who is outside the
  // cohort gets the fallback pair, without a further fallback, if there is one.
  lemma AuthorizedExactly(s: Snapshot, who: Identity, answer: Option<Config>)
    ensures var a := Authorize(s, who, answer);
            && (a == Granted(s) <==> ServesActive(s, who, answer))
            && (a == Denied(AuthorityUnavailable) <==> answer == None)
            && (a == Denied(EpochChanged) <==> answer.Some? && answer.value.epoch != s.epoch)
            && (answer.Some? && answer.value.epoch == s.epoch ==>
                  && (a == Denied(RolloutDisabled) <==> answer.value.mode == Disabled)
                  && (a == Denied(ModeUnknown) <==> answer.value.mode == Unrecognized)
                  && (answer.value.mode == Canary && !ServesActive(s, who, answer) ==>
                        if s.fallbackProvider.Some? && s.fallbackProvider.value != "" && s.fallbackModelId.Some? && s.fallbackModelId.value != "" then
                          a == Granted(Snapshot(s.epoch, s.fallbackProvider.value, s.fallbackModelId.value, s.fallbackName, None, None, None))
                        else a == Denied(OutsideCohort)))
  {}

  // ----- one turn

  /** A consultation with what the authority granted or denied, or a call of a leg. */
  datatype Event = Consulted(answer: Authorization) | Called(target: Target, result: LegResult)

  datatype Outcome =
    | Published(text: string)
    | Refused(reason: Denial)
    | NoPrimary
    | OneLegFailed(error: LegError)
    | BothLegsFailed(first: LegError, second: LegError)

  datatype Run = Run(trace: seq<Event>, outcome: Outcome)

  /** The last authorization: the text is published only if it is granted. */
  function Publish(trace: seq<Event>, text: string, last: Authorization): Run {
    Run(trace + [Consulted(last)], if last.Granted? then Published(text) else Refused(last.reason))
  }

  /** authority(k) is the answer to the consultation number k; provider is what a leg yields. */
  function Turn(s: Snapshot, who: Identity, authority: nat -> Option<Config>, provider: Target -> LegResult): Run {
    var admitted := Authorize(s, who, authority(0));
    match admitted
    case Denied(reason) => Run([Consulted(admitted)], Refused(reason))
    case Granted(active) =>
      var t := ResolveTargets(active);
      if t.primary.None? then Run([Consulted(admitted)], NoPrimary)
      else
        var first := provider(t.primary.value);
        var trace := [Consulted(admitted), Called(t.primary.value, first)];
        if first.Text? then Publish(trace, first.text, Authorize(active, who, authority(1)))
        else if t.fallback.None? || !IsFallbackEligible(first.error) then Run(trace, OneLegFailed(first.error))
        else
          var between := Authorize(active, who, authority(1));
          match between
          case Denied(reason) => Run(trace + [Consulted(between)], Refused(reason))
          case Granted(_) =>
            var second := provider(t.fallback.value);
            var longer := trace + [Consulted(between), Called(t.fallback.value, second)];
            if second.Text? then Publish(longer, second.text, Authorize(active, who, authority(2)))
            else Run(longer, BothLegsFailed(first.error, second.error))
  }

  /** The turn as it is run: each consultation and each call is appended to the trace. */
  class RelayTurn {
    var trace: seq<Event>
    var consultations: nat

    constructor ()
      ensures trace == [] && consultations == 0
    {
      trace, consultations := [], 0;
    }

    method AuthorizeTurn(s: Snapshot, who: Identity, authority: nat -> Option<Config>) returns (a: Authorization)
      modifies this
      ensures a == Authorize(s, who, authority(old(consultations)))
      ensures trace == old(trace) + [Consulted(a)] && consultations == old(consultations) + 1
    {
      a := Authorize(s, who, authority(consultations));
      trace := trace + [Consulted(a)];
      consultations := consultations + 1;
    }

    method RunLeg(target: Target, provider: Target -> LegResult) returns (r: LegResult)
      modifies this`trace
      ensures r == if Callable(target) then provider(target) else Failure(LegError(false, Some(503), "agent.provider_not_configured"))
      ensures trace == old(trace) + if Callable(target) then [Called(target, r)] else []
    {
      if !Callable(target) { return Failure(LegError(false, Some(503), "agent.provider_not_configured")); }
      r := provider(target);
      trace := trace + [Called(target, r)];
    }

    method ProvideResponse(s: Snapshot, who: Identity, authority: nat -> Option<Config>, provider: Target -> LegResult)
      returns (outcome: Outcome)
      requires trace == [] && consultations == 0
      modifies this
      ensures Run(trace, outcome) == Turn(s, who, authority, provider)
    {
      var admitted := AuthorizeTurn(s, who, authority);
      if admitted.Denied? { return Refused(admitted.reason); }
      var active := admitted.snapshot;
      var targets := ResolveTargets(active);
      TargetsAreCallable(active);
      if targets.primary.None? { return NoPrimary; }
      var result := RunLeg(targets.primary.value, provider);
      if result.Failure? {
        var primaryErr := result.error;
        if targets.fallback.None? || !IsFallbackEligible(primaryErr) { return OneLegFailed(primaryErr); }
        var between := AuthorizeTurn(active, who, authority);
        if between.Denied? { return Refused(between.reason); }
        result := RunLeg(targets.fallback.value, provider);
        if result.Failure? { return BothLegsFailed(primaryErr, result.error); }
      }
      var last := AuthorizeTurn(active, who, authority);
      if last.Denied? { return Refused(last.reason); }
      outcome := Published(result.text);
    }
  }

  // ----- what every turn keeps

  /** A target that a granted snapshot resolves to, as its primary or as its fallback. */
  predicate Resolves(a: Authorization, target: Target) {
    a.Granted? && (ResolveTargets(a.snapshot).primary == Some(target) || ResolveTargets(a.snapshot).fallback == Some(target))
  }

  /** Every call follows at once on an authorization that granted its very target. */
  ghost predicate CallsAuthorized(trace: seq<Event>) {
    forall i :: 0 <= i < |trace| && trace[i].Called? ==>
      i > 0 && trace[i - 1].Consulted? && Resolves(trace[i - 1].answer, trace[i].target) && Callable(trace[i].target)
  }

  /** A call after another goes elsewhere, and only after a failure that permits a fallback. */
  ghost predicate SecondCallEarned(trace: seq<Event>) {
    forall i, j :: 0 <= i < j < |trace| && trace[i].Called? && trace[j].Called? ==>
      trace[j].target != trace[i].target && trace[i].result.Failure? && IsFallbackEligible(trace[i].result.error)
  }

  predicate IsRefusal(e: Event) { e.Consulted? && e.answer.Denied? }

  /** A refusal is the last thing that happens. */
  ghost predicate RefusalEnds(run: Run) {
    forall i :: 0 <= i < |run.trace| && IsRefusal(run.trace[i]) ==> i == |run.trace| - 1 && run.outcome.Refused?
  }

  ghost predicate Orderly(trace: seq<Event>) {
    CallsAuthorized(trace) && SecondCallEarned(trace) && forall e :: e in trace ==> !IsRefusal(e)
  }

  lemma AddConsult(trace: seq<Event>, a: Authorization)
    requires Orderly(trace)
    ensures var more := trace + [Consulted(a)];
            && CallsAuthorized(more) && SecondCallEarned(more) && (a.Granted? ==> Orderly(more))
            && forall i :: 0 <= i < |trace| ==> !IsRefusal(more[i])
  {}

  lemma AddCall(trace: seq<Event>, a: Authorization, t: Target, r: LegResult)
    requires Orderly(trace) && trace != [] && trace[|trace| - 1] == Consulted(a) && Resolves(a, t) && Callable(t)
    requires forall e :: e in trace && e.Called? ==> e.target != t && e.result.Failure? && IsFallbackEligible(e.result.error)
    ensures Orderly(trace + [Called(t, r)])
  {}

  /** A published text is what the last call returned, and the authority was asked once more since. */
  ghost predicate PublishedLast(run: Run) {
    run.outcome.Published? ==>
      var n := |run.trace|;
      && n >= 3 && run.trace[n - 1].Consulted? && run.trace[n - 1].answer.Granted?
      && run.trace[n - 2].Called? && run.trace[n - 2].result == Text(run.outcome.text)
  }

  ghost predicate Disciplined(run: Run) {
    CallsAuthorized(run.trace) && SecondCallEarned(run.trace) && RefusalEnds(run) && PublishedLast(run)
  }

  lemma PublishDisciplined(trace: seq<Event>, text: string, last: Authorization)
    requires Orderly(trace) && |trace| >= 2 && trace[|trace| - 1].Called? && trace[|trace| - 1].result == Text(text)
    ensures Disciplined(Publish(trace, text, last))
  {
    AddConsult(trace, last);
  }

  // In every turn at most two calls are made, each right after an authorization that
  // grants its target, the second to another target after a failure that permits it; a
  // refusal ends the turn; and a published text is what the last call returned, with one
  // more grant after it. Whether that grant is of the same target is another question.
  lemma TurnDiscipline(s: Snapshot, who: Identity, authority: nat -> Option<Config>, provider: Target -> LegResult)
    ensures Disciplined(Turn(s, who, authority, provider)) && |Turn(s, who, authority, provider).trace| <= 5
  {
    var admitted := Authorize(s, who, authority(0));
    AddConsult([], admitted);
    if admitted.Granted? {
      var active := admitted.snapshot;
      var t := ResolveTargets(active);
      TargetsAreCallable(active);
      if t.primary.Some? {
        var first := provider(t.primary.value);
        var trace := [Consulted(admitted), Called(t.primary.value, first)];
        AddCall([Consulted(admitted)], admitted, t.primary.value, first);
        assert [Consulted(admitted)] + [Called(t.primary.value, first)] == trace;
        if first.Text? {
          PublishDisciplined(trace, first.text, Authorize(active, who, authority(1)));
        } else if t.fallback.Some? && IsFallbackEligible(first.error) {
          if Authorize(active, who, authority(1)).Granted? { GrantsTheFallback(active, who, authority(1)); }
          SecondLeg(trace, t.fallback.value, provider(t.fallback.value), Authorize(active, who, authority(1)),
                    Authorize(active, who, authority(2)));
        }
      }
    }
  }

  /** Every grant leaves the fallback target callable: as fallback, or promoted. */
  lemma GrantsTheFallback(s: Snapshot, who: Identity, answer: Option<Config>)
    requires ResolveTargets(s).fallback.Some? && Authorize(s, who, answer).Granted?
    ensures Resolves(Authorize(s, who, answer), ResolveTargets(s).fallback.value)
  {}

  lemma SecondLeg(trace: seq<Event>, t: Target, r: LegResult, between: Authorization, last: Authorization)
    requires Orderly(trace) && Callable(t) && (between.Granted? ==> Resolves(between, t))
    requires forall e :: e in trace && e.Called? ==> e.target != t && e.result.Failure? && IsFallbackEligible(e.result.error)
    ensures var more := trace + [Consulted(between)];
            CallsAuthorized(more) && SecondCallEarned(more) && forall i :: 0 <= i < |trace| ==> !IsRefusal(more[i])
    ensures between.Granted? ==> Orderly(trace + [Consulted(between), Called(t, r)])
    ensures between.Granted? && r.Text? ==> Disciplined(Publish(trace + [Consulted(between), Called(t, r)], r.text, last))
  {
    AddConsult(trace, between);
    if between.Granted? {
      AddCall(trace + [Consulted(between)], between, t, r);
      assert trace + [Consulted(between)] + [Called(t, r)] == trace + [Consulted(between), Called(t, r)];
      if r.Text? { PublishDisciplined(trace + [Consulted(between), Called(t, r)], r.text, last); }
    }
  }

  // ----- what is published

  /** Some leg the turn may run yields a text. */
  predicate SomeLegAnswers(t: Targets, provider: Target -> LegResult) {
    && t.primary.Some?
    && match provider(t.primary.value)
       case Text(_) => true
       case Failure(e) => t.fallback.Some? && IsFallbackEligible(e) && provider(t.fallback.value).Text?
  }

  // Under an authority that answers the same all along, a turn publishes exactly when it
  // is served by the active pair and one of its legs answers.
  lemma PublishesExactly(s: Snapshot, who: Identity, c: Config, provider: Target -> LegResult)
    ensures Turn(s, who, (_: nat) => Some(c), provider).outcome.Published? <==>
              && c.epoch == s.epoch && (c.mode == All || c.mode == Canary) && Serves(who, c)
              && SomeLegAnswers(ResolveTargets(s), provider)
  {
    if Authorize(s, who, Some(c)).Granted? { PromotionIsRefusedAgain(s, who, c); }
  }

  // How a turn ends under an authority that answers the same all along and serves its
  // active pair, or refuses it. A leg is called at most once; the fallback leg is, exactly
  // if the primary fails in a way that permits it.
  lemma TurnEndsExactly(s: Snapshot, who: Identity, c: Config, provider: Target -> LegResult)
    requires c.mode == All || c.mode == Canary ==> Serves(who, c) || !Given(s.fallbackProvider) || !Given(s.fallbackModelId)
    ensures var run := Turn(s, who, (_: nat) => Some(c), provider);
            var t := ResolveTargets(s);
            if c.epoch != s.epoch then run == Run([Consulted(Denied(EpochChanged))], Refused(EpochChanged))
            else if c.mode == Disabled then run == Run([Consulted(Denied(RolloutDisabled))], Refused(RolloutDisabled))
            else if c.mode == Unrecognized then run == Run([Consulted(Denied(ModeUnknown))], Refused(ModeUnknown))
            else if !Serves(who, c) then run == Run([Consulted(Denied(OutsideCohort))], Refused(OutsideCohort))
            else if t.primary.None? then run == Run([Consulted(Granted(s))], NoPrimary)
            else
              var first := provider(t.primary.value);
              var one := [Consulted(Granted(s)), Called(t.primary.value, first)];
              if first.Text? then run == Run(one + [Consulted(Granted(s))], Published(first.text))
              else if t.fallback.None? || !IsFallbackEligible(first.error) then run == Run(one, OneLegFailed(first.error))
              else
                var second := provider(t.fallback.value);
                var two := one + [Consulted(Granted(s)), Called(t.fallback.value, second)];
                if second.Text? then run == Run(two + [Consulted(Granted(s))], Published(second.text))
                else run == Run(two, BothLegsFailed(first.error, second.error))
  {}

  /** An answer under which a turn may go on: of the epoch it began in, and of a rollout that is on. */
  predicate LetsGoOn(s: Snapshot, answer: Option<Config>) {
    answer.Some? && answer.value.epoch == s.epoch && (answer.value.mode == Canary || answer.value.mode == All)
  }

  // Under any authority whatever: a turn that publishes was let go on by each of the two or
  // three answers it asked for; so an authority that falls silent, changes its epoch or
  // turns the rollout off before the last of them stops the publication.
  lemma PublishedUnderEveryAnswer(s: Snapshot, who: Identity, authority: nat -> Option<Config>, provider: Target -> LegResult)
    requires Turn(s, who, authority, provider).outcome.Published?
    ensures LetsGoOn(s, authority(0)) && LetsGoOn(s, authority(1))
    ensures |Turn(s, who, authority, provider).trace| in {3, 5}
    ensures |Turn(s, who, authority, provider).trace| == 5 ==> LetsGoOn(s, authority(2))
  {}

  /** The authority moves the turn to the fallback pair of its snapshot. */
  predicate Promotes(s: Snapshot, who: Identity, c: Config) {
    Authorize(s, who, Some(c)).Granted? && !Serves(who, c)
  }

  /** The target a promoted turn runs on: the fallback pair, if it is relayable and names a model. */
  function PromotedTarget(s: Snapshot): Option<Target>
    requires Given(s.fallbackProvider) && Given(s.fallbackModelId)
  {
    var name := BareModelName(s.fallbackProvider.value, s.fallbackModelId.value, s.fallbackName);
    if name.Some? && IsRelayable(s.fallbackProvider.value) then Some(Target(s.fallbackProvider.value, name.value)) else None
  }

  // What becomes of a turn promoted to its fallback pair, under an authority that answers
  // the same all along. Without a callable target nothing is called. Otherwise the
  // fallback target alone is called, once: its failure ends the turn, and its answer is
  // thrown away, for the last authorization always refuses.
  lemma PromotedTurn(s: Snapshot, who: Identity, c: Config, provider: Target -> LegResult)
    requires Promotes(s, who, c)
    ensures Given(s.fallbackProvider) && Given(s.fallbackModelId)
    ensures var admitted := Authorize(s, who, Some(c));
            Turn(s, who, (_: nat) => Some(c), provider) ==
              match PromotedTarget(s)
              case None => Run([Consulted(admitted)], NoPrimary)
              case Some(target) =>
                var called := [Consulted(admitted), Called(target, provider(target))];
                match provider(target)
                case Failure(e) => Run(called, OneLegFailed(e))
                case Text(_) => Run(called + [Consulted(Denied(OutsideCohort))], Refused(OutsideCohort))
  {
    var active := Authorize(s, who, Some(c)).snapshot;
    assert ResolveTargets(active) == Targets(PromotedTarget(s), None, Some(NotConfigured));
    PromotionIsRefusedAgain(s, who, c);
  }

  /** A snapshot with a relayable pair and a relayable fallback pair. */
  const TWO_PAIRS := Snapshot(0, "openrouter", "p", Some("m"), Some("openai-api"), Some("f"), Some("n"))

  /** What it is promoted to. */
  const SECOND_PAIR := Snapshot(0, "openai-api", "f", Some("n"), None, None, None)

  const NOBODY := Config(0, Canary, Some(0.0), {})

  const EVERYBODY := Config(0, All, None, {})

  // There are such turns: with a canary at zero percent, a relayable fallback pair and a
  // provider that answers, the provider is called and the turn refused.
  lemma CalledAndThenRefused(who: Identity, text: string)
    ensures Promotes(TWO_PAIRS, who, NOBODY)
    ensures Turn(TWO_PAIRS, who, (_: nat) => Some(NOBODY), (_: Target) => Text(text)) ==
              Run([Consulted(Granted(SECOND_PAIR)), Called(Target("openai-api", "n"), Text(text)), Consulted(Denied(OutsideCohort))],
                  Refused(OutsideCohort))
  {
    PromotedTurn(TWO_PAIRS, who, NOBODY, (_: Target) => Text(text));
  }

  /** A text is published although the last grant, after it arrived, is of other targets than its own. */
  predicate PublishedOutsideGrant(run: Run) {
    && run.outcome.Published? && |run.trace| >= 2
    && run.trace[|run.trace| - 1].Consulted? && run.trace[|run.trace| - 2].Called?
    && !Resolves(run.trace[|run.trace| - 1].answer, run.trace[|run.trace| - 2].target)
  }

  /** During the first leg the rollout moves the turn away from the pair it was admitted on, whose text arrives. */
  predicate MovedDuringFirstLeg(s: Snapshot, who: Identity, authority: nat -> Option<Config>, provider: Target -> LegResult) {
    && Authorize(s, who, authority(0)) == Granted(s)
    && authority(1).Some? && Promotes(s, who, authority(1).value)
    && ResolveTargets(s).primary.Some? && provider(ResolveTargets(s).primary.value).Text?
    && ResolveTargets(s).primary != PromotedTarget(s)
  }

  // The last authorization fails closed on a change of epoch or mode, and does not on a
  // change of cohort: a text is published outside the last grant exactly when the rollout
  // promoted the turn to another target while its primary was answering.
  lemma PublishedOutsideGrantExactly(s: Snapshot, who: Identity, authority: nat -> Option<Config>, provider: Target -> LegResult)
    ensures PublishedOutsideGrant(Turn(s, who, authority, provider)) <==> MovedDuringFirstLeg(s, who, authority, provider)
  {
    var admitted := Authorize(s, who, authority(0));
    if admitted.Granted? {
      var t := ResolveTargets(admitted.snapshot);
      if t.primary.Some? {
        var first := provider(t.primary.value);
        if first.Text? {
          FirstLegPublished(s, who, authority, first.text);
        } else if t.fallback.Some? && IsFallbackEligible(first.error) {
          if Authorize(admitted.snapshot, who, authority(2)).Granted? { GrantsTheFallback(admitted.snapshot, who, authority(2)); }
        }
      }
    }
  }

  /** The grant after the first leg is of its target, unless the turn is promoted elsewhere now. */
  lemma FirstLegPublished(s: Snapshot, who: Identity, authority: nat -> Option<Config>, text: string)
    requires Authorize(s, who, authority(0)).Granted?
    requires ResolveTargets(Authorize(s, who, authority(0)).snapshot).primary.Some?
    ensures var active := Authorize(s, who, authority(0)).snapshot;
            var last := Authorize(active, who, authority(1));
            last.Granted? && !Resolves(last, ResolveTargets(active).primary.value) <==>
              && active == s && authority(1).Some? && Promotes(s, who, authority(1).value)
              && ResolveTargets(s).primary != PromotedTarget(s)
  {}

  // There is such a publication: everybody is served when the turn is admitted, nobody
  // is when the answer of the primary is there, and it is published all the same.
  lemma PublishedAfterTheMove(who: Identity, text: string)
    ensures var authority := (k: nat) => Some(if k == 0 then EVERYBODY else NOBODY);
            var run := Turn(TWO_PAIRS, who, authority, (_: Target) => Text(text));
            && run == Run([Consulted(Granted(TWO_PAIRS)), Called(Target("openrouter", "m"), Text(text)), Consulted(Granted(SECOND_PAIR))],
                          Published(text))
            && PublishedOutsideGrant(run)
  {
    var authority := (k: nat) => Some(if k == 0 then EVERYBODY else NOBODY);
    assert Authorize(TWO_PAIRS, who, authority(0)) == Granted(TWO_PAIRS);
    assert Authorize(TWO_PAIRS, who, authority(1)) == Granted(SECOND_PAIR);
  }
}
