/**
 * One HTTP leg under an absolute deadline that covers headers and body: the relay
 * fetch and the private broker completion. Timer callback, header arrival, the
 * handler for late headers, body parsing and the clock interleave freely; the only
 * order kept is that of the microtasks: the late-headers handler is registered on
 * the fetch promise first, so it runs before the code that resumes after the race.
 */
module Deadline {
  datatype Kind = Relay | Broker

  datatype Timer = Armed | Fired | Cleared

  /** A returned leg tells what the headers said, whether the body had the expected form, and when it came back. */
  datatype Outcome = Returned(ok: bool, valid: bool, at: int) | TimedOut | Failed

  datatype Phase = AwaitHeaders | AwaitBody | Settled(outcome: Outcome)

  /** The variables that the callbacks and the awaiting body share. */
  datatype Locals = Locals(
    kind: Kind,
    deadlineAt: int,
    timer: Timer,
    timedOut: bool,
    seenResponse: bool,
    bodyDiscardAttempted: bool,
    aborted: bool,
    phase: Phase,
    cancels: nat)      // how often the body of the response was cancelled

  function Expired(l: Locals, now: int): bool { l.timedOut || now >= l.deadlineAt }

  function DiscardOnce(l: Locals, hasResponse: bool): Locals {
    if l.bodyDiscardAttempted then l
    else l.(bodyDiscardAttempted := true, cancels := if hasResponse then l.cancels + 1 else l.cancels)
  }

  function AbortAndDiscard(l: Locals, hasResponse: bool): Locals {
    DiscardOnce(l.(aborted := true), hasResponse)
  }

  /** Leaving the call clears the timer, unless it has fired. */
  function Settle(l: Locals, outcome: Outcome): Locals {
    l.(phase := Settled(outcome), timer := if l.timer == Armed then Cleared else l.timer)
  }

  function TimerFired(l: Locals): Locals {
    AbortAndDiscard(l.(timedOut := true, timer := Fired), l.seenResponse)
  }

  /** The late-headers handler: it cancels without looking at the discard flag. */
  function LateHeaders(l: Locals, now: int): Locals {
    var l' := l.(seenResponse := true);
    if Expired(l', now) then l'.(cancels := l'.cancels + 1, bodyDiscardAttempted := true) else l'
  }

  /** Resumption with the response; now2 is the second clock reading of a refused broker response. */
  function ResumeHeaders(l: Locals, ok: bool, now: int, now2: int): Locals {
    var l' := l.(seenResponse := true);
    if Expired(l', now) then Settle(AbortAndDiscard(l', true), TimedOut)
    else if l.kind == Broker && !ok then
      Settle(DiscardOnce(l', true), if Expired(l', now2) then TimedOut else Failed)
    else l'.(phase := AwaitBody)
  }

  /** Resumption when the race for the headers was lost to the deadline or to a transport failure. */
  function ResumeNoHeaders(l: Locals, timeoutError: bool, now: int): Locals {
    Settle(l, if l.kind == Relay then (if timeoutError then TimedOut else Failed)
              else if Expired(l, now) || timeoutError then TimedOut else Failed)
  }

  /** Resumption with a parsed body; the broker also validates what it parsed. */
  function ResumeBody(l: Locals, ok: bool, valid: bool, now: int): Locals {
    if Expired(l, now) then Settle(AbortAndDiscard(l, true), TimedOut)
    else Settle(l, if l.kind == Broker && !valid then Failed else Returned(ok, valid, now))
  }

  function ResumeNoBody(l: Locals, timeoutError: bool, now: int): Locals {
    Settle(DiscardOnce(l, true), if Expired(l, now) || timeoutError then TimedOut else Failed)
  }

  // ----- the callbacks as the code writes them

  class Leg {
    const kind: Kind
    const deadlineAt: int
    var timer: Timer
    var timedOut: bool
    var seenResponse: bool
    var bodyDiscardAttempted: bool
    var aborted: bool
    var phase: Phase
    var cancels: nat

    function View(): Locals
      reads this
    {
      Locals(kind, deadlineAt, timer, timedOut, seenResponse, bodyDiscardAttempted, aborted, phase, cancels)
    }

    constructor (kind: Kind, start: int, timeoutMs: int)
      ensures View() == Start(kind, start + timeoutMs)
    {
      this.kind := kind;
      deadlineAt := start + timeoutMs;
      timer := Armed;
      timedOut, seenResponse, bodyDiscardAttempted, aborted := false, false, false, false;
      phase := AwaitHeaders;
      cancels := 0;
    }

    method DiscardBodyOnce(hasResponse: bool)
      modifies this
      ensures View() == DiscardOnce(old(View()), hasResponse)
    {
      if bodyDiscardAttempted { return; }
      bodyDiscardAttempted := true;
      if hasResponse { cancels := cancels + 1; }
    }

    method AbortThenDiscard(hasResponse: bool)
      modifies this
      ensures View() == AbortAndDiscard(old(View()), hasResponse)
    {
      aborted := true;
      DiscardBodyOnce(hasResponse);
    }

    method Leave(outcome: Outcome)
      modifies this
      ensures View() == Settle(old(View()), outcome)
    {
      phase := Settled(outcome);
      if timer == Armed { timer := Cleared; }
    }

    method OnTimer()
      modifies this
      ensures View() == TimerFired(old(View()))
    {
      timedOut := true;
      timer := Fired;
      AbortThenDiscard(seenResponse);
    }

    method OnHeaders(now: int)
      modifies this
      ensures View() == LateHeaders(old(View()), now)
    {
      seenResponse := true;
      if timedOut || now >= deadlineAt {
        cancels := cancels + 1;
        bodyDiscardAttempted := true;
      }
    }

    method AfterHeaders(ok: bool, now: int, now2: int)
      modifies this
      ensures View() == ResumeHeaders(old(View()), ok, now, now2)
    {
      seenResponse := true;
      if timedOut || now >= deadlineAt {
        AbortThenDiscard(true);
        Leave(TimedOut);
        return;
      }
      if kind == Broker && !ok {
        DiscardBodyOnce(true);
        var late := timedOut || now2 >= deadlineAt;
        Leave(if late then TimedOut else Failed);
        return;
      }
      phase := AwaitBody;
    }

    method AfterNoHeaders(timeoutError: bool, now: int)
      modifies this
      ensures View() == ResumeNoHeaders(old(View()), timeoutError, now)
    {
      if kind == Relay {
        Leave(if timeoutError then TimedOut else Failed);
      } else if timedOut || now >= deadlineAt || timeoutError {
        Leave(TimedOut);
      } else {
        Leave(Failed);
      }
    }

    method AfterBody(ok: bool, valid: bool, now: int)
      modifies this
      ensures View() == ResumeBody(old(View()), ok, valid, now)
    {
      if timedOut || now >= deadlineAt {
        AbortThenDiscard(true);
        Leave(TimedOut);
      } else if kind == Broker && !valid {
        Leave(Failed);
      } else {
        Leave(Returned(ok, valid, now));
      }
    }

    method AfterNoBody(timeoutError: bool, now: int)
      modifies this
      ensures View() == ResumeNoBody(old(View()), timeoutError, now)
    {
      DiscardBodyOnce(true);
      if timedOut || now >= deadlineAt || timeoutError { Leave(TimedOut); } else { Leave(Failed); }
    }
  }

  // ----- all interleavings

  datatype Fetch = NoReply | Headers(ok: bool) | Broken(timeoutError: bool)

  datatype Body = Unread | Parsed(valid: bool) | Unreadable(timeoutError: bool)

  /** The relay reads a body that does not parse as an empty one. */
  function Received(kind: Kind, result: Body): Body {
    if kind == Relay && result.Unreadable? then Parsed(false) else result
  }

  datatype State = State(l: Locals, clock: int, fetch: Fetch, handlerRan: bool, body: Body)

  datatype Event =
    | Tick(ms: nat)
    | TimerFires
    | FetchSettles(reply: Fetch)
    | HandlerRuns
    | HeadersWin(delay: nat)    // delay: what the clock gains between two readings of one step
    | DeadlineWinsHeaders
    | FailureWinsHeaders
    | BodySettles(result: Body)
    | BodyWins
    | BodyFails
    | DeadlineWinsBody

  function Start(kind: Kind, deadlineAt: int): Locals {
    Locals(kind, deadlineAt, Armed, false, false, false, false, AwaitHeaders, 0)
  }

  function Init(kind: Kind, start: int, timeoutMs: int): State {
    State(Start(kind, start + timeoutMs), start, NoReply, false, Unread)
  }

  /** With ordered = false the code after the race may also resume before the handler has run. */
  function Apply(s: State, e: Event, ordered: bool): State {
    match e
    case Tick(ms) => s.(clock := s.clock + ms)
    case TimerFires => if s.l.timer == Armed then s.(l := TimerFired(s.l)) else s
    case FetchSettles(reply) => if s.fetch == NoReply then s.(fetch := reply) else s
    case HandlerRuns =>
      if s.fetch.Headers? && !s.handlerRan then s.(l := LateHeaders(s.l, s.clock), handlerRan := true) else s
    case HeadersWin(delay) =>
      if s.l.phase == AwaitHeaders && s.fetch.Headers? && (ordered ==> s.handlerRan)
      then s.(l := ResumeHeaders(s.l, s.fetch.ok, s.clock, s.clock + delay), clock := s.clock + delay) else s
    case DeadlineWinsHeaders =>
      if s.l.phase == AwaitHeaders && s.l.timer == Fired then s.(l := ResumeNoHeaders(s.l, true, s.clock)) else s
    case FailureWinsHeaders =>
      if s.l.phase == AwaitHeaders && s.fetch.Broken? then s.(l := ResumeNoHeaders(s.l, s.fetch.timeoutError, s.clock)) else s
    case BodySettles(result) => if s.l.phase == AwaitBody && s.body == Unread then s.(body := Received(s.l.kind, result)) else s
    case BodyWins =>
      if s.l.phase == AwaitBody && s.body.Parsed? && s.fetch.Headers?
      then s.(l := ResumeBody(s.l, s.fetch.ok, s.body.valid, s.clock)) else s
    case BodyFails =>
      if s.l.phase == AwaitBody && s.body.Unreadable? then s.(l := ResumeNoBody(s.l, s.body.timeoutError, s.clock)) else s
    case DeadlineWinsBody =>
      if s.l.phase == AwaitBody && s.l.timer == Fired then s.(l := ResumeNoBody(s.l, true, s.clock)) else s
  }

  function Run(s: State, es: seq<Event>, ordered: bool): State
    decreases |es|
  {
    if es == [] then s else Run(Apply(s, es[0], ordered), es[1..], ordered)
  }

  predicate Inv(s: State) {
    var l := s.l;
    && (l.timedOut <==> l.timer == Fired)
    && (l.timedOut ==> l.bodyDiscardAttempted && l.aborted)
    && (s.handlerRan ==> s.fetch.Headers? && l.seenResponse && l.cancels == (if l.bodyDiscardAttempted then 1 else 0))
    && (!s.handlerRan ==> l.cancels == 0 && !l.seenResponse && (l.bodyDiscardAttempted ==> l.timedOut))
    && (l.phase == AwaitBody ==> s.handlerRan && (l.kind == Broker ==> s.fetch.ok))
    && (l.kind == Relay ==> !s.body.Unreadable?)
    && (l.bodyDiscardAttempted && !l.phase.Settled? ==> Expired(l, s.clock))
    && (l.phase.Settled? ==> l.timer != Armed)
    && (l.phase == Settled(TimedOut) ==>
          if s.handlerRan then l.cancels == 1 else l.timedOut || s.fetch.Broken?)
    && (l.phase.Settled? && l.phase.outcome.Returned? ==>
          s.handlerRan && l.cancels == 0 && !l.timedOut && l.phase.outcome.at < l.deadlineAt && l.phase.outcome.at <= s.clock)
  }

  lemma StepKeepsInv(s: State, e: Event)
    requires Inv(s)
    ensures Inv(Apply(s, e, true))
    ensures s.l.phase.Settled? ==> Apply(s, e, true).l.phase == s.l.phase
  {}

  lemma {:induction false} RunKeepsInv(s: State, es: seq<Event>)
    requires Inv(s)
    ensures Inv(Run(s, es, true))
    ensures s.l.phase.Settled? ==> Run(s, es, true).l.phase == s.l.phase
    decreases |es|
  {
    if es != [] {
      StepKeepsInv(s, es[0]);
      RunKeepsInv(Apply(s, es[0], true), es[1..]);
    }
  }

  // In every interleaving the body is cancelled at most once. A result is returned
  // only off a clock reading before the deadline, and its body is never cancelled,
  // then or later. After a timeout, whatever response arrives, when its handler has
  // run it has been cancelled exactly once.
  lemma BodyDiscipline(kind: Kind, start: int, timeoutMs: int, before: seq<Event>, after: seq<Event>)
    ensures var s := Run(Init(kind, start, timeoutMs), before, true);
            var s' := Run(s, after, true);
            && s.l.cancels <= 1
            && (s.l.phase.Settled? ==> s'.l.phase == s.l.phase)
            && (s.l.phase.Settled? && s.l.phase.outcome.Returned? ==>
                  s'.l.cancels == 0 && s.l.phase.outcome.at < s.l.deadlineAt && !s'.l.timedOut)
            && (s.l.phase == Settled(TimedOut) && s'.handlerRan ==> s'.l.cancels == 1)
  {
    RunKeepsInv(Init(kind, start, timeoutMs), before);
    RunKeepsInv(Run(Init(kind, start, timeoutMs), before, true), after);
  }

  lemma StepIsOf(s: State, e: Event)
    ensures Apply(s, e, true).l.kind == s.l.kind && Apply(s, e, true).l.deadlineAt == s.l.deadlineAt
  {}

  lemma {:induction false} RunIsOf(kind: Kind, deadlineAt: int, s: State, es: seq<Event>)
    requires s.l.kind == kind && s.l.deadlineAt == deadlineAt
    ensures Run(s, es, true).l.kind == kind && Run(s, es, true).l.deadlineAt == deadlineAt
    decreases |es|
  {
    if es != [] {
      StepIsOf(s, es[0]);
      RunIsOf(kind, deadlineAt, Apply(s, es[0], true), es[1..]);
    }
  }

  // ----- how a call ends

  /** The timer has fired, or the clock reads the deadline or later. */
  predicate Late(s: State, deadlineAt: int) { s.l.timer == Fired || s.clock >= deadlineAt }

  /** The deadline won, or a clock reading of this step was late, or the network itself reported a timeout. */
  predicate EndsLate(kind: Kind, s: State, e: Event, deadlineAt: int) {
    match e
    case DeadlineWinsHeaders | DeadlineWinsBody => true
    case HeadersWin(delay) => Late(s, deadlineAt) || (kind == Broker && s.fetch == Headers(false) && s.clock + delay >= deadlineAt)
    case FailureWinsHeaders => s.fetch == Broken(true) || (kind == Broker && Late(s, deadlineAt))
    case BodyFails => s.body == Unreadable(true) || Late(s, deadlineAt)
    case BodyWins => Late(s, deadlineAt)
    case _ => false
  }

  /** The body is there, of the form that this kind of call asks for. */
  predicate EndsWell(kind: Kind, s: State, e: Event) {
    e == BodyWins && s.body.Parsed? && (kind == Broker ==> s.body.valid)
  }

  // The step that settles a call, in every interleaving, settles it so: as a timeout
  // exactly if it ends late, else with the body exactly if that is there in the form asked
  // for, else as a failure. A response that is not returned has been cancelled, unless its
  // body was read through; what ends late with a response at hand is aborted as well.
  lemma SettlesExactly(kind: Kind, start: int, timeoutMs: int, before: seq<Event>, e: Event)
    requires var s := Run(Init(kind, start, timeoutMs), before, true); !s.l.phase.Settled? && Apply(s, e, true).l.phase.Settled?
    ensures var s := Run(Init(kind, start, timeoutMs), before, true);
            var l := Apply(s, e, true).l;
            var late := EndsLate(kind, s, e, start + timeoutMs);
            && (l.phase == Settled(TimedOut) <==> late)
            && (l.phase.outcome.Returned? <==> !late && EndsWell(kind, s, e))
            && (l.phase == Settled(Failed) <==> !late && !EndsWell(kind, s, e))
            && (l.phase.outcome.Returned? ==>
                  s.fetch.Headers? && l.phase.outcome == Returned(s.fetch.ok, s.body.valid, s.clock) && (kind == Broker ==> s.fetch.ok))
            && (s.handlerRan ==> l.cancels == if late || !e.BodyWins? then 1 else 0)
            && (late && (e.HeadersWin? || e.BodyWins?) && Late(s, start + timeoutMs) ==> l.aborted)
            && l.timer != Armed
  {
    var s := Run(Init(kind, start, timeoutMs), before, true);
    RunKeepsInv(Init(kind, start, timeoutMs), before);
    RunIsOf(kind, start + timeoutMs, Init(kind, start, timeoutMs), before);
  }

  // A response in time is returned: whatever the delays between headers, handler,
  // resumption and body, a call ends with what it received exactly if all of them together
  // stay below the timeout, and as a timeout otherwise.
  lemma InTimeExactly(kind: Kind, start: int, timeoutMs: int, ok: bool, valid: bool, a: nat, b: nat, c: nat, d: nat, e: nat)
    requires kind == Broker ==> ok && valid
    ensures var es := [Tick(a), FetchSettles(Headers(ok)), Tick(b), HandlerRuns, HeadersWin(c), Tick(d), BodySettles(Parsed(valid)), Tick(e), BodyWins];
            var l := Run(Init(kind, start, timeoutMs), es, true).l;
            if a + b + c + d + e < timeoutMs then
              l.phase == Settled(Returned(ok, valid, start + a + b + c + d + e)) && l.cancels == 0 && !l.aborted && l.timer == Cleared
            else l.phase == Settled(TimedOut) && l.cancels == 1
  {
    var es := [Tick(a), FetchSettles(Headers(ok)), Tick(b), HandlerRuns, HeadersWin(c), Tick(d), BodySettles(Parsed(valid)), Tick(e), BodyWins];
    var s := Init(kind, start, timeoutMs);
    var s4 := AfterHandler(s, a, b, ok);
    RunSplit(s, es, 4);
    assert es[..4] == [Tick(a), FetchSettles(Headers(ok)), Tick(b), HandlerRuns];
    assert es[4..] == [HeadersWin(c), Tick(d), BodySettles(Parsed(valid)), Tick(e), BodyWins];
    UntilBody(s4, c, d, valid, e);
  }

  lemma {:induction false} RunSplit(s: State, es: seq<Event>, n: nat)
    requires n <= |es|
    ensures Run(s, es, true) == Run(Run(s, es[..n], true), es[n..], true)
    decreases n
  {
    if n == 0 {
      assert es[0..] == es;
    } else {
      assert es[..n][0] == es[0] && es[..n][1..] == es[1..][..n - 1] && es[1..][n - 1..] == es[n..];
      RunSplit(Apply(s, es[0], true), es[1..], n - 1);
    }
  }

  lemma OneStep(s: State, e: Event, rest: seq<Event>)
    ensures Run(s, [e] + rest, true) == Run(Apply(s, e, true), rest, true)
  {
    assert ([e] + rest)[1..] == rest;
  }

  lemma AfterHandler(s: State, a: nat, b: nat, ok: bool) returns (s': State)
    requires s.fetch == NoReply && !s.handlerRan && s.l.phase == AwaitHeaders
    ensures s' == Run(s, [Tick(a), FetchSettles(Headers(ok)), Tick(b), HandlerRuns], true)
    ensures s' == s.(clock := s.clock + a + b, fetch := Headers(ok), handlerRan := true, l := LateHeaders(s.l, s.clock + a + b))
  {
    var s1 := Apply(s, Tick(a), true);
    var s2 := Apply(s1, FetchSettles(Headers(ok)), true);
    var s3 := Apply(s2, Tick(b), true);
    s' := Apply(s3, HandlerRuns, true);
    OneStep(s, Tick(a), [FetchSettles(Headers(ok)), Tick(b), HandlerRuns]);
    OneStep(s1, FetchSettles(Headers(ok)), [Tick(b), HandlerRuns]);
    OneStep(s2, Tick(b), [HandlerRuns]);
    OneStep(s3, HandlerRuns, []);
    assert [Tick(a)] + [FetchSettles(Headers(ok)), Tick(b), HandlerRuns] == [Tick(a), FetchSettles(Headers(ok)), Tick(b), HandlerRuns];
    assert [FetchSettles(Headers(ok))] + [Tick(b), HandlerRuns] == [FetchSettles(Headers(ok)), Tick(b), HandlerRuns];
    assert [Tick(b)] + [HandlerRuns] == [Tick(b), HandlerRuns];
  }

  lemma UntilBody(s: State, c: nat, d: nat, valid: bool, e: nat)
    requires s.l.phase == AwaitHeaders && s.fetch.Headers? && s.handlerRan && s.body == Unread
    requires s.l.timer == Armed && !s.l.timedOut && !s.l.aborted
    requires s.l.bodyDiscardAttempted == (s.clock >= s.l.deadlineAt) && s.l.cancels == if s.clock >= s.l.deadlineAt then 1 else 0
    requires s.l.kind == Broker ==> s.fetch.ok && valid
    ensures var l := Run(s, [HeadersWin(c), Tick(d), BodySettles(Parsed(valid)), Tick(e), BodyWins], true).l;
            if s.clock + c + d + e < s.l.deadlineAt then
              l.phase == Settled(Returned(s.fetch.ok, valid, s.clock + c + d + e)) && l.cancels == 0 && !l.aborted && l.timer == Cleared
            else l.phase == Settled(TimedOut) && l.cancels == 1
  {
    var s1 := Apply(s, HeadersWin(c), true);
    var s2 := Apply(s1, Tick(d), true);
    var s3 := Apply(s2, BodySettles(Parsed(valid)), true);
    var s4 := Apply(s3, Tick(e), true);
    var s5 := Apply(s4, BodyWins, true);
    var rest1, rest2, rest3 := [Tick(d), BodySettles(Parsed(valid)), Tick(e), BodyWins], [BodySettles(Parsed(valid)), Tick(e), BodyWins], [Tick(e), BodyWins];
    OneStep(s, HeadersWin(c), rest1);
    OneStep(s1, Tick(d), rest2);
    OneStep(s2, BodySettles(Parsed(valid)), rest3);
    OneStep(s3, Tick(e), [BodyWins]);
    OneStep(s4, BodyWins, []);
    assert [HeadersWin(c)] + rest1 == [HeadersWin(c), Tick(d), BodySettles(Parsed(valid)), Tick(e), BodyWins];
    assert [Tick(d)] + rest2 == rest1 && [BodySettles(Parsed(valid))] + rest3 == rest2 && [Tick(e)] + [BodyWins] == rest3;
  }

  // Late data never becomes a success: once the timer has fired or the clock has
  // passed the deadline, an unsettled call can no longer settle with a result.
  lemma {:induction false} LateNeverReturns(s: State, es: seq<Event>)
    requires Inv(s) && !s.l.phase.Settled? && Expired(s.l, s.clock)
    ensures var s' := Run(s, es, true); !(s'.l.phase.Settled? && s'.l.phase.outcome.Returned?)
    decreases |es|
  {
    if es != [] {
      var s' := Apply(s, es[0], true);
      StepKeepsInv(s, es[0]);
      if s'.l.phase.Settled? { RunKeepsInv(s', es[1..]); } else { LateNeverReturns(s', es[1..]); }
    }
  }

  // The deadline ends the call whatever the network does: after the timer has fired,
  // resuming with the lost race settles it as a timeout, with no reply needed.
  lemma DeadlineEndsTheCall(kind: Kind, start: int, timeoutMs: int, es: seq<Event>)
    ensures var s := Run(Init(kind, start, timeoutMs), es, true);
            s.l.timedOut && !s.l.phase.Settled? ==>
              Apply(Apply(s, DeadlineWinsHeaders, true), DeadlineWinsBody, true).l.phase == Settled(TimedOut)
  {
    RunKeepsInv(Init(kind, start, timeoutMs), es);
  }

  // The single cancel depends on the microtask order: were the code after the race to
  // resume before the late-headers handler, one expired response would be cancelled twice.
  lemma OrderIsNeeded(kind: Kind, start: int, timeoutMs: int)
    requires timeoutMs > 0
    ensures var es := [FetchSettles(Headers(true)), Tick(timeoutMs), HeadersWin(0), HandlerRuns];
            Run(Init(kind, start, timeoutMs), es, false).l.cancels == 2
  {
    var es := [FetchSettles(Headers(true)), Tick(timeoutMs), HeadersWin(0), HandlerRuns];
    var s0 := Init(kind, start, timeoutMs);
    var s1 := Apply(s0, es[0], false);
    var s2 := Apply(s1, es[1], false);
    var s3 := Apply(s2, es[2], false);
    assert s3.l.cancels == 1;
    var s4 := Apply(s3, es[3], false);
    assert Run(s3, es[3..], false) == Run(s4, es[4..], false) == s4;
    assert es[2..][1..] == es[3..] && es[1..][1..] == es[2..];
    assert Run(s2, es[2..], false) == Run(s3, es[3..], false);
    assert Run(s1, es[1..], false) == Run(s2, es[2..], false);
  }

  // ----- the budget that is armed

  const BROKER_REQUEST_TIMEOUT_MS := 60000

  /** A configured number: absent or not finite, or a finite value in milliseconds. */
  datatype Budget = Unusable | Finite(ms: real)

  predicate Usable(b: Budget) { b.Finite? && b.ms > 0.0 && b.ms.Floor >= 1 }

  function Capped(ms: int): int { if ms < BROKER_REQUEST_TIMEOUT_MS then ms else BROKER_REQUEST_TIMEOUT_MS }

  // First usable of the call and the constructor budgets, floored and capped at 60 s.
  method ResolveBrokerTimeoutMs(call: Budget, options: Budget) returns (ms: int)
    ensures 1 <= ms <= 60000
    ensures Usable(call) ==> ms == if call.ms.Floor < 60000 then call.ms.Floor else 60000
    ensures !Usable(call) && Usable(options) ==> ms == if options.ms.Floor < 60000 then options.ms.Floor else 60000
    ensures !Usable(call) && !Usable(options) ==> ms == 60000
  {
    var candidates := [call, options];
    for i := 0 to 2
      invariant i > 0 ==> !Usable(call)
      invariant i > 1 ==> !Usable(options)
    {
      var candidate := candidates[i];
      if candidate.Unusable? || candidate.ms <= 0.0 { continue; }
      var floored := candidate.ms.Floor;
      if floored < 1 { continue; }
      return Capped(floored);
    }
    return BROKER_REQUEST_TIMEOUT_MS;
  }
}
