/**
 * The nonce replay window of the broker: an envelope is accepted within 30 s of its
 * timestamp, and its nonce is remembered until 60 s after it. Verification reads the
 * clock twice: once for the window, and once more when it consumes the nonce.
 */
module Replay {
  import opened Common

  const MAX_SKEW_MS := 30000
  const RETENTION_MS := 60000
  const AUDIENCE := "pi-codex-broker"

  /** The nonces seen, each with the time it may be forgotten after. */
  type Seen = map<string, int>

  function Purged(seen: Seen, now: int): Seen {
    map k <- seen | seen[k] >= now :: seen[k]
  }

  function Consumed(seen: Seen, nonce: string, timestamp: int, now: int): (Seen, bool) {
    var kept := Purged(seen, now);
    if nonce in kept then (kept, false) else (kept[nonce := timestamp + RETENTION_MS], true)
  }

  class NonceReplayStore {
    var seen: Seen

    constructor ()
      ensures seen == map[]
    {
      seen := map[];
    }

    method Consume(nonce: string, timestamp: int, now: int) returns (unseen: bool)
      modifies this
      ensures (seen, unseen) == Consumed(old(seen), nonce, timestamp, now)
    {
      ghost var before := seen;
      var todo := seen.Keys;
      while todo != {}
        invariant todo <= before.Keys
        invariant seen == map k <- before | k in todo || before[k] >= now :: before[k]
        decreases todo
      {
        var k :| k in todo;
        if seen[k] < now { seen := seen - {k}; }
        todo := todo - {k};
      }
      assert seen == Purged(before, now);
      if nonce in seen { return false; }
      seen := seen[nonce := timestamp + RETENTION_MS];
      return true;
    }

    method Clear()
      modifies this
      ensures seen == map[]
    {
      seen := map[];
    }
  }

  // ----- verification of one envelope

  datatype Envelope = Envelope(kid: string, aud: string, timestamp: int, nonce: string, requestId: string, bodySha256: string)

  datatype Verdict = Valid | Invalid(reason: string)

  /** Everything that is checked before the nonce is consumed; the hash and the signature are checked elsewhere. */
  function Precheck(provided: bool, e: Envelope, now: int, bodyMatches: bool, signatureMatches: bool): Option<string> {
    if !provided then Some("missing_parameters")
    else if e.aud != AUDIENCE then Some("invalid_audience")
    else if now - e.timestamp > MAX_SKEW_MS || e.timestamp - now > MAX_SKEW_MS then Some("timestamp_out_of_bounds")
    else if !bodyMatches then Some("body_hash_mismatch")
    else if !signatureMatches then Some("invalid_signature")
    else None
  }

  method VerifyEnvelope(store: NonceReplayStore, provided: bool, e: Envelope, bodyMatches: bool, signatureMatches: bool, now: int, consumedAt: int)
    returns (verdict: Verdict)
    modifies store
    ensures (store.seen, verdict == Valid) == Verified(old(store.seen), Attempt(provided, e, bodyMatches, signatureMatches, now, consumedAt))
    // Valid exactly if everything is given, addressed to this broker, at most 30 s off, over
    // the very body and signed, with a nonce that is not held any more.
    ensures verdict == Valid <==>
              && provided && e.aud == "pi-codex-broker" && -30000 <= now - e.timestamp <= 30000 && bodyMatches && signatureMatches
              && (e.nonce in old(store.seen) ==> old(store.seen)[e.nonce] < consumedAt)
    ensures verdict == Valid ==> e.nonce in store.seen && store.seen[e.nonce] == e.timestamp + 60000
    ensures verdict == Invalid("nonce_replayed") <==>
              && provided && e.aud == "pi-codex-broker" && -30000 <= now - e.timestamp <= 30000 && bodyMatches && signatureMatches
              && e.nonce in old(store.seen) && old(store.seen)[e.nonce] >= consumedAt
    ensures verdict.Invalid? && verdict.reason != "nonce_replayed" ==> store.seen == old(store.seen)
    // The reason is that of the first thing that is wrong.
    ensures !provided ==> verdict == Invalid("missing_parameters")
    ensures provided && e.aud != "pi-codex-broker" ==> verdict == Invalid("invalid_audience")
    ensures provided && e.aud == "pi-codex-broker" ==>
              && (!(-30000 <= now - e.timestamp <= 30000) ==> verdict == Invalid("timestamp_out_of_bounds"))
              && (-30000 <= now - e.timestamp <= 30000 && !bodyMatches ==> verdict == Invalid("body_hash_mismatch"))
              && (-30000 <= now - e.timestamp <= 30000 && bodyMatches && !signatureMatches ==> verdict == Invalid("invalid_signature"))
  {
    var refused := Precheck(provided, e, now, bodyMatches, signatureMatches);
    if refused.Some? { return Invalid(refused.value); }
    var consumed := store.Consume(e.nonce, e.timestamp, consumedAt);
    return if consumed then Valid else Invalid("nonce_replayed");
  }

  // ----- runs of verifications

  /** One verification: what it was given, and what its two clock readings were. */
  datatype Attempt = Attempt(provided: bool, e: Envelope, bodyMatches: bool, signatureMatches: bool, now: int, consumedAt: int)

  function Verified(seen: Seen, a: Attempt): (Seen, bool) {
    if Precheck(a.provided, a.e, a.now, a.bodyMatches, a.signatureMatches).Some? then (seen, false)
    else Consumed(seen, a.e.nonce, a.e.timestamp, a.consumedAt)
  }

  /** The nonces that are remembered after a run that started from an empty store. */
  function SeenAfter(run: seq<Attempt>): Seen {
    if run == [] then map[] else Verified(SeenAfter(run[..|run| - 1]), run[|run| - 1]).0
  }

  predicate Accepted(run: seq<Attempt>, i: nat)
    requires i < |run|
  {
    Verified(SeenAfter(run[..i]), run[i]).1
  }

  /** The clock never runs backwards, and no verification takes longer than gap between its readings. */
  predicate Clocked(run: seq<Attempt>, gap: nat) {
    && (forall i :: 0 <= i < |run| ==> run[i].now <= run[i].consumedAt <= run[i].now + gap)
    && (forall i, j :: 0 <= i < j < |run| ==> run[i].consumedAt <= run[j].now)
  }

  // An accepted nonce is still remembered, with its own retention, until a later
  // reading of the clock has passed that retention.
  lemma {:induction false} AcceptedIsRemembered(run: seq<Attempt>, gap: nat, i: nat)
    requires Clocked(run, gap) && i < |run| && Accepted(run, i)
    ensures var seen := SeenAfter(run);
            var e := run[i].e;
            || (e.nonce in seen && seen[e.nonce] == e.timestamp + RETENTION_MS)
            || e.timestamp + RETENTION_MS < run[|run| - 1].consumedAt
  {
    var n := |run| - 1;
    if i < n {
      assert Accepted(run[..n], i) by { assert run[..n][..i] == run[..i]; }
      assert Clocked(run[..n], gap);
      AcceptedIsRemembered(run[..n], gap, i);
      assert run[n - 1].consumedAt <= run[n].now;
    }
  }

  /** Given, addressed to this broker, at most 30 s off, over the very body, and signed. */
  predicate Genuine(a: Attempt) {
    && a.provided && a.e.aud == "pi-codex-broker" && -30000 <= a.now - a.e.timestamp <= 30000 && a.bodyMatches && a.signatureMatches
  }

  lemma VerifiedExactly(seen: Seen, a: Attempt)
    ensures var (seen', accepted) := Verified(seen, a);
            && (accepted <==> Genuine(a) && (a.e.nonce in seen ==> seen[a.e.nonce] < a.consumedAt))
            && (!Genuine(a) ==> seen' == seen)
            && (Genuine(a) ==> forall n :: n in seen' <==> n == a.e.nonce || (n in seen && seen[n] >= a.consumedAt))
            && (forall n <- seen' :: seen'[n] == if accepted && n == a.e.nonce then a.e.timestamp + 60000 else seen[n])
  {}

  /** What is held for a nonce was put there by an accepted attempt. */
  lemma {:induction false} HeldByAccepted(run: seq<Attempt>, nonce: string) returns (i: nat)
    requires nonce in SeenAfter(run)
    ensures i < |run| && Accepted(run, i) && run[i].e.nonce == nonce && SeenAfter(run)[nonce] == run[i].e.timestamp + 60000
  {
    var n := |run| - 1;
    VerifiedExactly(SeenAfter(run[..n]), run[n]);
    if Accepted(run, n) && run[n].e.nonce == nonce {
      i := n;
    } else {
      i := HeldByAccepted(run[..n], nonce);
      assert run[..n][..i] == run[..i];
    }
  }

  // Which attempts of a run are accepted, exactly: the genuine ones, none unsigned among
  // them, whose nonce no earlier accepted attempt still holds for 60 000 ms from its
  // timestamp. So a first use of a genuine envelope is always accepted.
  lemma AcceptedExactly(run: seq<Attempt>, gap: nat, i: nat)
    requires Clocked(run, gap) && i < |run|
    ensures Accepted(run, i) <==>
              && Genuine(run[i])
              && forall j: nat :: j < i && Accepted(run, j) && run[j].e.nonce == run[i].e.nonce ==> run[j].e.timestamp + 60000 < run[i].consumedAt
  {
    var before := run[..i];
    VerifiedExactly(SeenAfter(before), run[i]);
    assert Clocked(before, gap);
    if run[i].e.nonce in SeenAfter(before) {
      var k := HeldByAccepted(before, run[i].e.nonce);
      assert before[..k] == run[..k] && before[k] == run[k];
      assert Accepted(run, k);
    }
    forall j: nat | j < i && Accepted(run, j) && run[j].e.nonce == run[i].e.nonce
      ensures (run[i].e.nonce in SeenAfter(before) && SeenAfter(before)[run[i].e.nonce] == run[j].e.timestamp + 60000)
              || run[j].e.timestamp + 60000 < run[i].consumedAt
    {
      assert Accepted(before, j) by { assert before[..j] == run[..j]; }
      AcceptedIsRemembered(before, gap, j);
      assert run[i - 1].consumedAt <= run[i].now <= run[i].consumedAt;
    }
  }

  // Two accepted envelopes with one nonce have timestamps more than 30 000 ms apart,
  // less the time that the later verification took between its two readings: the
  // window sits inside the retention although nonces are purged.
  lemma AcceptedNoncesFarApart(run: seq<Attempt>, gap: nat, i: nat, j: nat)
    requires Clocked(run, gap) && i < j < |run| && Accepted(run, i) && Accepted(run, j)
    requires run[i].e.nonce == run[j].e.nonce
    ensures run[j].e.timestamp > run[i].e.timestamp + MAX_SKEW_MS - gap
  {
    var before := run[..j];
    assert Accepted(before, i) by { assert before[..i] == run[..i]; }
    assert Clocked(before, gap);
    AcceptedIsRemembered(before, gap, i);
  }

  // So no envelope is accepted twice while verifications take at most 30 000 ms.
  lemma NoEnvelopeTwice(run: seq<Attempt>, i: nat, j: nat)
    requires Clocked(run, MAX_SKEW_MS) && i < j < |run| && Accepted(run, i) && Accepted(run, j)
    ensures run[i].e != run[j].e
  {
    if run[i].e.nonce == run[j].e.nonce { AcceptedNoncesFarApart(run, MAX_SKEW_MS, i, j); }
  }

  ghost predicate AcceptsTwice(run: seq<Attempt>) {
    exists i: nat, j: nat :: i < j < |run| && Accepted(run, i) && Accepted(run, j) && run[i].e == run[j].e
  }

  ghost predicate SomeRunAcceptsTwice(gap: nat) {
    exists run: seq<Attempt> :: Clocked(run, gap) && AcceptsTwice(run)
  }

  // The bound is exact: a replay gets through if and only if a verification may take
  // more than 30 000 ms between its readings.
  lemma ReplayExactlyBeyondTheGap(gap: nat)
    ensures SomeRunAcceptsTwice(gap) <==> gap > MAX_SKEW_MS
  {
    if gap > MAX_SKEW_MS {
      var e := Envelope("k", AUDIENCE, 0, "n", "r", "h");
      var first := Attempt(true, e, true, true, 0, 0);
      var second := Attempt(true, e, true, true, MAX_SKEW_MS, MAX_SKEW_MS + gap);
      var run := [first, second];
      assert SeenAfter([]) == map[];
      assert run[..0] == [] && run[..1] == [first] && [first][..0] == [];
      assert Accepted(run, 0);
      assert SeenAfter([first]) == map["n" := RETENTION_MS];
      assert Purged(SeenAfter([first]), MAX_SKEW_MS + gap) == map[];
      assert Accepted(run, 1);
      assert Clocked(run, gap) && AcceptsTwice(run);
    } else if SomeRunAcceptsTwice(gap) {
      var run: seq<Attempt> :| Clocked(run, gap) && AcceptsTwice(run);
      var i: nat, j: nat :| i < j < |run| && Accepted(run, i) && Accepted(run, j) && run[i].e == run[j].e;
      NoEnvelopeTwice(run, i, j);
    }
  }
}
