/** What decides a proposal: its expiry, its status and its owner, in rows and replies. */
module UndoExpiry {
  import opened Common
  import opened UndoStore
  import opened UndoProtocol
  import opened UndoSafety

  // ----- every claim was in time

  /** The owner's confirm read the row as proposed, on a clock before its expiry, at some step of the run. */
  ghost predicate ReadInTime(ttl: int, es: seq<Event>, id: string, owner: Identity, expiresAt: int) {
    exists k: nat, t: nat, now: int :: k < |es| && InTimeAt(ttl, es, k, t, now, id, owner) && now < expiresAt
  }

  ghost predicate InTimeAt(ttl: int, es: seq<Event>, k: nat, t: nat, now: int, id: string, owner: Identity)
    requires k < |es|
  {
    var w := Run(Init(ttl), es[..k]);
    && es[k] == Sql(t, now)
    && t in w.threads && w.threads[t] == DecideRead(id, Confirm, owner)
    && id in w.table && w.table[id].status == Proposed && w.table[id].owner == owner
  }

  /** What a claim stands on, and what every claimed row once stood on. */
  ghost predicate ClaimsInTime(ttl: int, es: seq<Event>) {
    var w := Run(Init(ttl), es);
    && (forall t <- w.threads | w.threads[t].ClaimUpdate? ::
          w.threads[t].id in w.table && w.table[w.threads[t].id].owner == w.threads[t].who
          && ReadInTime(ttl, es, w.threads[t].id, w.threads[t].who, w.table[w.threads[t].id].expiresAt))
    && (forall id <- w.table | Claimed(w.table[id].status) :: ReadInTime(ttl, es, id, w.table[id].owner, w.table[id].expiresAt))
  }

  lemma ReadStaysInTime(ttl: int, es: seq<Event>, e: Event, id: string, owner: Identity, expiresAt: int)
    requires ReadInTime(ttl, es, id, owner, expiresAt)
    ensures ReadInTime(ttl, es + [e], id, owner, expiresAt)
  {
    var k: nat, t: nat, now: int :| k < |es| && InTimeAt(ttl, es, k, t, now, id, owner) && now < expiresAt;
    assert (es + [e])[..k] == es[..k] && (es + [e])[k] == es[k];
    assert InTimeAt(ttl, es + [e], k, t, now, id, owner);
  }

  lemma ReadClaims(table: Table, pc: Pc, now: int)
    requires AtSql(pc) && SqlStep(table, pc, now).1.ClaimUpdate?
    requires forall id <- table :: table[id].requestId == id
    ensures var c := SqlStep(table, pc, now).1;
            && pc == DecideRead(c.id, Confirm, c.who) && c.id in table && table[c.id].status == Proposed
            && table[c.id].owner == c.who && now < table[c.id].expiresAt && SqlStep(table, pc, now).0 == table
  {}

  /** A thread newly at its claim has just read the row, in time. */
  lemma NewClaim(w: World, e: Event, t: nat)
    requires Inv(w)
    requires var w' := Apply(w, e); t in w'.threads && w'.threads[t].ClaimUpdate? && !(t in w.threads && w.threads[t] == w'.threads[t])
    ensures var c := Apply(w, e).threads[t];
            && e.Sql? && e.t == t && t in w.threads && w.threads[t] == DecideRead(c.id, Confirm, c.who)
            && c.id in w.table && w.table[c.id].status == Proposed && w.table[c.id].owner == c.who && e.now < w.table[c.id].expiresAt
            && Apply(w, e).table == w.table
  {
    assert e.Sql? && e.t == t;
    forall id <- w.table ensures w.table[id].requestId == id { assert RowOk(w, id); }
    ReadClaims(w.table, w.threads[t], e.now);
  }

  lemma ClaimsRow(table: Table, pc: Pc, now: int, id: string)
    requires AtSql(pc) && (pc.InsertRow? ==> pc.row.status == Proposed)
    requires id in SqlStep(table, pc, now).0 && Claimed(SqlStep(table, pc, now).0[id].status) && !(id in table && Claimed(table[id].status))
    ensures pc.ClaimUpdate? && pc.id == id && id in table && SqlStep(table, pc, now).0[id] == table[id].(status := Executing)
  {}

  /** A row newly claimed was proposed, and the thread that claims it stands at that claim. */
  lemma NewlyClaimed(w: World, e: Event, id: string)
    requires id in Apply(w, e).table && Claimed(Apply(w, e).table[id].status)
    requires Inv(w) && !(id in w.table && Claimed(w.table[id].status))
    ensures e.Sql? && e.t in w.threads && w.threads[e.t].ClaimUpdate? && w.threads[e.t].id == id && id in w.table
    ensures Apply(w, e).table[id] == w.table[id].(status := Executing)
  {
    assert e.Sql? && e.t in w.threads && AtSql(w.threads[e.t]);
    assert ThreadOk(w, w.threads[e.t]);
    ClaimsRow(w.table, w.threads[e.t], e.now, id);
  }

  lemma StepKeepsClaimsInTime(ttl: int, es: seq<Event>, e: Event)
    requires ClaimsInTime(ttl, es)
    ensures ClaimsInTime(ttl, es + [e])
  {
    var w := Run(Init(ttl), es);
    var w' := Apply(w, e);
    ReachableInv(ttl, es);
    RunSnoc(Init(ttl), es, e);
    StepEvolves(w, e);
    forall t <- w'.threads | w'.threads[t].ClaimUpdate?
      ensures w'.threads[t].id in w'.table && w'.table[w'.threads[t].id].owner == w'.threads[t].who
      ensures ReadInTime(ttl, es + [e], w'.threads[t].id, w'.threads[t].who, w'.table[w'.threads[t].id].expiresAt)
    {
      var c := w'.threads[t];
      if t in w.threads && w.threads[t] == c {
        ReadStaysInTime(ttl, es, e, c.id, c.who, w.table[c.id].expiresAt);
      } else {
        NewClaim(w, e, t);
        assert (es + [e])[..|es|] == es && (es + [e])[|es|] == e;
        assert InTimeAt(ttl, es + [e], |es|, t, e.now, c.id, c.who);
      }
    }
    forall id <- w'.table | Claimed(w'.table[id].status)
      ensures ReadInTime(ttl, es + [e], id, w'.table[id].owner, w'.table[id].expiresAt)
    {
      if !(id in w.table && Claimed(w.table[id].status)) {
        NewlyClaimed(w, e, id);
        assert w.threads[e.t].id == id;
      }
      ReadStaysInTime(ttl, es, e, id, w.table[id].owner, w.table[id].expiresAt);
    }
  }

  lemma {:induction false} RunsClaimInTime(ttl: int, es: seq<Event>)
    ensures ClaimsInTime(ttl, es)
    decreases |es|
  {
    if es != [] {
      var n := |es| - 1;
      RunsClaimInTime(ttl, es[..n]);
      StepKeepsClaimsInTime(ttl, es[..n], es[n]);
      assert es[..n] + [es[n]] == es;
    }
  }

  // Along every run a row is executing or confirmed only because its owner's confirm read
  // it as proposed on a clock before its expiry; so no undo is ever called for a proposal
  // that was past its expiry at every confirm that read it.
  lemma ClaimedInTime(ttl: int, es: seq<Event>, id: string)
    requires var w := Run(Init(ttl), es); id in w.table && (Claimed(w.table[id].status) || Touched(w, id))
    ensures var row := Run(Init(ttl), es).table[id]; ReadInTime(ttl, es, id, row.owner, row.expiresAt)
  {
    var w := Run(Init(ttl), es);
    RunsClaimInTime(ttl, es);
    ReachableInv(ttl, es);
    if Touched(w, id) {
      var c :| c in w.calls && c.proposal == id;
      assert CallOk(w, c);
    }
  }

  // ----- every row was closed in time

  /** Cancelled before its expiry, expired from its expiry on, and undecided until then. */
  predicate RowOnTime(row: Proposal) {
    match row.status
    case Cancelled => row.decidedAt.Some? && row.decidedAt.value < row.expiresAt
    case Expired => row.decidedAt.Some? && row.decidedAt.value >= row.expiresAt
    case Confirmed => row.decidedAt.Some?
    case _ => row.decidedAt == None
  }

  /** A thread about to close a row read a clock that allows it. */
  predicate ThreadOnTime(table: Table, pc: Pc) {
    match pc
    case ExpireThenFail(id, at) => id in table && at >= table[id].expiresAt
    case CancelUpdate(id, at) => id in table && at < table[id].expiresAt
    case Marking(pending, at, _) => forall id <- pending :: id in table && at >= table[id].expiresAt
    case InsertRow(row, _) => row.status == Proposed && row.decidedAt == None
    case _ => true
  }

  ghost predicate RowsOnTime(table: Table) { forall id <- table :: RowOnTime(table[id]) }

  ghost predicate OnTime(w: World) { RowsOnTime(w.table) && forall t <- w.threads :: ThreadOnTime(w.table, w.threads[t]) }

  lemma MovedOnTime(table: Table, id: string, from: Status, to: Status, at: Option<int>, result: Option<Json>)
    requires RowsOnTime(table) && (from == Proposed || from == Executing)
    requires id in table ==> RowOnTime(table[id].(status := to, decidedAt := if at.Some? then at else None))
    ensures RowsOnTime(Moved(table, id, from, to, at, result))
  {
    if id in table { assert RowOnTime(table[id]); }
  }

  lemma SqlKeepsRowsOnTime(table: Table, pc: Pc, now: int)
    requires RowsOnTime(table) && ThreadOnTime(table, pc)
    ensures RowsOnTime(SqlStep(table, pc, now).0)
  {
    match pc
    case ExpireThenFail(id, at) => MovedOnTime(table, id, Proposed, Expired, Some(at), None);
    case CancelUpdate(id, at) => MovedOnTime(table, id, Proposed, Cancelled, Some(at), None);
    case ClaimUpdate(id, who, at) => MovedOnTime(table, id, Proposed, Executing, None, None);
    case ConfirmUpdate(id, at, answer) => MovedOnTime(table, id, Executing, Confirmed, Some(at), Some(Stringify(answer)));
    case InsertRow(row, who) => assert forall id <- table :: RowOnTime(table[id]);
    case _ =>
  }

  lemma SqlLandsOnTime(table: Table, pc: Pc, now: int)
    requires forall id <- table :: table[id].requestId == id
    requires AtSql(pc) && (pc.ClaimReread? ==> pc.id in table && Final(table[pc.id].status))
    ensures ThreadOnTime(SqlStep(table, pc, now).0, SqlStep(table, pc, now).1)
  {}

  lemma ThreadStaysOnTime(table: Table, table': Table, pc: Pc)
    requires ThreadOnTime(table, pc) && TableEvolves(table, table')
    ensures ThreadOnTime(table', pc)
  {}

  /** One thread moves to a place that is fine, and the rows stay on time. */
  lemma ThreadMovesOnTime(w: World, w': World, t: nat)
    requires OnTime(w) && TableEvolves(w.table, w'.table) && RowsOnTime(w'.table)
    requires t in w'.threads && w'.threads == w.threads[t := w'.threads[t]] && ThreadOnTime(w'.table, w'.threads[t])
    ensures OnTime(w')
  {
    forall u <- w'.threads ensures ThreadOnTime(w'.table, w'.threads[u]) {
      if u != t { ThreadStaysOnTime(w.table, w'.table, w.threads[u]); }
    }
  }

  lemma SqlOnTime(w: World, t: nat, now: int)
    requires Inv(w) && OnTime(w) && t in w.threads && AtSql(w.threads[t])
    ensures OnTime(Apply(w, Sql(t, now)))
  {
    var pc := w.threads[t];
    assert ThreadOk(w, pc) && ThreadOnTime(w.table, pc);
    assert forall id <- w.table :: RowOk(w, id);
    SqlStepEvolves(w.table, pc, now);
    SqlKeepsRowsOnTime(w.table, pc, now);
    SqlLandsOnTime(w.table, pc, now);
    ThreadMovesOnTime(w, Apply(w, Sql(t, now)), t);
  }

  lemma MarkOnTime(w: World, t: nat, id: string)
    requires OnTime(w) && t in w.threads && w.threads[t].Marking? && id in w.threads[t].pending
    ensures OnTime(Apply(w, MarkOne(t, id)))
  {
    var pc := w.threads[t];
    assert ThreadOnTime(w.table, pc);
    MovedEvolves(w.table, id, Proposed, Expired, Some(pc.now), None);
    MovedOnTime(w.table, id, Proposed, Expired, Some(pc.now), None);
    ThreadStaysOnTime(w.table, Apply(w, MarkOne(t, id)).table, pc);
    ThreadMovesOnTime(w, Apply(w, MarkOne(t, id)), t);
  }

  lemma OthersOnTime(w: World, e: Event)
    requires OnTime(w) && !e.Sql? && !e.MarkOne?
    ensures OnTime(Apply(w, e))
  {
    if !e.Deliver? && Apply(w, e) != w { ThreadMovesOnTime(w, Apply(w, e), e.t); }
  }

  lemma StepOnTime(w: World, e: Event)
    requires Inv(w) && OnTime(w)
    ensures OnTime(Apply(w, e))
  {
    match e
    case Sql(t, now) => if t in w.threads && AtSql(w.threads[t]) { SqlOnTime(w, t, now); }
    case MarkOne(t, id) => if t in w.threads && w.threads[t].Marking? && id in w.threads[t].pending { MarkOnTime(w, t, id); }
    case _ => OthersOnTime(w, e);
  }

  lemma {:induction false} RunOnTime(w: World, es: seq<Event>)
    requires Inv(w) && OnTime(w)
    ensures OnTime(Run(w, es))
    decreases |es|
  {
    if es != [] {
      StepKeepsInv(w, es[0]);
      StepOnTime(w, es[0]);
      RunOnTime(Apply(w, es[0]), es[1..]);
    }
  }

  // Whoever closes a proposal, and however calls and listings interleave: a cancelled one
  // was cancelled on a clock before its expiry, an expired one was closed on a clock at or
  // after it, and one that is still open bears no decision.
  lemma DecidedOnTime(ttl: int, es: seq<Event>, id: string)
    requires id in Run(Init(ttl), es).table
    ensures RowOnTime(Run(Init(ttl), es).table[id])
  {
    RunOnTime(Init(ttl), es);
  }

  // ----- what becomes of a decision nobody disturbs

  /** What a decision does to the rows, and where it leaves its caller: replied to, or at the undo endpoint. */
  predicate Decided(rows: Table, id: string, decision: Decision, who: Identity, now: int, rows': Table, out: Pc) {
    if id !in rows then rows' == rows && out == Done(Failed(NotFound))
    else
      var row := rows[id];
      if row.owner != who then rows' == rows && out == Done(Failed(BindingMismatch))
      else match row.status
        case Proposed =>
          if now >= row.expiresAt then
            rows' == rows[id := row.(status := Expired, decidedAt := Some(now))] && out == Done(Failed(PastExpiry))
          else if decision == Cancel then
            var cancelled := row.(status := Cancelled, decidedAt := Some(now));
            rows' == rows[id := cancelled] && out == Done(CancelledReply(cancelled))
          else
            var held := row.(status := Executing);
            rows' == rows[id := held] && out == CallUndo(held, who, now)
        case Executing =>
          rows' == rows && out == if decision == Confirm then CallUndo(row, who, now) else Done(Failed(InProgress))
        case Confirmed =>
          rows' == rows && out == if decision == Confirm then Done(ConfirmedReply(row, Value(if row.result.Some? then row.result.value else OK_JSON)))
                                  else Done(Failed(Terminal))
        case Cancelled =>
          rows' == rows && out == if decision == Cancel then Done(CancelledReply(row)) else Done(Failed(Terminal))
        case Expired => rows' == rows && out == Done(Failed(PastExpiry))
  }

  lemma SqlMoves(w: World, t: nat, pc: Pc, now: int)
    requires t in w.threads && w.threads[t] == pc && AtSql(pc)
    ensures Apply(w, Sql(t, now)) == Put(w, t, SqlStep(w.table, pc, now).1).(table := SqlStep(w.table, pc, now).0)
  {}

  lemma SqlRests(w: World, t: nat, now: int)
    requires t in w.threads && !AtSql(w.threads[t])
    ensures Apply(w, Sql(t, now)) == w
  {}

  /** A world that differs in one thread and the rows only. */
  predicate OnlyThread(w: World, w': World, t: nat) {
    t in w'.threads && w' == Put(w, t, w'.threads[t]).(table := w'.table)
  }

  // A decision that nothing disturbs, at any time and in any state of the system: the
  // owner's confirm of a proposed row claims it and stands at the undo endpoint, and the
  // owner's cancel leaves it cancelled, exactly before its expiry; from the expiry on both
  // fail as expired and leave the row so. What was decided before is not decided again.
  lemma DecidedAlone(w: World, t: nat, id: string, decision: Decision, who: Identity, now: int)
    requires t !in w.threads && (id in w.table ==> w.table[id].requestId == id)
    ensures var w' := Run(w, [Start(t, DecideRead(id, decision, who)), Sql(t, now), Sql(t, now), Sql(t, now)]);
            OnlyThread(w, w', t) && Decided(w.table, id, decision, who, now, w'.table, w'.threads[t])
  {
    var w0 := Put(w, t, DecideRead(id, decision, who));
    var w1 := Apply(w0, Sql(t, now));
    var w2 := Apply(w1, Sql(t, now));
    var w3 := Apply(w2, Sql(t, now));
    FourSteps(w, t, id, decision, who, now);
    SqlMoves(w0, t, DecideRead(id, decision, who), now);
    FirstRead(w.table, id, decision, who, now);
    PutTwice(w, t, DecideRead(id, decision, who), w1.threads[t]);
    if AtSql(w1.threads[t]) {
      SqlMoves(w1, t, w1.threads[t], now);
      PutTwice(w, t, w1.threads[t], w2.threads[t]);
      SecondStep(w.table, id, decision, who, now);
      if AtSql(w2.threads[t]) {
        SqlMoves(w2, t, w2.threads[t], now);
        PutTwice(w, t, w2.threads[t], w3.threads[t]);
        ThirdStep(w.table, id, decision, who, now);
      } else {
        SqlRests(w2, t, now);
      }
    } else {
      SqlRests(w1, t, now);
      SqlRests(w2, t, now);
    }
  }

  lemma FourSteps(w: World, t: nat, id: string, decision: Decision, who: Identity, now: int)
    requires t !in w.threads
    ensures Run(w, [Start(t, DecideRead(id, decision, who)), Sql(t, now), Sql(t, now), Sql(t, now)])
         == Apply(Apply(Apply(Put(w, t, DecideRead(id, decision, who)), Sql(t, now)), Sql(t, now)), Sql(t, now))
  {
    var e := Sql(t, now);
    var w0 := Put(w, t, DecideRead(id, decision, who));
    assert Run(w, [Start(t, DecideRead(id, decision, who)), e, e, e]) == Run(w0, [e, e, e]) by {
      assert [Start(t, DecideRead(id, decision, who)), e, e, e][1..] == [e, e, e];
    }
    assert [e, e, e][1..] == [e, e] && [e, e][1..] == [e] && [e][1..] == [];
    assert Run(w0, [e, e, e]) == Run(Apply(w0, e), [e, e]);
    assert Run(Apply(w0, e), [e, e]) == Run(Apply(Apply(w0, e), e), [e]);
    assert Run(Apply(Apply(w0, e), e), [e]) == Run(Apply(Apply(Apply(w0, e), e), e), []);
  }

  /** After the first read a caller is done, or calls the endpoint, or has one update left to make or one row to replay. */
  lemma FirstRead(table: Table, id: string, decision: Decision, who: Identity, now: int)
    requires id in table ==> table[id].requestId == id
    ensures var (table', pc) := SqlStep(table, DecideRead(id, decision, who), now);
            && table' == table
            && (if AtSql(pc) then
                  && id in table && table[id].owner == who
                  && match table[id].status
                     case Proposed => pc == if now >= table[id].expiresAt then ExpireThenFail(id, now)
                                            else if decision == Cancel then CancelUpdate(id, now) else ClaimUpdate(id, who, now)
                     case Confirmed => decision == Confirm && pc == ReplayRead(table[id])
                     case _ => false
                else Decided(table, id, decision, who, now, table, pc))
  {}

  lemma SecondStep(table: Table, id: string, decision: Decision, who: Identity, now: int)
    requires id in table && table[id].requestId == id && AtSql(SqlStep(table, DecideRead(id, decision, who), now).1)
    ensures var pc := SqlStep(table, DecideRead(id, decision, who), now).1;
            var (table', pc') := SqlStep(table, pc, now);
            if AtSql(pc') then
              && table[id].owner == who && table[id].status == Proposed && now < table[id].expiresAt
              && (if decision == Cancel then
                    pc' == CancelCheck(id) && table' == table[id := table[id].(status := Cancelled, decidedAt := Some(now))]
                  else pc' == ClaimCheck(id, who, now) && table' == table[id := table[id].(status := Executing)])
            else Decided(table, id, decision, who, now, table', pc')
  {
    FirstRead(table, id, decision, who, now);
  }

  lemma ThirdStep(table: Table, id: string, decision: Decision, who: Identity, now: int)
    requires id in table && table[id].requestId == id && AtSql(SqlStep(table, DecideRead(id, decision, who), now).1)
    requires AtSql(SqlStep(table, SqlStep(table, DecideRead(id, decision, who), now).1, now).1)
    ensures var (table', pc') := SqlStep(table, SqlStep(table, DecideRead(id, decision, who), now).1, now);
            var (table'', pc'') := SqlStep(table', pc', now);
            !AtSql(pc'') && Decided(table, id, decision, who, now, table'', pc'')
  {
    SecondStep(table, id, decision, who, now);
  }

  // ----- what the endpoint's answer becomes

  /** The row of a claim once its endpoint has answered. */
  function Answered(row: Proposal, now: int, answer: Answer): Proposal {
    row.(status := Confirmed, decidedAt := Some(now), result := Some(if answer.Value? then answer.json else OK_JSON))
  }

  // A caller that stands at the endpoint makes one call, with the target and the key of
  // its claim, and when that is answered ends confirmed with the answer: its own, or the
  // one the endpoint recorded for that key before.
  lemma ConfirmedByAnswer(w: World, t: nat, holder: Proposal, who: Identity, now: int, answer: Answer, later: int)
    requires t in w.threads && w.threads[t] == CallUndo(holder, who, now)
    requires holder.requestId in w.table && w.table[holder.requestId].status == Executing
    ensures var call := Call(holder.requestId, holder.key, holder.target, who);
            var given := if holder.key in w.ledger then w.ledger[holder.key] else answer;
            var row := Answered(w.table[holder.requestId], now, given);
            var w' := Run(w, [SendUndo(t), Deliver(|w.calls|, answer), UndoReturns(t), Sql(t, later), Sql(t, later)]);
            && w'.calls == w.calls + [call] && w'.table == w.table[holder.requestId := row]
            && t in w'.threads && w'.threads[t] == Done(ConfirmedReply(row, given))
            && w'.effects == (if holder.key in w.ledger then w.effects else w.effects + [Effect(holder.key, holder.target)])
  {
    var es := [SendUndo(t), Deliver(|w.calls|, answer), UndoReturns(t), Sql(t, later), Sql(t, later)];
    var w1 := Apply(w, es[0]);
    var w2 := Apply(w1, es[1]);
    var w3 := Apply(w2, es[2]);
    FiveSteps(w, es);
    ToTheAnswer(w, t, holder, who, now, answer);
    var given := if holder.key in w.ledger then w.ledger[holder.key] else answer;
    FromTheAnswer(w3, t, holder.requestId, now, given, later);
  }

  lemma FromTheAnswer(w: World, t: nat, id: string, now: int, answer: Answer, later: int)
    requires t in w.threads && w.threads[t] == ConfirmUpdate(id, now, answer) && id in w.table && w.table[id].status == Executing
    ensures var w' := Apply(Apply(w, Sql(t, later)), Sql(t, later));
            var row := Answered(w.table[id], now, answer);
            && w'.calls == w.calls && w'.effects == w.effects && w'.table == w.table[id := row]
            && t in w'.threads && w'.threads[t] == Done(ConfirmedReply(row, answer))
  {
    SqlMoves(w, t, ConfirmUpdate(id, now, answer), later);
    SqlMoves(Apply(w, Sql(t, later)), t, ConfirmCheck(id, answer), later);
  }

  lemma FiveSteps(w: World, es: seq<Event>)
    requires |es| == 5
    ensures Run(w, es) == Apply(Apply(Apply(Apply(Apply(w, es[0]), es[1]), es[2]), es[3]), es[4])
  {
    assert es == [es[0], es[1], es[2], es[3], es[4]];
    assert es[1..][1..] == es[2..] && es[2..][1..] == es[3..] && es[3..][1..] == es[4..] && es[4..][1..] == [];
    var w1 := Apply(w, es[0]);
    var w2 := Apply(w1, es[1]);
    var w3 := Apply(w2, es[2]);
    assert Run(w, es) == Run(w1, es[1..]);
    assert Run(w1, es[1..]) == Run(w2, es[2..]);
    assert Run(w2, es[2..]) == Run(w3, es[3..]);
    assert Run(w3, es[3..]) == Run(Apply(w3, es[3]), es[4..]);
    assert Run(Apply(w3, es[3]), es[4..]) == Run(Apply(Apply(w3, es[3]), es[4]), []);
  }

  lemma ToTheAnswer(w: World, t: nat, holder: Proposal, who: Identity, now: int, answer: Answer)
    requires t in w.threads && w.threads[t] == CallUndo(holder, who, now)
    ensures var call := Call(holder.requestId, holder.key, holder.target, who);
            var given := if holder.key in w.ledger then w.ledger[holder.key] else answer;
            var w3 := Apply(Apply(Apply(w, SendUndo(t)), Deliver(|w.calls|, answer)), UndoReturns(t));
            && w3.table == w.table && w3.calls == w.calls + [call]
            && t in w3.threads && w3.threads[t] == ConfirmUpdate(holder.requestId, now, given)
            && w3.effects == (if holder.key in w.ledger then w.effects else w.effects + [Effect(holder.key, holder.target)])
  {}

  // ----- who loses a race is told what became of the proposal

  lemma RereadTells(table: Table, pc: Pc, now: int)
    requires (pc.ClaimReread? && pc.id in table && Final(table[pc.id].status)) || (pc.CancelReread? && pc.id in table && table[pc.id].status != Proposed)
    ensures SqlStep(table, pc, now).0 == table
    ensures var row := table[pc.id];
            SqlStep(table, pc, now).1 == Done(
              if pc.ClaimReread? then
                (if row.status == Confirmed then ConfirmedReply(row, ParseStored(row.result, Value(OK_JSON)))
                 else Failed(if row.status == Expired then PastExpiry else Terminal))
              else
                (if row.status == Cancelled then CancelledReply(row)
                 else Failed(if row.status == Executing then InProgress else Terminal)))
  {}

  // A confirm whose claim missed finds the proposal decided: it replays what was confirmed,
  // or fails as expired or as decided already. A cancel that missed finds it cancelled by
  // another cancel, and says so, or in progress, or decided otherwise. Nothing changes.
  lemma LosersAreTold(ttl: int, es: seq<Event>, t: nat, now: int)
    requires var w := Run(Init(ttl), es); t in w.threads && (w.threads[t].ClaimReread? || w.threads[t].CancelReread?)
    ensures var w := Run(Init(ttl), es);
            var w' := Apply(w, Sql(t, now));
            var id := w.threads[t].id;
            && id in w.table && w'.table == w.table && t in w'.threads
            && var row := w.table[id];
               w'.threads[t] == Done(
                 if w.threads[t].ClaimReread? then
                   (if row.status == Confirmed && row.result.Some? then ConfirmedReply(row, Value(row.result.value))
                    else Failed(if row.status == Expired then PastExpiry else Terminal))
                 else
                   (if row.status == Cancelled then CancelledReply(row)
                    else Failed(if row.status == Executing then InProgress else Terminal)))
    ensures var w := Run(Init(ttl), es);
            var row := w.table[w.threads[t].id];
            row.status != Proposed && (w.threads[t].ClaimReread? ==> row.status != Executing)
  {
    ReachableInv(ttl, es);
    var w := Run(Init(ttl), es);
    assert ThreadOk(w, w.threads[t]);
    assert RowOk(w, w.threads[t].id);
    RereadTells(w.table, w.threads[t], now);
  }
}
