/** What the undo confirmation protocol guarantees in every interleaving. */
module UndoSafety {
  import opened Common
  import opened UndoStore
  import opened UndoProtocol

  // ----- the invariant is inductive

  lemma ThreadStable(w: World, w': World, pc: Pc)
    requires ThreadOk(w, pc) && Evolves(w, w')
    ensures ThreadOk(w', pc)
  {}

  lemma CallStable(w: World, w': World, call: Call)
    requires CallOk(w, call) && Evolves(w, w')
    ensures CallOk(w', call)
  {}

  lemma ThreadsStable(w: World, w': World, t: nat)
    requires ThreadsOk(w) && Evolves(w, w')
    requires w'.threads.Keys <= w.threads.Keys + {t}
    requires forall u <- w'.threads | u != t :: u in w.threads && w'.threads[u] == w.threads[u]
    requires t in w'.threads ==> ThreadOk(w', w'.threads[t])
    ensures ThreadsOk(w')
  {
    forall u <- w'.threads ensures ThreadOk(w', w'.threads[u]) {
      if u != t { ThreadStable(w, w', w.threads[u]); }
    }
  }

  lemma CallsStable(w: World, w': World)
    requires CallsOk(w) && Evolves(w, w') && w'.calls == w.calls
    ensures CallsOk(w')
  {
    forall c <- w'.calls ensures CallOk(w', c) { CallStable(w, w', c); }
  }

  /** An update out of proposed or executing keeps every row well formed, if what it confirms with is the endpoint's answer. */
  lemma MovedRowsOk(w: World, w': World, id: string, from: Status, to: Status, decidedAt: Option<int>, result: Option<Json>)
    requires RowsOk(w) && w'.ledger == w.ledger
    requires from != Confirmed && w'.table == Moved(w.table, id, from, to, decidedAt, result)
    requires to != Confirmed ==> result == None
    requires to == Confirmed && id in w.table ==> w.table[id].key in w.ledger && result == Some(Stringify(w.ledger[w.table[id].key]))
    ensures RowsOk(w')
  {
    forall i <- w'.table ensures RowOk(w', i) { assert RowOk(w, i); }
  }

  lemma InsertedRowsOk(w: World, w': World, row: Proposal)
    requires RowsOk(w) && w'.ledger == w.ledger && w'.table == Inserted(w.table, row)
    requires row.status == Proposed && row.result == None && row.key == DeriveKey(row.owner.workspaceId, row.requestId)
    requires row.requestId != "" && HasContext(row.owner)
    ensures RowsOk(w')
  {
    forall i <- w'.table ensures RowOk(w', i) { if i in w.table { assert RowOk(w, i); } }
  }

  predicate Writes(pc: Pc) { pc.CancelUpdate? || pc.ClaimUpdate? || pc.ConfirmUpdate? || pc.InsertRow? || pc.ExpireThenFail? }

  lemma ReadsKeepTable(table: Table, pc: Pc, now: int)
    requires !Writes(pc)
    ensures SqlStep(table, pc, now).0 == table
  {}

  lemma SqlKeepsRows(w: World, w': World, pc: Pc, now: int)
    requires RowsOk(w) && ThreadOk(w, pc) && AtSql(pc)
    requires w'.table == SqlStep(w.table, pc, now).0 && w'.ledger == w.ledger
    ensures RowsOk(w')
  {
    if Writes(pc) {
      match pc
      case ExpireThenFail(id, at) => MovedRowsOk(w, w', id, Proposed, Expired, Some(at), None);
      case CancelUpdate(id, at) => MovedRowsOk(w, w', id, Proposed, Cancelled, Some(at), None);
      case ClaimUpdate(id, who, at) => MovedRowsOk(w, w', id, Proposed, Executing, None, None);
      case ConfirmUpdate(id, at, answer) => MovedRowsOk(w, w', id, Executing, Confirmed, Some(at), Some(Stringify(answer)));
      case InsertRow(row, who) => InsertedRowsOk(w, w', row);
    } else {
      ReadsKeepTable(w.table, pc, now);
      forall i <- w'.table ensures RowOk(w', i) { assert RowOk(w, i); }
    }
  }

  lemma DecideLands(w: World, id: string, decision: Decision, who: Identity, now: int)
    requires id in w.table && RowOk(w, id)
    ensures ThreadOk(w, AfterRead(w.table[id], decision, who, now))
  {}

  lemma ConfirmedAnswerOk(w: World, id: string, fallback: Answer)
    requires id in w.table && RowOk(w, id) && w.table[id].status == Confirmed
    ensures AnswerOk(w, id, ParseStored(w.table[id].result, fallback))
  {}

  lemma UpdateLands(w: World, w': World, pc: Pc, now: int)
    requires ThreadOk(w, pc) && Writes(pc)
    requires w'.table == SqlStep(w.table, pc, now).0 && w'.ledger == w.ledger
    ensures ThreadOk(w', SqlStep(w.table, pc, now).1)
  {}

  lemma CheckLands(w: World, pc: Pc, now: int)
    requires RowsOk(w) && ThreadOk(w, pc)
    requires pc.CancelCheck? || pc.CancelReread? || pc.ClaimCheck? || pc.ConfirmCheck?
    ensures ThreadOk(w, SqlStep(w.table, pc, now).1)
  {
    assert RowOk(w, pc.id);
  }

  lemma ReadLands(w: World, pc: Pc, now: int)
    requires RowsOk(w) && ThreadOk(w, pc) && AtSql(pc)
    requires !Writes(pc)
    ensures ThreadOk(w, SqlStep(w.table, pc, now).1)
  {
    match pc
    case DecideRead(id, decision, who) => if id in w.table { DecideLands(w, id, decision, who, now); }
    case ReplayRead(stored) => ConfirmedAnswerOk(w, stored.requestId, Value(OK_JSON));
    case ClaimReread(id, at) => if w.table[id].status == Confirmed { ConfirmedAnswerOk(w, id, Value(OK_JSON)); }
    case ConfirmReread(id, answer) =>
    case _ => if pc.ProposeRead? || pc.ProposeReread? { ProposeLands(w, pc, now); } else { CheckLands(w, pc, now); }
  }

  lemma ProposeLands(w: World, pc: Pc, now: int)
    requires RowsOk(w) && ThreadOk(w, pc) && (pc.ProposeRead? || pc.ProposeReread?)
    ensures ThreadOk(w, SqlStep(w.table, pc, now).1)
  {
    match pc
    case ProposeRead(id, who) => if id in w.table { assert RowOk(w, id); }
    case ProposeReread(row, who) => assert RowOk(w, row.requestId);
  }

  /** The step of one thread lands where the invariant says it may stand. */
  lemma SqlStepLands(w: World, pc: Pc, now: int, w': World)
    requires RowsOk(w) && ThreadOk(w, pc) && AtSql(pc)
    requires w'.table == SqlStep(w.table, pc, now).0 && w'.ledger == w.ledger
    ensures ThreadOk(w', SqlStep(w.table, pc, now).1)
  {
    if Writes(pc) {
      UpdateLands(w, w', pc, now);
    } else {
      ReadLands(w, pc, now);
      assert w'.table == w.table;
    }
  }

  lemma SqlKeepsInv(w: World, t: nat, now: int)
    requires Inv(w) && t in w.threads && AtSql(w.threads[t])
    ensures Inv(Apply(w, Sql(t, now)))
  {
    var w' := Apply(w, Sql(t, now));
    StepEvolves(w, Sql(t, now));
    SqlKeepsRows(w, w', w.threads[t], now);
    CallsStable(w, w');
    SqlStepLands(w, w.threads[t], now, w');
    ThreadsStable(w, w', t);
  }

  /** Events that only move one thread, to a place that is fine in the new world. */
  lemma ThreadMoveKeepsInv(w: World, w': World, t: nat, pc: Pc)
    requires Inv(w) && w' == Put(w, t, pc) && Evolves(w, w') && ThreadOk(w', pc)
    ensures Inv(w')
  {
    assert forall i <- w.table :: RowOk(w, i);
    CallsStable(w, w');
    ThreadsStable(w, w', t);
  }

  lemma SendKeepsInv(w: World, t: nat)
    requires Inv(w) && t in w.threads && w.threads[t].CallUndo?
    ensures Inv(Apply(w, SendUndo(t)))
  {
    var w' := Apply(w, SendUndo(t));
    StepEvolves(w, SendUndo(t));
    assert ThreadOk(w, w.threads[t]);
    var holder := w.threads[t].holder;
    assert forall i <- w.table :: RowOk(w, i);
    forall c <- w'.calls ensures CallOk(w', c) { if c in w.calls { CallStable(w, w', c); } }
    ThreadsStable(w, w', t);
    forall e <- w'.effects ensures exists c :: c in w'.calls && c.key == e.key && c.target == e.target {
      var c :| c in w.calls && c.key == e.key && c.target == e.target;
      assert c in w'.calls;
    }
  }

  lemma DeliveredKeysOk(w: World, call: Call, answer: Answer)
    requires EndpointOk(w) && call.key !in w.ledger
    ensures var w' := Delivered(w, call, answer);
            forall k <- w'.ledger :: exists j :: 0 <= j < |w'.effects| && w'.effects[j].key == k
  {
    var w' := Delivered(w, call, answer);
    var n := |w.effects|;
    assert w'.effects[n] == Effect(call.key, call.target);
    forall k <- w'.ledger ensures exists j :: 0 <= j < |w'.effects| && w'.effects[j].key == k {
      if k == call.key { assert w'.effects[n].key == k; }
      else {
        var j :| 0 <= j < |w.effects| && w.effects[j].key == k;
        assert w'.effects[j].key == k;
      }
    }
  }

  lemma DeliveredEndpointOk(w: World, call: Call, answer: Answer)
    requires EndpointOk(w) && call in w.calls && call.key !in w.ledger
    ensures EndpointOk(Delivered(w, call, answer))
  {
    var w' := Delivered(w, call, answer);
    DeliveredKeysOk(w, call, answer);
    forall e <- w'.effects ensures exists c :: c in w'.calls && c.key == e.key && c.target == e.target {
      if e !in w.effects { assert call in w'.calls && call.key == e.key && call.target == e.target; }
    }
  }

  lemma DeliverKeepsInv(w: World, i: nat, answer: Answer)
    requires Inv(w) && i < |w.calls|
    ensures Inv(Apply(w, Deliver(i, answer)))
  {
    var w' := Apply(w, Deliver(i, answer));
    StepEvolves(w, Deliver(i, answer));
    if w' != w {
      forall id <- w'.table ensures RowOk(w', id) { assert RowOk(w, id); }
      CallsStable(w, w');
      forall u <- w'.threads ensures ThreadOk(w', w'.threads[u]) { ThreadStable(w, w', w.threads[u]); }
      DeliveredEndpointOk(w, w.calls[i], answer);
    }
  }

  lemma MarkKeepsInv(w: World, t: nat, id: string)
    requires Inv(w) && t in w.threads && w.threads[t].Marking? && id in w.threads[t].pending
    ensures Inv(Apply(w, MarkOne(t, id)))
  {
    var w' := Apply(w, MarkOne(t, id));
    StepEvolves(w, MarkOne(t, id));
    MovedRowsOk(w, w', id, Proposed, Expired, Some(w.threads[t].now), None);
    CallsStable(w, w');
    ThreadsStable(w, w', t);
  }

  lemma StepKeepsInv(w: World, e: Event)
    requires Inv(w)
    ensures Inv(Apply(w, e))
  {
    StepEvolves(w, e);
    if Apply(w, e) == w { return; }
    match e
    case Sql(t, now) => SqlKeepsInv(w, t, now);
    case SendUndo(t) => SendKeepsInv(w, t);
    case Deliver(i, answer) => DeliverKeepsInv(w, i, answer);
    case MarkOne(t, id) => MarkKeepsInv(w, t, id);
    case UndoReturns(t) =>
      assert ThreadOk(w, w.threads[t]);
      ThreadMoveKeepsInv(w, Apply(w, e), t, Apply(w, e).threads[t]);
    case _ => MoveKeepsInv(w, e);
  }

  /** The events that move one thread and nothing else. */
  lemma MoveKeepsInv(w: World, e: Event)
    requires Inv(w) && Apply(w, e) != w && Evolves(w, Apply(w, e))
    requires e.Start? || e.PreviewAnswers? || e.ListBound? || e.EndListing? || e.Crash?
    ensures Inv(Apply(w, e))
  {
    assert e.t in w.threads ==> ThreadOk(w, w.threads[e.t]);
    ThreadMoveKeepsInv(w, Apply(w, e), e.t, Apply(w, e).threads[e.t]);
  }

  lemma {:induction false} RunKeepsInv(w: World, es: seq<Event>)
    requires Inv(w)
    ensures Inv(Run(w, es))
    decreases |es|
  {
    if es != [] {
      StepKeepsInv(w, es[0]);
      RunKeepsInv(Apply(w, es[0]), es[1..]);
    }
  }

  lemma ReachableInv(ttl: int, es: seq<Event>)
    ensures Inv(Run(Init(ttl), es))
  {
    RunKeepsInv(Init(ttl), es);
  }

  // ----- safety over whole runs

  /** Some undo call, or some effect under its key, was made for this proposal. */
  ghost predicate Touched(w: World, id: string)
    requires id in w.table
  {
    exists c :: c in w.calls && c.proposal == id
  }

  // Once api.undo has been called for a request, its row is executing or confirmed
  // there and after any further events, under the same owner, key and target; so a
  // row that is cancelled or expired has no call in the log and never gets one.
  lemma EffectNeverPairedWithCancelled(ttl: int, before: seq<Event>, after: seq<Event>)
    ensures var w := Run(Init(ttl), before);
            var w' := Run(w, after);
            && (forall c <- w.calls :: CallOk(w, c) && CallOk(w', c))
            && (forall id <- w.table | w.table[id].status == Cancelled || w.table[id].status == Expired ::
                  id in w'.table && w'.table[id] == w.table[id] && !Touched(w, id) && !Touched(w', id))
  {
    var w := Run(Init(ttl), before);
    var w' := Run(w, after);
    ReachableInv(ttl, before);
    RunKeepsInv(w, after);
    RunEvolves(w, after);
    forall id <- w.table | w.table[id].status == Cancelled || w.table[id].status == Expired
      ensures id in w'.table && w'.table[id] == w.table[id] && !Touched(w, id) && !Touched(w', id)
    {
      assert forall c <- w.calls :: CallOk(w, c);
      assert forall c <- w'.calls :: CallOk(w', c);
    }
  }

  // A cancel reply is the truth for good: the row stays cancelled and no undo call
  // is ever made for it, however the run goes on.
  lemma CancelReplyIsFinal(ttl: int, before: seq<Event>, after: seq<Event>, t: nat, row: Proposal)
    requires var w := Run(Init(ttl), before); t in w.threads && w.threads[t] == Done(CancelledReply(row))
    ensures var w' := Run(Run(Init(ttl), before), after);
            && row.requestId in w'.table && w'.table[row.requestId] == row && row.status == Cancelled
            && !Touched(w', row.requestId)
  {
    ReachableInv(ttl, before);
    var w := Run(Init(ttl), before);
    assert ThreadOk(w, w.threads[t]);
    EffectNeverPairedWithCancelled(ttl, before, after);
  }

  // ----- keys

  predicate ColonFree(s: string) { ':' !in s }

  /** The first colon of a + ":" + b is the one after a, when a has none. */
  lemma FirstColon(a: string, b: string)
    requires ColonFree(a)
    ensures var s := a + [':'] + b;
            s[|a|] == ':' && (forall i :: 0 <= i < |a| ==> s[i] != ':') && s[..|a|] == a && s[|a| + 1..] == b
  {}

  lemma KeyBody(w: string, r: string)
    ensures DeriveKey(w, r) == "undo:" + (w + [':'] + r)
  {
    assert DeriveKey(w, r) == "undo:" + (w + [':'] + r);
  }

  lemma PrefixCancels(p: string, a: string, b: string)
    requires p + a == p + b
    ensures a == b
  {
    assert a == (p + a)[|p|..];
    assert b == (p + b)[|p|..];
  }

  // Keys of colon-free workspaces name one workspace and one request.
  lemma KeysSeparate(w1: string, r1: string, w2: string, r2: string)
    requires ColonFree(w1) && ColonFree(w2)
    requires DeriveKey(w1, r1) == DeriveKey(w2, r2)
    ensures w1 == w2 && r1 == r2
  {
    KeyBody(w1, r1);
    KeyBody(w2, r2);
    PrefixCancels("undo:", w1 + [':'] + r1, w2 + [':'] + r2);
    FirstColon(w1, r1);
    FirstColon(w2, r2);
  }

  /** Another pair of ids that propose accepts has the same key. */
  ghost predicate Collides(w: string, r: string) {
    exists w', r' :: w' != "" && r' != "" && (w', r') != (w, r) && DeriveKey(w', r') == DeriveKey(w, r)
  }

  /** A colon after the first character of the workspace id, or before the last of the request id. */
  predicate HasInnerColon(w: string, r: string) {
    (exists i :: 0 < i < |w| && w[i] == ':') || (exists i :: 0 <= i < |r| - 1 && r[i] == ':')
  }

  // Exactly the accepted pairs with such a colon share their key with another accepted pair.
  lemma KeyCollidesExactly(w: string, r: string)
    requires w != "" && r != ""
    ensures Collides(w, r) <==> HasInnerColon(w, r)
  {
    if i :| 0 < i < |w| && w[i] == ':' {
      SameText(w, r, w[..i], w[i + 1..] + [':'] + r);
    } else if i :| 0 <= i < |r| - 1 && r[i] == ':' {
      SameText(w, r, w + [':'] + r[..i], r[i + 1..]);
    } else if Collides(w, r) {
      var w', r' :| w' != "" && r' != "" && (w', r') != (w, r) && DeriveKey(w', r') == DeriveKey(w, r);
      KeyBody(w, r);
      KeyBody(w', r');
      PrefixCancels("undo:", w' + [':'] + r', w + [':'] + r);
      OnlyColonOf(w, r, w', r');
    }
  }

  lemma SameText(w: string, r: string, w': string, r': string)
    requires w' != "" && r' != "" && w' != w && w' + [':'] + r' == w + [':'] + r
    ensures Collides(w, r)
  {
    KeyBody(w, r);
    KeyBody(w', r');
  }

  lemma InnerColon(w: string, r: string, i: nat)
    requires 0 < i < |w| + |r| && i != |w| && (w + [':'] + r)[i] == ':'
    ensures HasInnerColon(w, r)
  {
    assert if i < |w| then w[i] == ':' else r[i - |w| - 1] == ':';
  }

  lemma OnlyColonOf(w: string, r: string, w': string, r': string)
    requires w' != "" && r' != "" && !HasInnerColon(w, r) && w' + [':'] + r' == w + [':'] + r
    ensures w == w' && r == r'
  {
    var s := w + [':'] + r;
    assert s[|w'|] == ':' && |s| == |w'| + 1 + |r'|;
    if |w'| != |w| { InnerColon(w, r, |w'|); }
    assert w' == s[..|w'|] && r' == s[|w'| + 1..];
    assert w == s[..|w|] && r == s[|w| + 1..];
  }

  // ----- one effect

  /** No other proposal of the table has the key of this one. */
  ghost predicate OwnsItsKey(w: World, id: string)
    requires id in w.table
  {
    forall other <- w.table :: w.table[other].key == w.table[id].key ==> other == id
  }

  ghost predicate WorkspacesColonFree(w: World) {
    forall id <- w.table :: ColonFree(w.table[id].owner.workspaceId)
  }

  /** At most one effect, on the target fixed at proposal time, and there once confirmed. */
  ghost predicate OneEffect(w: World, id: string)
    requires id in w.table
  {
    var row := w.table[id];
    && (forall i, j :: 0 <= i < j < |w.effects| ==> !(w.effects[i].key == row.key && w.effects[j].key == row.key))
    && (forall e <- w.effects | e.key == row.key :: e.target == row.target && Claimed(row.status))
    && (row.status == Confirmed ==> Effect(row.key, row.target) in w.effects)
  }

  lemma OwnKeyOneEffect(w: World, id: string)
    requires Inv(w) && id in w.table && OwnsItsKey(w, id)
    ensures OneEffect(w, id)
  {
    var row := w.table[id];
    assert RowOk(w, id);
    forall e <- w.effects | e.key == row.key
      ensures e.target == row.target && Claimed(row.status)
    {
      var c :| c in w.calls && c.key == e.key && c.target == e.target;
      assert CallOk(w, c) && RowOk(w, c.proposal);
    }
    if row.status == Confirmed {
      var i :| 0 <= i < |w.effects| && w.effects[i].key == row.key;
      assert w.effects[i] in w.effects;
      assert w.effects[i] == Effect(row.key, row.target);
    }
  }

  // Whatever is retried, raced or delivered twice, a proposal whose key no other
  // proposal has holds at most one effect; that effect is on the target fixed at
  // proposal time; and once confirmed it has it. Keys are told apart when no workspace
  // id holds a colon, and for any pair of ids without an inner colon.
  lemma OneEffectPerProposal(ttl: int, es: seq<Event>, id: string)
    requires id in Run(Init(ttl), es).table
    ensures var w := Run(Init(ttl), es);
            OwnsItsKey(w, id) || WorkspacesColonFree(w) || !HasInnerColon(w.table[id].owner.workspaceId, id) ==> OneEffect(w, id)
  {
    ReachableInv(ttl, es);
    var w := Run(Init(ttl), es);
    var workspace := w.table[id].owner.workspaceId;
    if OwnsItsKey(w, id) || WorkspacesColonFree(w) || !HasInnerColon(workspace, id) {
      assert RowOk(w, id);
      forall other <- w.table | w.table[other].key == w.table[id].key ensures other == id {
        assert RowOk(w, other);
        if WorkspacesColonFree(w) {
          KeysSeparate(workspace, id, w.table[other].owner.workspaceId, other);
        } else if !OwnsItsKey(w, id) {
          KeyCollidesExactly(workspace, id);
        }
      }
      OwnKeyOneEffect(w, id);
    }
  }

  // ----- one answer

  // Every two confirm replies for a request carry the same confirmed row, now and for
  // good; their answers agree whenever the endpoint's answer for the key is not null.
  lemma ConfirmRepliesAgree(ttl: int, es: seq<Event>, t: nat, u: nat, row1: Proposal, a1: Answer, row2: Proposal, a2: Answer)
    requires var w := Run(Init(ttl), es);
             && t in w.threads && w.threads[t] == Done(ConfirmedReply(row1, a1))
             && u in w.threads && w.threads[u] == Done(ConfirmedReply(row2, a2))
             && row1.requestId == row2.requestId
    ensures var w := Run(Init(ttl), es);
            && row1 == row2 && row1.key in w.ledger && row1.result == Some(Stringify(w.ledger[row1.key]))
            && (w.ledger[row1.key] != Nothing ==> a1 == a2 == w.ledger[row1.key])
  {
    ReachableInv(ttl, es);
    RepliesAgreeIn(Run(Init(ttl), es), t, u, row1, a1, row2, a2);
  }

  lemma RepliesAgreeIn(w: World, t: nat, u: nat, row1: Proposal, a1: Answer, row2: Proposal, a2: Answer)
    requires Inv(w)
    requires t in w.threads && w.threads[t] == Done(ConfirmedReply(row1, a1))
    requires u in w.threads && w.threads[u] == Done(ConfirmedReply(row2, a2)) && row1.requestId == row2.requestId
    ensures row1 == row2 && row1.key in w.ledger && row1.result == Some(Stringify(w.ledger[row1.key]))
    ensures w.ledger[row1.key] != Nothing ==> a1 == a2 == w.ledger[row1.key]
  {
    assert ThreadOk(w, w.threads[t]) && ThreadOk(w, w.threads[u]);
    assert RowOk(w, row1.requestId);
  }

  /** Two confirm replies for one request differ although the endpoint gave one answer. */
  ghost predicate RepliesDiffer(w: World, t: nat, u: nat, answer: Answer) {
    && t in w.threads && w.threads[t].Done? && w.threads[t].reply.ConfirmedReply?
    && u in w.threads && w.threads[u].Done? && w.threads[u].reply.ConfirmedReply?
    && var r1 := w.threads[t].reply;
       var r2 := w.threads[u].reply;
       && r1.row.requestId == r2.row.requestId
       && r1.row.key in w.ledger && w.ledger[r1.row.key] == answer
       && r1.answer != r2.answer
  }

  ghost predicate CanDiffer(ttl: int, answer: Answer) {
    exists es: seq<Event>, t: nat, u: nat :: RepliesDiffer(Run(Init(ttl), es), t, u, answer)
  }

  // The condition is exact: replies for one request can differ if and only if the
  // endpoint answers null. The first confirmer then returns the null it received,
  // while every replay returns the substitute that was stored for it.
  lemma RepliesDifferExactlyOnNull(ttl: int, answer: Answer)
    requires ttl > 0
    ensures CanDiffer(ttl, answer) <==> answer == Nothing
  {
    if answer == Nothing {
      var es := NullRun(ttl);
    } else if CanDiffer(ttl, answer) {
      var es: seq<Event>, t: nat, u: nat :| RepliesDiffer(Run(Init(ttl), es), t, u, answer);
      var w := Run(Init(ttl), es);
      var r1, r2 := w.threads[t].reply, w.threads[u].reply;
      ConfirmRepliesAgree(ttl, es, t, u, r1.row, r1.answer, r2.row, r2.answer);
    }
  }

  lemma {:induction false} RunSnoc(w: World, es: seq<Event>, e: Event)
    ensures Run(w, es + [e]) == Apply(Run(w, es), e)
    decreases |es|
  {
    if es == [] {
      assert Run(w, [e]) == Run(Apply(w, e), []);
    } else {
      assert (es + [e])[1..] == es[1..] + [e];
      RunSnoc(Apply(w, es[0]), es[1..], e);
    }
  }

  lemma Then(ttl: int, es: seq<Event>, w: World, e: Event, w': World) returns (es': seq<Event>)
    requires w == Run(Init(ttl), es) && w' == Apply(w, e)
    ensures w' == Run(Init(ttl), es')
  {
    es' := es + [e];
    RunSnoc(Init(ttl), es, e);
  }

  // ----- runs made to order

  lemma PutTwice(w: World, t: nat, pc: Pc, pc': Pc)
    ensures Put(Put(w, t, pc), t, pc') == Put(w, t, pc')
  {
    assert w.threads[t := pc][t := pc'] == w.threads[t := pc'];
  }

  lemma Begins(ttl: int, es: seq<Event>, w: World, t: nat, pc: Pc) returns (es': seq<Event>)
    requires w == Run(Init(ttl), es) && t !in w.threads && (pc.DecideRead? || pc.ProposeRead?)
    ensures Put(w, t, pc) == Run(Init(ttl), es')
  {
    es' := Then(ttl, es, w, Start(t, pc), Put(w, t, pc));
  }

  /** A thread makes one SQL step. */
  lemma Steps(ttl: int, es: seq<Event>, w: World, t: nat, pc: Pc, now: int, table: Table, pc': Pc) returns (es': seq<Event>)
    requires Put(w, t, pc) == Run(Init(ttl), es) && AtSql(pc) && SqlStep(w.table, pc, now) == (table, pc')
    ensures Put(w, t, pc').(table := table) == Run(Init(ttl), es')
  {
    PutTwice(w, t, pc, pc');
    es' := Then(ttl, es, Put(w, t, pc), Sql(t, now), Put(w, t, pc').(table := table));
  }

  lemma Previews(ttl: int, es: seq<Event>, w: World, t: nat, id: string, who: Identity, target: string, now: int) returns (es': seq<Event>)
    requires Put(w, t, Preview(id, who)) == Run(Init(ttl), es) && w.ttl == ttl
    ensures Put(w, t, InsertRow(NewProposal(id, who, target, now, ttl), who)) == Run(Init(ttl), es')
  {
    var pc := InsertRow(NewProposal(id, who, target, now, ttl), who);
    PutTwice(w, t, Preview(id, who), pc);
    es' := Then(ttl, es, Put(w, t, Preview(id, who)), PreviewAnswers(t, Some(target), now), Put(w, t, pc));
  }

  /** The two SQL steps of a propose call for a request id that is not stored. */
  lemma ProposeSteps(table: Table, row: Proposal, who: Identity)
    requires row.requestId != "" && HasContext(who) && row.requestId !in table
    ensures SqlStep(table, ProposeRead(row.requestId, who), 0) == (table, Preview(row.requestId, who))
    ensures SqlStep(table, InsertRow(row, who), 0) == (table[row.requestId := row], ProposeReread(row, who))
  {}

  lemma Proposes(ttl: int, es: seq<Event>, w: World, id: string, who: Identity, target: string, t: nat) returns (es': seq<Event>, w': World)
    requires w == Run(Init(ttl), es) && w.ttl == ttl && t !in w.threads && id !in w.table && id != "" && HasContext(who)
    ensures w' == Run(Init(ttl), es')
    ensures var row := NewProposal(id, who, target, 0, ttl);
            w' == Put(w, t, ProposeReread(row, who)).(table := w.table[id := row])
  {
    var row := NewProposal(id, who, target, 0, ttl);
    w' := Put(w, t, ProposeReread(row, who)).(table := w.table[id := row]);
    ProposeSteps(w.table, row, who);
    es' := Begins(ttl, es, w, t, ProposeRead(id, who));
    es' := Steps(ttl, es', w, t, ProposeRead(id, who), 0, w.table, Preview(id, who));
    es' := Previews(ttl, es', w, t, id, who, target, 0);
    es' := Steps(ttl, es', w, t, InsertRow(row, who), 0, w.table[id := row], ProposeReread(row, who));
  }

  predicate Claimable(w: World, id: string) {
    id in w.table && w.table[id].requestId == id && w.table[id].status == Proposed && w.table[id].expiresAt > 0
  }

  function Held(w: World, id: string): Proposal
    requires id in w.table
  {
    w.table[id].(status := Executing)
  }

  lemma Claims(ttl: int, es: seq<Event>, w: World, id: string, t: nat) returns (es': seq<Event>, w': World)
    requires w == Run(Init(ttl), es) && t !in w.threads && Claimable(w, id)
    ensures w' == Run(Init(ttl), es')
    ensures w' == Put(w, t, CallUndo(Held(w, id), w.table[id].owner, 0)).(table := w.table[id := Held(w, id)])
  {
    var who := w.table[id].owner;
    var pc0, pc1, pc2, pc3 := DecideRead(id, Confirm, who), ClaimUpdate(id, who, 0), ClaimCheck(id, who, 0), CallUndo(Held(w, id), who, 0);
    var claimed := w.table[id := Held(w, id)];
    es' := Begins(ttl, es, w, t, pc0);
    es' := Steps(ttl, es', w, t, pc0, 0, w.table, pc1);
    es' := Steps(ttl, es', w, t, pc1, 0, claimed, pc2);
    w' := Put(w, t, pc3).(table := claimed);
    es' := Steps(ttl, es', w.(table := claimed), t, pc2, 0, claimed, pc3);
  }

  /** The endpoint answers at once, from its record if it has one. */
  function Given(w: World, key: string, answer: Answer): Answer { if key in w.ledger then w.ledger[key] else answer }

  lemma Performs(ttl: int, es: seq<Event>, w: World, t: nat, answer: Answer) returns (es': seq<Event>, w': World)
    requires w == Run(Init(ttl), es) && t in w.threads && w.threads[t].CallUndo?
    ensures w' == Run(Init(ttl), es')
    ensures var CallUndo(holder, who, now) := w.threads[t];
            var call := Call(holder.requestId, holder.key, holder.target, who);
            w' == Put(Delivered(w.(calls := w.calls + [call]), call, answer), t,
                      ConfirmUpdate(holder.requestId, now, Given(w, holder.key, answer)))
  {
    var CallUndo(holder, who, now) := w.threads[t];
    var call := Call(holder.requestId, holder.key, holder.target, who);
    var pc1, pc2 := Waiting(holder, who, now), ConfirmUpdate(holder.requestId, now, Given(w, holder.key, answer));
    var w1 := Put(w, t, pc1).(calls := w.calls + [call]);
    es' := Then(ttl, es, w, SendUndo(t), w1);
    var w2 := Put(Delivered(w.(calls := w.calls + [call]), call, answer), t, pc1);
    es' := Then(ttl, es', w1, Deliver(|w.calls|, answer), w2);
    PutTwice(Delivered(w.(calls := w.calls + [call]), call, answer), t, pc1, pc2);
    w' := Put(Delivered(w.(calls := w.calls + [call]), call, answer), t, pc2);
    es' := Then(ttl, es', w2, UndoReturns(t), w');
  }

  lemma Settles(ttl: int, es: seq<Event>, w: World, t: nat) returns (es': seq<Event>, w': World)
    requires w == Run(Init(ttl), es) && t in w.threads && w.threads[t].ConfirmUpdate?
    requires w.threads[t].id in w.table && w.table[w.threads[t].id].status == Executing
    ensures w' == Run(Init(ttl), es')
    ensures var ConfirmUpdate(id, now, answer) := w.threads[t];
            var row := w.table[id].(status := Confirmed, decidedAt := Some(now), result := Some(Stringify(answer)));
            w' == Put(w, t, Done(ConfirmedReply(row, answer))).(table := w.table[id := row])
  {
    var ConfirmUpdate(id, now, answer) := w.threads[t];
    var row := w.table[id].(status := Confirmed, decidedAt := Some(now), result := Some(Stringify(answer)));
    var table := w.table[id := row];
    PutSame(w, t);
    es' := Steps(ttl, es, w, t, w.threads[t], now, table, ConfirmCheck(id, answer));
    w' := Put(w, t, Done(ConfirmedReply(row, answer))).(table := table);
    es' := Steps(ttl, es', w.(table := table), t, ConfirmCheck(id, answer), now, table, Done(ConfirmedReply(row, answer)));
  }

  lemma PutSame(w: World, t: nat)
    requires t in w.threads
    ensures Put(w, t, w.threads[t]) == w
  {
    assert w.threads[t := w.threads[t]] == w.threads;
  }

  function FinalRow(w: World, id: string, answer: Answer): Proposal
    requires id in w.table
  {
    var row := w.table[id];
    row.(status := Confirmed, decidedAt := Some(0), result := Some(Stringify(Given(w, row.key, answer))))
  }

  /** A proposal is confirmed by one undisturbed call. */
  lemma Confirms(ttl: int, es: seq<Event>, w: World, id: string, t: nat, answer: Answer) returns (es': seq<Event>, w': World)
    requires w == Run(Init(ttl), es) && t !in w.threads && Claimable(w, id)
    ensures w' == Run(Init(ttl), es') && w'.ttl == w.ttl
    ensures w'.table == w.table[id := FinalRow(w, id, answer)]
    ensures w'.threads == w.threads[t := Done(ConfirmedReply(FinalRow(w, id, answer), Given(w, w.table[id].key, answer)))]
    ensures var row := w.table[id];
            && w'.ledger == w.ledger[row.key := Given(w, row.key, answer)]
            && w'.effects == if row.key in w.ledger then w.effects else w.effects + [Effect(row.key, row.target)]
  {
    var w1, w2;
    es', w1 := Claims(ttl, es, w, id, t);
    es', w2 := Performs(ttl, es', w1, t, answer);
    es', w' := Settles(ttl, es', w2, t);
    assert w.table[id := Held(w, id)][id := FinalRow(w, id, answer)] == w.table[id := FinalRow(w, id, answer)];
  }

  /** One proposal, confirmed with a null answer, and a replay of that confirm by thread 2. */
  lemma NullRun(ttl: int) returns (es: seq<Event>)
    requires ttl > 0
    ensures RepliesDiffer(Run(Init(ttl), es), 1, 2, Nothing)
  {
    var who := Identity("w", "a", "d");
    var w1, w2;
    es, w1 := Proposes(ttl, [], Init(ttl), "r", who, "op", 0);
    es, w2 := Confirms(ttl, es, w1, "r", 1, Nothing);
    var final := FinalRow(w1, "r", Nothing);
    var pc1, pc2, pc3 := DecideRead("r", Confirm, who), ReplayRead(final), Done(ConfirmedReply(final, Value(OK_JSON)));
    es := Then(ttl, es, w2, Start(2, pc1), Put(w2, 2, pc1));
    PutTwice(w2, 2, pc1, pc2);
    es := Then(ttl, es, Put(w2, 2, pc1), Sql(2, 0), Put(w2, 2, pc2));
    PutTwice(w2, 2, pc2, pc3);
    es := Then(ttl, es, Put(w2, 2, pc2), Sql(2, 0), Put(w2, 2, pc3));
  }

  // ----- an effect that is never performed

  /** A confirmed proposal of a workspace whose target the endpoint never undid. */
  ghost predicate LosesItsEffect(w: World, workspace: string, id: string) {
    && id in w.table && w.table[id].owner.workspaceId == workspace
    && w.table[id].status == Confirmed && Effect(w.table[id].key, w.table[id].target) !in w.effects
  }

  ghost predicate CanLoseItsEffect(ttl: int, workspace: string, id: string) {
    exists es: seq<Event> :: LosesItsEffect(Run(Init(ttl), es), workspace, id)
  }

  /** Two accepted pairs with one key: the second is confirmed on the strength of the first one's effect. */
  lemma LosingRun(ttl: int, workspace: string, id: string, workspace': string, id': string) returns (es: seq<Event>)
    requires ttl > 0 && workspace != "" && id != "" && workspace' != "" && id' != ""
    requires id' != id && DeriveKey(workspace', id') == DeriveKey(workspace, id)
    ensures LosesItsEffect(Run(Init(ttl), es), workspace, id)
  {
    var w1, w2, w3, w4;
    es, w1 := Proposes(ttl, [], Init(ttl), id', Identity(workspace', "a", "d"), "first", 0);
    es, w2 := Confirms(ttl, es, w1, id', 1, Value(OK_JSON));
    es, w3 := Proposes(ttl, es, w2, id, Identity(workspace, "a", "d"), "second", 2);
    es, w4 := Confirms(ttl, es, w3, id, 3, Value(OK_JSON));
    var key := DeriveKey(workspace, id);
    assert w4.effects == [Effect(key, "first")];
    assert "first"[0] != "second"[0];
  }

  // The condition on keys is exact: a confirmed proposal can be left without its effect
  // if and only if its ids have an inner colon. Some other accepted pair then has its
  // key, and the endpoint answers from the record of that one.
  lemma EffectLostExactly(ttl: int, workspace: string, id: string)
    requires ttl > 0 && workspace != "" && id != ""
    ensures CanLoseItsEffect(ttl, workspace, id) <==> HasInnerColon(workspace, id)
  {
    KeyCollidesExactly(workspace, id);
    if HasInnerColon(workspace, id) {
      var workspace', id' :| workspace' != "" && id' != "" && (workspace', id') != (workspace, id)
                             && DeriveKey(workspace', id') == DeriveKey(workspace, id);
      if id' == id {
        KeyBody(workspace, id);
        KeyBody(workspace', id);
        PrefixCancels("undo:", workspace' + [':'] + id, workspace + [':'] + id);
        SuffixCancels(workspace', workspace, [':'], id);
      }
      var es := LosingRun(ttl, workspace, id, workspace', id');
    } else if CanLoseItsEffect(ttl, workspace, id) {
      var es: seq<Event> :| LosesItsEffect(Run(Init(ttl), es), workspace, id);
      OneEffectPerProposal(ttl, es, id);
    }
  }

  lemma SuffixCancels(a: string, b: string, p: string, q: string)
    requires a + p + q == b + p + q
    ensures a == b
  {
    assert |a| == |b|;
    assert a == (a + p + q)[..|a|] && b == (b + p + q)[..|b|];
  }

  // ----- branches the races never reach

  // A confirm whose claim missed finds the row in a final status on the next read: it
  // never meets the executing row its fallback was written for (and would answer with
  // a failure). A confirm whose effect succeeded never loses the terminal update.
  lemma FallbacksNeverTaken(ttl: int, es: seq<Event>, t: nat)
    requires t in Run(Init(ttl), es).threads
    ensures var w := Run(Init(ttl), es);
            && !w.threads[t].ConfirmReread?
            && (w.threads[t].ClaimReread? ==> w.threads[t].id in w.table && Final(w.table[w.threads[t].id].status))
  {
    ReachableInv(ttl, es);
    assert ThreadOk(Run(Init(ttl), es), Run(Init(ttl), es).threads[t]);
  }

  // The endpoint is only ever called for the identity that owns the proposal.
  lemma OnlyTheOwnerCalls(ttl: int, es: seq<Event>, call: Call)
    requires call in Run(Init(ttl), es).calls
    ensures var w := Run(Init(ttl), es);
            && call.proposal in w.table && w.table[call.proposal].owner == call.who
            && call.key == DeriveKey(call.who.workspaceId, call.proposal)
  {
    ReachableInv(ttl, es);
    var w := Run(Init(ttl), es);
    assert CallOk(w, call) && RowOk(w, call.proposal);
  }
}
