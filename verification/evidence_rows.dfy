/** What one row of the payload is read as, and what the envelope keeps of its fields. */
module EvidenceRows {
  import opened Common
  import opened Grounding
  import opened AccountEvidence

  // ----- rows

  function TextAt(row: Data, key: string): Option<string> {
    match Get(row, key)
    case Some(Str(s)) => Some(s)
    case _ => None
  }

  function NumberAt(row: Data, key: string): Option<real> {
    match Get(row, key)
    case Some(Num(n)) => Some(n)
    case _ => None
  }

  // The rows are the payload itself if it is a list, else its "accounts", else its "items".
  lemma RowsArePicked(result: Data)
    ensures PickRows(result) ==
              if result.Arr? then result.items
              else match Get(result, "accounts")
                   case Some(Arr(rows)) => rows
                   case _ => match Get(result, "items") case Some(Arr(rows)) => rows case _ => []
  {}

  // Cents are cut towards zero.
  lemma TruncatesTowardsZero(n: real)
    ensures n >= 0.0 ==> 0 <= Trunc(n) && Trunc(n) as real <= n < (Trunc(n) + 1) as real
    ensures n < 0.0 ==> Trunc(n) <= 0 && (Trunc(n) - 1) as real < n <= Trunc(n) as real
  {}

  // A row is usable exactly if it has a text for a name and a finite number for a balance;
  // "accountName" goes before "name", and "balanceCents" before "balance_cents" before
  // "balance". The account it becomes has its kind exactly if the row names one of three.
  lemma RowIsReadAs(row: Data, fold: string -> string)
    ensures IsUsable(row) <==>
              && (TextAt(row, "accountName").Some? || TextAt(row, "name").Some?)
              && (NumberAt(row, "balanceCents").Some? || NumberAt(row, "balance_cents").Some? || NumberAt(row, "balance").Some?)
    ensures IsUsable(row) ==>
              var a := RowAccount(row, fold);
              && Some(a.name) == (if TextAt(row, "accountName").Some? then TextAt(row, "accountName") else TextAt(row, "name"))
              && a.key == fold(a.name)
              && a.balanceCents == Trunc((if NumberAt(row, "balanceCents").Some? then NumberAt(row, "balanceCents")
                                          else if NumberAt(row, "balance_cents").Some? then NumberAt(row, "balance_cents")
                                          else NumberAt(row, "balance")).value)
              && (a.kind == Bank <==> Get(row, "kind") == Some(Str("bank")))
              && (a.kind == Cash <==> Get(row, "kind") == Some(Str("cash")))
              && (a.kind == CreditCard <==> Get(row, "kind") == Some(Str("credit_card")))
  {
    assert "bank"[0] == 'b' && "cash"[1] == 'a' && "credit_card"[1] == 'r' && "cash"[0] == 'c' && "credit_card"[0] == 'c';
  }

  lemma {:induction false} FilterMore<T(!new)>(xs: seq<T>, x: T, p: T -> bool)
    ensures Filter(xs + [x], p) == Filter(xs, p) + if p(x) then [x] else []
  {
    if xs == [] {
      assert [] + [x] == [x] && [x][1..] == [];
    } else {
      assert (xs + [x])[1..] == xs[1..] + [x];
      FilterMore(xs[1..], x, p);
    }
  }

  // The accounts are the usable rows, one for one and in order.
  lemma {:induction false} AccountsAreTheUsableRows(rows: seq<Data>, fold: string -> string)
    ensures var usable := Filter(rows, IsUsable);
            && |RowAccounts(rows, fold)| == |usable|
            && forall i :: 0 <= i < |usable| ==> IsUsable(usable[i]) && RowAccounts(rows, fold)[i] == RowAccount(usable[i], fold)
  {
    if rows != [] {
      var n := |rows| - 1;
      assert rows == rows[..n] + [rows[n]];
      AccountsAreTheUsableRows(rows[..n], fold);
      FilterMore(rows[..n], rows[n], IsUsable);
    }
  }

  // ----- the envelope

  const TECHNICAL := {"workspaceId", "actorId", "deviceId", "token", "accessToken", "authorization", "headers", "internalId", "id"}

  lemma TechnicalFieldsAre()
    ensures TECHNICAL == TECHNICAL_FIELDS
  {}

  lemma {:induction false} ProjectedIn(fields: seq<Field>, allowed: Option<seq<string>>, key: string)
    ensures GetIn(ProjectFields(fields, allowed), key) ==
              if !Kept(key, allowed) then None
              else match GetIn(fields, key) case Some(d) => Some(Project(d, allowed)) case None => None
  {
    if fields != [] {
      ProjectedIn(fields[1..], allowed, key);
      var rest := ProjectFields(fields[1..], allowed);
      var f := Field(fields[0].key, Project(fields[0].value, allowed));
      if Kept(fields[0].key, allowed) { assert ([f] + rest)[1..] == rest && ProjectFields(fields, allowed) == [f] + rest; }
      else { assert ProjectFields(fields, allowed) == [] + rest == rest; }
    }
  }

  /** Nothing technical at any depth. */
  predicate Clean(d: Data) {
    match d
    case Arr(items) => forall i :: 0 <= i < |items| ==> Clean(items[i])
    case Obj(fields) => forall i :: 0 <= i < |fields| ==> fields[i].key !in TECHNICAL && Clean(fields[i].value)
    case _ => true
  }

  // The envelope keeps no technical field at any depth, and of an object it keeps every
  // other field it is allowed to, projected the same way.
  lemma ProjectionKeeps(d: Data, allowed: Option<seq<string>>, key: string)
    ensures Clean(Project(d, allowed))
    ensures Get(Project(d, allowed), key) ==
              if key in TECHNICAL || (allowed.Some? && key !in allowed.value) then None
              else match Get(d, key) case Some(v) => Some(Project(v, allowed)) case None => None
  {
    TechnicalFieldsAre();
    ProjectedIsClean(d, allowed);
    if d.Obj? { ProjectedIn(d.fields, allowed, key); }
  }

  lemma {:induction false} ProjectedIsClean(d: Data, allowed: Option<seq<string>>)
    ensures Clean(Project(d, allowed))
    decreases d, 1
  {
    match d
    case Arr(items) => ProjectedAllClean(items, allowed);
    case Obj(fields) =>
      ProjectedFieldsClean(fields, allowed);
      var kept := ProjectFields(fields, allowed);
      assert forall i :: 0 <= i < |kept| ==> kept[i] in kept;
    case _ =>
  }

  lemma {:induction false} ProjectedAllClean(items: seq<Data>, allowed: Option<seq<string>>)
    ensures var r := ProjectAll(items, allowed); |r| == |items| && forall i :: 0 <= i < |r| ==> Clean(r[i])
    decreases items, 0
  {
    if items != [] {
      ProjectedIsClean(items[0], allowed);
      ProjectedAllClean(items[1..], allowed);
    }
  }

  lemma {:induction false} ProjectedFieldsClean(fields: seq<Field>, allowed: Option<seq<string>>)
    ensures forall f :: f in ProjectFields(fields, allowed) ==> f.key !in TECHNICAL && Clean(f.value)
    decreases fields, 0
  {
    if fields != [] {
      ProjectedIsClean(fields[0].value, allowed);
      ProjectedFieldsClean(fields[1..], allowed);
      TechnicalFieldsAre();
      var f := Field(fields[0].key, Project(fields[0].value, allowed));
      assert ProjectFields(fields, allowed) == (if Kept(fields[0].key, allowed) then [f] else []) + ProjectFields(fields[1..], allowed);
    }
  }

  // An envelope is made exactly if every item names itself, its source and a time, and the
  // projected items take at most 10 000 bytes. Items keep what they are; one without a
  // status is empty exactly if it has no data.
  lemma EnvelopeExactly(items: seq<Item>, allowed: Option<seq<string>>, bytes: seq<Item> -> nat)
    ensures var e := CreateEnvelope(items, allowed, bytes);
            && (e.Envelope? <==>
                  && (forall item :: item in items ==> item.ref != "" && item.source != "" && item.retrievedAt.Some?)
                  && bytes(SealedAll(items, allowed)) <= 10000)
            && (e == Invalid <==> exists item :: item in items && (item.ref == "" || item.source == "" || item.retrievedAt.None?))
            && (e.Envelope? ==>
                  && |e.items| == |items|
                  && forall i :: 0 <= i < |items| ==>
                       && e.items[i].(status := items[i].status, data := items[i].data) == items[i]
                       && e.items[i].status == (if items[i].status.Some? then items[i].status
                                                else Some(if items[i].data == Null then Empty else Ok))
                       && e.items[i].data == Project(items[i].data, allowed))
  {}
}
