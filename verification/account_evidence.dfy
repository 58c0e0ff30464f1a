/**
 * From the accounts payload of the API to the evidence an answer is grounded in: rows
 * are mapped to evidence items, the items pass through an envelope that drops technical
 * fields, and the accounts are extracted again.
 */
module AccountEvidence {
  import opened Common
  import opened Grounding

  // ----- payloads

  datatype Field = Field(key: string, value: Data)

  /** A value of a payload; a number too large to be finite is told apart. */
  datatype Data = Null | Bool(b: bool) | Num(n: real) | NotFinite | Str(s: string) | Arr(items: seq<Data>) | Obj(fields: seq<Field>)

  /** A property of an object; anything else has none. */
  function Get(d: Data, key: string): Option<Data> {
    if d.Obj? then GetIn(d.fields, key) else None
  }

  function GetIn(fields: seq<Field>, key: string): Option<Data> {
    if fields == [] then None
    else if fields[0].key == key then Some(fields[0].value)
    else GetIn(fields[1..], key)
  }

  /** Math.trunc */
  function Trunc(n: real): int { if n >= 0.0 then n.Floor else -((-n).Floor) }

  // ----- which reads a turn makes

  datatype ReadKind = Accounts | Transactions | MonthSummary | Statements | Payables | Budgets | Goals | Categories

  const MAX_EVIDENCE_READS: nat := 2

  /** A planned operation, with the read its name stands for. */
  datatype Operation = Operation(isRead: bool, target: Option<ReadKind>)

  /** The first two distinct kinds among the targets, in order. */
  function FirstDistinct(ops: seq<Operation>, selected: seq<ReadKind>): seq<ReadKind> {
    if ops == [] || |selected| >= MAX_EVIDENCE_READS then selected
    else if ops[0].isRead && ops[0].target.Some? && ops[0].target.value !in selected then
      FirstDistinct(ops[1..], selected + [ops[0].target.value])
    else FirstDistinct(ops[1..], selected)
  }

  method SelectReads(ops: seq<Operation>, fallback: Option<ReadKind>) returns (selected: seq<ReadKind>)
    ensures selected == FirstDistinct(ops + [Operation(true, fallback)], [])
  {
    selected := [];
    var i := 0;
    ghost var all := ops + [Operation(true, fallback)];
    while i < |ops|
      invariant i <= |ops| && |selected| < MAX_EVIDENCE_READS
      invariant FirstDistinct(all[i..], selected) == FirstDistinct(all, [])
    {
      var op := ops[i];
      assert all[i..][0] == op && all[i..][1..] == all[i + 1..];
      i := i + 1;
      if !op.isRead { continue; }
      if op.target.Some? && op.target.value !in selected { selected := selected + [op.target.value]; }
      if |selected| >= MAX_EVIDENCE_READS { return; }
    }
    assert all[i..] == [Operation(true, fallback)];
    if fallback.Some? && fallback.value !in selected && |selected| < MAX_EVIDENCE_READS {
      selected := selected + [fallback.value];
    }
  }

  predicate Distinct(kinds: seq<ReadKind>) { forall i, j :: 0 <= i < j < |kinds| ==> kinds[i] != kinds[j] }

  /** One of the operations before position i is a read of this kind. */
  ghost predicate AskedBefore(ops: seq<Operation>, i: nat, kind: ReadKind)
    requires i <= |ops|
  {
    exists j :: 0 <= j < i && ops[j] == Operation(true, Some(kind))
  }

  lemma AskedLater(ops: seq<Operation>, i: nat, kind: ReadKind)
    requires 0 < i <= |ops| && AskedBefore(ops[1..], i - 1, kind)
    ensures AskedBefore(ops, i, kind)
  {
    var j :| 0 <= j < i - 1 && ops[1..][j] == Operation(true, Some(kind));
    assert ops[j + 1] == Operation(true, Some(kind));
  }

  lemma {:induction false} KindsFrom(ops: seq<Operation>, selected: seq<ReadKind>, i: nat)
    requires Distinct(selected) && |selected| <= MAX_EVIDENCE_READS && i <= |ops|
    ensures var r := FirstDistinct(ops, selected);
            && Distinct(r) && selected <= r && |r| <= MAX_EVIDENCE_READS
            && (i == |ops| || (ops[i].isRead && ops[i].target.Some? && ops[i].target.value !in r) ==>
                  && (i < |ops| ==> |r| == MAX_EVIDENCE_READS)
                  && forall kind :: kind in r ==> kind in selected || AskedBefore(ops, i, kind))
  {
    if ops != [] && |selected| < MAX_EVIDENCE_READS {
      var asked := ops[0].isRead && ops[0].target.Some? && ops[0].target.value !in selected;
      var next := if asked then selected + [ops[0].target.value] else selected;
      if i > 0 {
        KindsFrom(ops[1..], next, i - 1);
        forall kind | AskedBefore(ops[1..], i - 1, kind) ensures AskedBefore(ops, i, kind) { AskedLater(ops, i, kind); }
        if asked { assert ops[0] == Operation(true, Some(ops[0].target.value)); }
      } else {
        KindsFrom(ops[1..], next, |ops| - 1);
      }
    }
  }

  // At most two reads, no kind twice, and each asked for by some operation. A kind that an
  // operation asks for is left out only when two kinds that are read were asked for
  // before that operation.
  lemma FirstTwoKinds(ops: seq<Operation>, i: nat)
    requires i < |ops| && ops[i].isRead && ops[i].target.Some?
    ensures var r := FirstDistinct(ops, []);
            && Distinct(r) && |r| <= MAX_EVIDENCE_READS && (forall kind :: kind in r ==> AskedBefore(ops, |ops|, kind))
            && (ops[i].target.value in r
                || (|r| == MAX_EVIDENCE_READS && forall kind :: kind in r ==> AskedBefore(ops, i, kind)))
  {
    KindsFrom(ops, [], |ops|);
    KindsFrom(ops, [], i);
  }

  // ----- rows to evidence items

  datatype Status = Ok | Empty | Error

  /** An evidence item; a time that does not parse is None. */
  datatype Item = Item(ref: string, source: string, retrievedAt: Option<int>, status: Option<Status>, data: Data)

  const ACCOUNTS_SOURCE := "api.accounts"
  const INCOMPLETE_REF := "accounts:incomplete"
  const ACCOUNT_PREFIX := "account:"

  function PickRows(result: Data): seq<Data> {
    if result.Arr? then result.items
    else
      match Get(result, "accounts")
      case Some(Arr(rows)) => rows
      case _ =>
        match Get(result, "items")
        case Some(Arr(rows)) => rows
        case _ => []
  }

  function AsText(d: Option<Data>): Option<string> {
    if d.Some? && d.value.Str? then Some(d.value.s) else None
  }

  function ToCents(d: Option<Data>): Option<int> {
    if d.Some? && d.value.Num? then Some(Trunc(d.value.n)) else None
  }

  function RowName(row: Data): Option<string> {
    OrElse(AsText(Get(row, "accountName")), AsText(Get(row, "name")))
  }

  function RowCents(row: Data): Option<int> {
    OrElse(OrElse(ToCents(Get(row, "balanceCents")), ToCents(Get(row, "balance_cents"))), ToCents(Get(row, "balance")))
  }

  predicate IsKnownKind(s: string) { s == "bank" || s == "cash" || s == "credit_card" }

  function RowKind(row: Data): Option<string> {
    var kind := AsText(Get(row, "kind"));
    if kind.Some? && IsKnownKind(kind.value) then kind else None
  }

  predicate IsUsable(row: Data) { RowName(row).Some? && RowCents(row).Some? }

  function KindField(kind: Option<string>): seq<Field> {
    if kind.Some? then [Field("kind", Str(kind.value))] else []
  }

  function AccountData(name: string, cents: int, kind: Option<string>): Data {
    Obj([Field("accountName", Str(name))] + ([Field("balanceCents", Num(cents as real))] + KindField(kind)))
  }

  function AccountItem(row: Data, now: int): Item
    requires IsUsable(row)
  {
    var id := AsText(Get(row, "id"));
    Item(ACCOUNT_PREFIX + (if id.Some? then id.value else RowName(row).value), ACCOUNTS_SOURCE, Some(now), Some(Ok),
         AccountData(RowName(row).value, RowCents(row).value, RowKind(row)))
  }

  function AccountItems(rows: seq<Data>, now: int): seq<Item> {
    if rows == [] then []
    else
      var last := rows[|rows| - 1];
      var front := AccountItems(rows[..|rows| - 1], now);
      if IsUsable(last) then front + [AccountItem(last, now)] else front
  }

  function Unusable(rows: seq<Data>): (n: nat)
    ensures n <= |rows|
  {
    if rows == [] then 0 else Unusable(rows[..|rows| - 1]) + if IsUsable(rows[|rows| - 1]) then 0 else 1
  }

  function IncompleteItem(omitted: nat, now: int): Item {
    Item(INCOMPLETE_REF, ACCOUNTS_SOURCE, Some(now), Some(Ok),
         Obj([Field("incomplete", Bool(true)), Field("omittedCount", Num(omitted as real))]))
  }

  function MappedAccounts(result: Data, now: int): seq<Item> {
    var rows := PickRows(result);
    if rows == [] then [Item("accounts", ACCOUNTS_SOURCE, Some(now), Some(Empty), Arr([]))]
    else if AccountItems(rows, now) == [] then [Item("accounts", ACCOUNTS_SOURCE, Some(now), Some(Error), Null)]
    else AccountItems(rows, now) + if Unusable(rows) > 0 then [IncompleteItem(Unusable(rows), now)] else []
  }

  lemma OneRowMore(rows: seq<Data>, i: nat, now: int)
    requires i < |rows|
    ensures AccountItems(rows[..i + 1], now) ==
              if IsUsable(rows[i]) then AccountItems(rows[..i], now) + [AccountItem(rows[i], now)] else AccountItems(rows[..i], now)
    ensures Unusable(rows[..i + 1]) == Unusable(rows[..i]) + if IsUsable(rows[i]) then 0 else 1
  {
    assert rows[..i + 1][..i] == rows[..i];
  }

  method MapAccounts(result: Data, now: int) returns (items: seq<Item>)
    ensures items == MappedAccounts(result, now)
  {
    var rows := PickRows(result);
    if |rows| == 0 { return [Item("accounts", ACCOUNTS_SOURCE, Some(now), Some(Empty), Arr([]))]; }
    items := [];
    var omittedCount := 0;
    var i := 0;
    while i < |rows|
      invariant i <= |rows|
      invariant items == AccountItems(rows[..i], now) && omittedCount == Unusable(rows[..i])
    {
      var row := rows[i];
      OneRowMore(rows, i, now);
      i := i + 1;
      if RowName(row).None? || RowCents(row).None? {
        omittedCount := omittedCount + 1;
        continue;
      }
      items := items + [AccountItem(row, now)];
    }
    assert rows[..i] == rows;
    if |items| == 0 { return [Item("accounts", ACCOUNTS_SOURCE, Some(now), Some(Error), Null)]; }
    if omittedCount > 0 { items := items + [IncompleteItem(omittedCount, now)]; }
  }

  // ----- the envelope

  const MAX_PAYLOAD_BYTES: nat := 10000
  const TECHNICAL_FIELDS: set<string> :=
    {"workspaceId", "actorId", "deviceId", "token", "accessToken", "authorization", "headers", "internalId", "id"}

  predicate Kept(key: string, allowed: Option<seq<string>>) {
    key !in TECHNICAL_FIELDS && (allowed.Some? ==> key in allowed.value)
  }

  function Project(d: Data, allowed: Option<seq<string>>): Data {
    match d
    case Arr(items) => Arr(ProjectAll(items, allowed))
    case Obj(fields) => Obj(ProjectFields(fields, allowed))
    case _ => d
  }

  function ProjectAll(items: seq<Data>, allowed: Option<seq<string>>): seq<Data> {
    if items == [] then [] else [Project(items[0], allowed)] + ProjectAll(items[1..], allowed)
  }

  function ProjectFields(fields: seq<Field>, allowed: Option<seq<string>>): seq<Field> {
    if fields == [] then []
    else
      (if Kept(fields[0].key, allowed) then [Field(fields[0].key, Project(fields[0].value, allowed))] else [])
      + ProjectFields(fields[1..], allowed)
  }

  function Map<A, B>(f: A -> B, xs: seq<A>): (ys: seq<B>)
    ensures |ys| == |xs| && forall i :: 0 <= i < |xs| ==> ys[i] == f(xs[i])
  {
    if xs == [] then [] else [f(xs[0])] + Map(f, xs[1..])
  }

  lemma MapJoin<A, B>(f: A -> B, a: seq<A>, b: seq<A>)
    ensures Map(f, a + b) == Map(f, a) + Map(f, b)
  {}

  datatype Envelope = Envelope(items: seq<Item>) | Invalid | TooLarge

  predicate WellFormed(item: Item) { item.ref != [] && item.source != [] && item.retrievedAt.Some? }

  function Sealed(item: Item, allowed: Option<seq<string>>): Item {
    item.(status := if item.status.Some? then item.status else Some(if item.data == Null then Empty else Ok),
          data := Project(item.data, allowed))
  }

  function SealedAll(items: seq<Item>, allowed: Option<seq<string>>): seq<Item> {
    Map((item: Item) => Sealed(item, allowed), items)
  }

  /** bytes is the encoded size of an envelope with the given items. */
  function CreateEnvelope(items: seq<Item>, allowed: Option<seq<string>>, bytes: seq<Item> -> nat): Envelope {
    if exists item :: item in items && !WellFormed(item) then Invalid
    else if bytes(SealedAll(items, allowed)) > MAX_PAYLOAD_BYTES then TooLarge
    else Envelope(SealedAll(items, allowed))
  }

  // ----- extraction

  function NormalizeKind(d: Option<Data>): AccountKind {
    match AsText(d)
    case Some(s) => if s == "bank" then Bank else if s == "cash" then Cash else if s == "credit_card" then CreditCard else Unknown
    case None => Unknown
  }

  function MarkedOmitted(d: Data): nat {
    var omitted := ToCents(Get(d, "omittedCount"));
    if omitted.Some? && omitted.value > 0 then omitted.value else 0
  }

  predicate IsNumber(d: Option<Data>) { d.Some? && (d.value.Num? || d.value.NotFinite?) }

  predicate Carries(d: Data) { AsText(Get(d, "accountName")).Some? && IsNumber(Get(d, "balanceCents")) }

  /** An account as extracted; its balance is None when it is a number but not a finite one. */
  datatype Found = Found(name: string, key: string, kind: AccountKind, balance: Option<int>)

  datatype FoundEvidence = FoundEvidence(accounts: seq<Found>, omittedCount: nat, partial: bool)

  function ExtractedAccount(d: Data, fold: string -> string): Found
    requires Carries(d)
  {
    var name := AsText(Get(d, "accountName")).value;
    Found(name, fold(name), NormalizeKind(Get(d, "kind")), ToCents(Get(d, "balanceCents")))
  }

  /** What one item adds to the evidence. */
  datatype Part = Skipped | Marker(omitted: nat) | Broken | Row(account: Found)

  function PartOf(item: Item, fold: string -> string): Part {
    if item.source != ACCOUNTS_SOURCE || item.status != Some(Ok) then Skipped
    else if item.ref == INCOMPLETE_REF then Marker(MarkedOmitted(item.data))
    else if Carries(item.data) then Row(ExtractedAccount(item.data, fold))
    else Broken
  }

  function Parts(items: seq<Item>, fold: string -> string): seq<Part> {
    Map((item: Item) => PartOf(item, fold), items)
  }

  function AccountsIn(parts: seq<Part>): seq<Found> {
    if parts == [] then [] else AccountsIn(parts[..|parts| - 1]) + (if parts[|parts| - 1].Row? then [parts[|parts| - 1].account] else [])
  }

  function OmittedBy(p: Part): nat {
    match p
    case Marker(n) => n
    case Broken => 1
    case _ => 0
  }

  function OmittedIn(parts: seq<Part>): nat {
    if parts == [] then 0 else OmittedIn(parts[..|parts| - 1]) + OmittedBy(parts[|parts| - 1])
  }

  predicate Seen(parts: seq<Part>) { exists i :: 0 <= i < |parts| && !parts[i].Skipped? }

  function Combined(parts: seq<Part>): Option<FoundEvidence> {
    if !Seen(parts) then None else Some(FoundEvidence(AccountsIn(parts), OmittedIn(parts), OmittedIn(parts) > 0))
  }

  function Extracted(items: seq<Item>, fold: string -> string): Option<FoundEvidence> { Combined(Parts(items, fold)) }

  lemma OnePartMore(parts: seq<Part>, i: nat)
    requires i < |parts|
    ensures AccountsIn(parts[..i + 1]) == AccountsIn(parts[..i]) + if parts[i].Row? then [parts[i].account] else []
    ensures OmittedIn(parts[..i + 1]) == OmittedIn(parts[..i]) + OmittedBy(parts[i])
    ensures Seen(parts[..i + 1]) <==> Seen(parts[..i]) || !parts[i].Skipped?
  {
    var more := parts[..i + 1];
    assert more[..i] == parts[..i] && more[i] == parts[i];
    assert more == parts[..i] + [parts[i]];
    assert forall k :: 0 <= k < i ==> more[k] == parts[..i][k];
  }

  method ExtractAccountsEvidence(items: seq<Item>, fold: string -> string) returns (evidence: Option<FoundEvidence>)
    ensures evidence == Extracted(items, fold)
  {
    var accounts, omittedCount, seen := [], 0, false;
    ghost var parts := Parts(items, fold);
    var i := 0;
    while i < |items|
      invariant i <= |items|
      invariant accounts == AccountsIn(parts[..i]) && omittedCount == OmittedIn(parts[..i]) && (seen <==> Seen(parts[..i]))
    {
      var item := items[i];
      OnePartMore(parts, i);
      i := i + 1;
      if item.source != ACCOUNTS_SOURCE { continue; }
      if item.ref == INCOMPLETE_REF && item.status == Some(Ok) {
        omittedCount := omittedCount + MarkedOmitted(item.data);
        seen := true;
        continue;
      }
      if item.status != Some(Ok) { continue; }
      seen := true;
      if !Carries(item.data) {
        omittedCount := omittedCount + 1;
        continue;
      }
      accounts := accounts + [ExtractedAccount(item.data, fold)];
    }
    assert parts[..i] == parts;
    if !seen { return None; }
    evidence := Some(FoundEvidence(accounts, omittedCount, omittedCount > 0));
  }

  // ----- nothing is lost on the way

  /** What a usable row is to become. */
  function RowAccount(row: Data, fold: string -> string): Account
    requires IsUsable(row)
  {
    var name := RowName(row).value;
    Account(name, fold(name), NormalizeKind(Get(row, "kind")), RowCents(row).value)
  }

  function RowAccounts(rows: seq<Data>, fold: string -> string): seq<Account> {
    if rows == [] then []
    else
      var last := rows[|rows| - 1];
      var front := RowAccounts(rows[..|rows| - 1], fold);
      if IsUsable(last) then front + [RowAccount(last, fold)] else front
  }

  /** An account with a finite balance, as extraction finds it. */
  function AsFound(a: Account): Found { Found(a.name, a.key, a.kind, Some(a.balanceCents)) }

  function AllFound(accounts: seq<Account>): seq<Found> { Map(AsFound, accounts) }

  predicate AllFinite(accounts: seq<Found>) { forall a :: a in accounts ==> a.balance.Some? }

  /** The accounts found, when every balance is finite. */
  function Known(accounts: seq<Found>): (r: seq<Account>)
    requires AllFinite(accounts)
    ensures AllFound(r) == accounts
  {
    if accounts == [] then []
    else
      var a := accounts[0];
      [Account(a.name, a.key, a.kind, a.balance.value)] + Known(accounts[1..])
  }

  lemma {:induction false} KnownOfFound(accounts: seq<Account>)
    ensures AllFinite(AllFound(accounts)) && Known(AllFound(accounts)) == accounts
  {
    if accounts != [] {
      KnownOfFound(accounts[1..]);
      assert AllFound(accounts)[1..] == AllFound(accounts[1..]);
    }
  }

  lemma TruncOfInt(n: int)
    ensures Trunc(n as real) == n
  {}

  lemma {:induction false} EveryRowCounted(rows: seq<Data>, fold: string -> string)
    ensures |RowAccounts(rows, fold)| + Unusable(rows) == |rows|
  {
    if rows != [] { EveryRowCounted(rows[..|rows| - 1], fold); }
  }

  /** Account references differ from the marker's at their eighth character. */
  lemma ReferenceIsNoMarker(suffix: string)
    ensures ACCOUNT_PREFIX + suffix != INCOMPLETE_REF
  {
    assert (ACCOUNT_PREFIX + suffix)[7] == ':' && INCOMPLETE_REF[7] == 's';
  }

  lemma FirstField(f: Field, rest: seq<Field>, key: string)
    ensures GetIn([f] + rest, key) == if f.key == key then Some(f.value) else GetIn(rest, key)
    ensures ProjectFields([f] + rest, None) ==
              (if Kept(f.key, None) then [Field(f.key, Project(f.value, None))] else []) + ProjectFields(rest, None)
  {
    assert ([f] + rest)[1..] == rest;
  }

  lemma AccountDataIsKept(name: string, cents: int, kind: Option<string>)
    ensures Project(AccountData(name, cents, kind), None) == AccountData(name, cents, kind)
  {
    var first, second := Field("accountName", Str(name)), Field("balanceCents", Num(cents as real));
    FirstField(first, [second] + KindField(kind), "");
    FirstField(second, KindField(kind), "");
    if kind.Some? { FirstField(Field("kind", Str(kind.value)), [], ""); }
  }

  /** The kind as it travels: absent unless it is a known one. */
  function Travelled(kind: Option<string>): AccountKind { NormalizeKind(if kind.Some? then Some(Str(kind.value)) else None) }

  lemma AccountFields(name: string, cents: int, kind: Option<string>)
    ensures var d := AccountData(name, cents, kind);
            && Get(d, "accountName") == Some(Str(name))
            && Get(d, "balanceCents") == Some(Num(cents as real))
            && Get(d, "kind") == if kind.Some? then Some(Str(kind.value)) else None
  {
    var first, second := Field("accountName", Str(name)), Field("balanceCents", Num(cents as real));
    KeysDiffer();
    FirstField(first, [second] + KindField(kind), "accountName");
    FirstField(first, [second] + KindField(kind), "balanceCents");
    FirstField(first, [second] + KindField(kind), "kind");
    FirstField(second, KindField(kind), "balanceCents");
    FirstField(second, KindField(kind), "kind");
  }

  lemma AccountDataCarries(name: string, cents: int, kind: Option<string>, fold: string -> string)
    ensures var d := AccountData(name, cents, kind);
            Carries(d) && ExtractedAccount(d, fold) == AsFound(Account(name, fold(name), Travelled(kind), cents))
  {
    AccountFields(name, cents, kind);
    TruncOfInt(cents);
  }

  lemma KeysDiffer()
    ensures "accountName" != "balanceCents" && "accountName" != "kind" && "balanceCents" != "kind"
  {
    assert "accountName"[0] != "balanceCents"[0] && "accountName"[0] != "kind"[0] && "balanceCents"[0] != "kind"[0];
  }

  lemma RowKindIsNormal(row: Data)
    ensures NormalizeKind(Get(row, "kind")) == Travelled(RowKind(row))
  {}

  lemma RowSurvives(row: Data, now: int, fold: string -> string)
    requires IsUsable(row)
    ensures PartOf(Sealed(AccountItem(row, now), None), fold) == Row(AsFound(RowAccount(row, fold)))
  {
    var item := AccountItem(row, now);
    ReferenceIsNoMarker(item.ref[|ACCOUNT_PREFIX|..]);
    assert item.ref == ACCOUNT_PREFIX + item.ref[|ACCOUNT_PREFIX|..];
    AccountDataIsKept(RowName(row).value, RowCents(row).value, RowKind(row));
    AccountDataCarries(RowName(row).value, RowCents(row).value, RowKind(row), fold);
    RowKindIsNormal(row);
  }

  /** Parts of an envelope's items. */
  function SealedParts(items: seq<Item>, fold: string -> string): seq<Part> { Parts(SealedAll(items, None), fold) }

  lemma PartsJoin(a: seq<Item>, b: seq<Item>, fold: string -> string)
    ensures SealedParts(a + b, fold) == SealedParts(a, fold) + SealedParts(b, fold)
  {
    MapJoin((item: Item) => Sealed(item, None), a, b);
    MapJoin((item: Item) => PartOf(item, fold), SealedAll(a, None), SealedAll(b, None));
  }

  lemma PartsOfOne(item: Item, fold: string -> string)
    ensures SealedParts([item], fold) == [PartOf(Sealed(item, None), fold)]
  {}

  /** What a stretch of parts adds up to. */
  ghost predicate AddsUpTo(parts: seq<Part>, accounts: seq<Found>, omitted: nat, seen: bool) {
    AccountsIn(parts) == accounts && OmittedIn(parts) == omitted && Seen(parts) == seen
  }

  lemma LastPart(parts: seq<Part>, p: Part)
    ensures AddsUpTo(parts + [p], if p.Row? then AccountsIn(parts) + [p.account] else AccountsIn(parts),
                     OmittedIn(parts) + OmittedBy(p), Seen(parts) || !p.Skipped?)
  {
    var more := parts + [p];
    assert more[..|parts|] == parts && more[..|more|] == more && more[|parts|] == p;
    OnePartMore(more, |parts|);
  }

  /** Two stretches add up to what each of them adds up to. */
  ghost predicate Joins(a: seq<Part>, b: seq<Part>) {
    AddsUpTo(a + b, AccountsIn(a) + AccountsIn(b), OmittedIn(a) + OmittedIn(b), Seen(a) || Seen(b))
  }

  lemma OneMoreJoins(both: seq<Part>, accounts: seq<Found>, omitted: nat, seen: bool, front: seq<Part>, last: Part)
    requires AddsUpTo(both, accounts + AccountsIn(front), omitted + OmittedIn(front), seen || Seen(front))
    ensures var more := front + [last];
            AddsUpTo(both + [last], accounts + AccountsIn(more), omitted + OmittedIn(more), seen || Seen(more))
  {
    LastPart(both, last);
    LastPart(front, last);
  }

  lemma {:induction false} JoinedParts(a: seq<Part>, b: seq<Part>)
    ensures Joins(a, b)
  {
    if b == [] {
      assert a + b == a;
    } else {
      var front, last := b[..|b| - 1], b[|b| - 1];
      JoinedParts(a, front);
      OneMoreJoins(a + front, AccountsIn(a), OmittedIn(a), Seen(a), front, last);
      assert front + [last] == b && (a + front) + [last] == a + b;
    }
  }

  lemma {:induction false} RowsAddUp(rows: seq<Data>, now: int, fold: string -> string)
    ensures AddsUpTo(SealedParts(AccountItems(rows, now), fold), AllFound(RowAccounts(rows, fold)), 0, RowAccounts(rows, fold) != [])
  {
    if rows != [] {
      var front, last := rows[..|rows| - 1], rows[|rows| - 1];
      RowsAddUp(front, now, fold);
      if IsUsable(last) {
        OneRowAdds(AccountItems(front, now), last, now, fold);
        MapJoin(AsFound, RowAccounts(front, fold), [RowAccount(last, fold)]);
      }
    }
  }

  lemma OneRowAdds(items: seq<Item>, row: Data, now: int, fold: string -> string)
    requires IsUsable(row)
    ensures var parts := SealedParts(items, fold);
            AddsUpTo(SealedParts(items + [AccountItem(row, now)], fold), AccountsIn(parts) + [AsFound(RowAccount(row, fold))], OmittedIn(parts), true)
  {
    var item := AccountItem(row, now);
    RowSurvives(row, now, fold);
    PartsJoin(items, [item], fold);
    PartsOfOne(item, fold);
    OnePart(Row(AsFound(RowAccount(row, fold))));
    JoinedParts(SealedParts(items, fold), [Row(AsFound(RowAccount(row, fold)))]);
  }

  lemma OnePart(p: Part)
    ensures AddsUpTo([p], if p.Row? then [p.account] else [], OmittedBy(p), !p.Skipped?)
  {
    assert [p][..0] == [] && [p][0] == p;
  }

  lemma {:induction false} OthersAddNothing(items: seq<Item>, fold: string -> string)
    requires forall item :: item in items ==> item.source != ACCOUNTS_SOURCE || item.status in {Some(Empty), Some(Error)}
    ensures AddsUpTo(SealedParts(items, fold), [], 0, false)
  {
    if items != [] {
      var front, last := items[..|items| - 1], items[|items| - 1];
      assert items == front + [last];
      OthersAddNothing(front, fold);
      PartsJoin(front, [last], fold);
      PartsOfOne(last, fold);
      OnePart(Skipped);
      JoinedParts(SealedParts(front, fold), [Skipped]);
    }
  }

  lemma MarkerSurvives(omitted: nat, now: int, fold: string -> string)
    ensures SealedParts([IncompleteItem(omitted, now)], fold) == [Marker(omitted)]
  {
    var first, second := Field("incomplete", Bool(true)), Field("omittedCount", Num(omitted as real));
    var d := IncompleteItem(omitted, now).data;
    assert d.fields == [first] + ([second] + []);
    FirstField(first, [second] + [], "omittedCount");
    FirstField(second, [], "omittedCount");
    TruncOfInt(omitted);
    assert "incomplete"[0] != "omittedCount"[0];
  }

  lemma MappedAddsUp(result: Data, now: int, fold: string -> string)
    ensures var rows := PickRows(result);
            var accounts := RowAccounts(rows, fold);
            AddsUpTo(SealedParts(MappedAccounts(result, now), fold), AllFound(accounts), if accounts == [] then 0 else Unusable(rows), accounts != [])
  {
    var rows := PickRows(result);
    var items := AccountItems(rows, now);
    RowsAddUp(rows, now, fold);
    SameEmptiness(rows, now, fold);
    if items == [] {
      OthersAddNothing(MappedAccounts(result, now), fold);
    } else if Unusable(rows) > 0 {
      var marker := IncompleteItem(Unusable(rows), now);
      MarkerSurvives(Unusable(rows), now, fold);
      OnePart(Marker(Unusable(rows)));
      PartsJoin(items, [marker], fold);
      JoinedParts(SealedParts(items, fold), [Marker(Unusable(rows))]);
    } else {
      assert items + [] == items;
    }
  }

  lemma {:induction false} SameEmptiness(rows: seq<Data>, now: int, fold: string -> string)
    ensures |AccountItems(rows, now)| == |RowAccounts(rows, fold)|
  {
    if rows != [] { SameEmptiness(rows[..|rows| - 1], now, fold); }
  }

  lemma AmongOthers(before: seq<Item>, mapped: seq<Item>, after: seq<Item>, fold: string -> string)
    requires forall item :: item in before + after ==> item.source != ACCOUNTS_SOURCE
    ensures var parts := SealedParts(mapped, fold);
            AddsUpTo(SealedParts(before + mapped + after, fold), AccountsIn(parts), OmittedIn(parts), Seen(parts))
  {
    assert forall item :: item in before ==> item in before + after;
    assert forall item :: item in after ==> item in before + after;
    OthersAddNothing(before, fold);
    OthersAddNothing(after, fold);
    PartsJoin(before, mapped, fold);
    PartsJoin(before + mapped, after, fold);
    JoinedParts(SealedParts(before, fold), SealedParts(mapped, fold));
    JoinedParts(SealedParts(before + mapped, fold), SealedParts(after, fold));
    assert [] + AccountsIn(SealedParts(mapped, fold)) + [] == AccountsIn(SealedParts(mapped, fold));
  }

  // No row is lost between the API and the answer: from an accepted envelope that holds
  // the mapped accounts among items of other sources, extraction returns exactly the
  // usable rows in order, with name, kind and truncated finite balance, and counts the others;
  // every row is one or the other. With no usable row there is no accounts evidence.
  lemma NoRowLost(result: Data, now: int, before: seq<Item>, after: seq<Item>, bytes: seq<Item> -> nat, fold: string -> string)
    requires forall item :: item in before + after ==> item.source != ACCOUNTS_SOURCE
    requires CreateEnvelope(before + MappedAccounts(result, now) + after, None, bytes).Envelope?
    ensures var rows := PickRows(result);
            var accounts := RowAccounts(rows, fold);
            && |accounts| + Unusable(rows) == |rows|
            && Extracted(CreateEnvelope(before + MappedAccounts(result, now) + after, None, bytes).items, fold)
                == if accounts == [] then None else Some(FoundEvidence(AllFound(accounts), Unusable(rows), Unusable(rows) > 0))
  {
    EveryRowCounted(PickRows(result), fold);
    MappedAddsUp(result, now, fold);
    AmongOthers(before, MappedAccounts(result, now), after, fold);
  }

  // The mapped accounts alone are refused by the envelope only for their size.
  lemma {:induction false} OnlySizeRefuses(result: Data, now: int, allowed: Option<seq<string>>, bytes: seq<Item> -> nat)
    ensures CreateEnvelope(MappedAccounts(result, now), allowed, bytes) != Invalid
  {
    var rows := PickRows(result);
    ItemsWellFormed(rows, now);
    forall item | item in MappedAccounts(result, now) ensures WellFormed(item) {
      if item !in AccountItems(rows, now) { assert item.ref != [] && item.source != []; }
    }
  }

  lemma {:induction false} ItemsWellFormed(rows: seq<Data>, now: int)
    ensures forall item :: item in AccountItems(rows, now) ==> WellFormed(item)
  {
    if rows != [] { ItemsWellFormed(rows[..|rows| - 1], now); }
  }

  /** No account item holds a balance that is a number but not a finite one. */
  predicate FiniteBalances(items: seq<Item>) {
    forall item :: item in items && item.source == ACCOUNTS_SOURCE ==> Get(item.data, "balanceCents") != Some(NotFinite)
  }

  // No item the mapping makes holds a balance other than a finite one.
  lemma MappedAreFinite(result: Data, now: int)
    ensures FiniteBalances(SealedAll(MappedAccounts(result, now), None))
  {
    var rows := PickRows(result);
    ItemsAreFinite(rows, now);
    if AccountItems(rows, now) != [] && Unusable(rows) > 0 {
      var marker := IncompleteItem(Unusable(rows), now);
      MarkerHasNoBalance(Unusable(rows), now);
      MapJoin((item: Item) => Sealed(item, None), AccountItems(rows, now), [marker]);
    }
  }

  lemma MarkerHasNoBalance(omitted: nat, now: int)
    ensures Get(Sealed(IncompleteItem(omitted, now), None).data, "balanceCents") == None
  {
    var first, second := Field("incomplete", Bool(true)), Field("omittedCount", Num(omitted as real));
    var d := IncompleteItem(omitted, now).data;
    assert d.fields == [first] + ([second] + []);
    FirstField(first, [second] + [], "balanceCents");
    FirstField(second, [], "balanceCents");
    assert "incomplete"[0] != "balanceCents"[0] && "omittedCount"[0] != "balanceCents"[0];
    assert Project(d, None) == d;
  }

  lemma {:induction false} ItemsAreFinite(rows: seq<Data>, now: int)
    ensures FiniteBalances(SealedAll(AccountItems(rows, now), None))
  {
    if rows != [] {
      var front, last := rows[..|rows| - 1], rows[|rows| - 1];
      ItemsAreFinite(front, now);
      if IsUsable(last) {
        AccountDataIsKept(RowName(last).value, RowCents(last).value, RowKind(last));
        AccountFields(RowName(last).value, RowCents(last).value, RowKind(last));
      }
    }
  }
}
