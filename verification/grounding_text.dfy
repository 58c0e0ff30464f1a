/**
 * How the wording of a balance question is read. Questions and account names arrive
 * folded (lower case, no diacritics); a regular expression \bword\b is an occurrence
 * between word boundaries.
 */
module GroundingText {
  import opened Common
  import opened Text

  // ----- words of a folded text

  /** The class \w. */
  predicate IsWordChar(c: char) {
    'a' <= c <= 'z' || 'A' <= c <= 'Z' || '0' <= c <= '9' || c == '_'
  }

  predicate IsTokenChar(c: char) { 'a' <= c <= 'z' || '0' <= c <= '9' }

  /** A word, or a phrase of words, stands at a position between two word boundaries. */
  predicate WordAt(t: string, w: string, i: int) {
    && OccursAt(t, w, i)
    && (i == 0 || !IsWordChar(t[i - 1]))
    && (i + |w| == |t| || !IsWordChar(t[i + |w|]))
  }

  predicate AnyWordAt(t: string, words: set<string>, i: int) { exists w :: w in words && WordAt(t, w, i) }

  predicate HasWord(t: string, words: set<string>) { exists i :: 0 <= i <= |t| && AnyWordAt(t, words, i) }

  /** The index a search for any of the words reports, or -1. */
  function FirstWord(t: string, words: set<string>, from: nat): (i: int)
    ensures i == -1 || (from <= i <= |t| && AnyWordAt(t, words, i))
    ensures forall j :: from <= j <= |t| && (i == -1 || j < i) ==> !AnyWordAt(t, words, j)
    decreases |t| - from
  {
    if from > |t| then -1
    else if AnyWordAt(t, words, from) then from
    else FirstWord(t, words, from + 1)
  }

  predicate IsTokenRun(t: string, i: int, j: int) {
    && 0 <= i < j <= |t|
    && (forall k :: i <= k < j ==> IsTokenChar(t[k]))
    && (i == 0 || !IsTokenChar(t[i - 1]))
    && (j == |t| || !IsTokenChar(t[j]))
  }

  /** The tokens of a text: maximal runs of letters and digits, single characters dropped. */
  function Tokens(t: string): set<string> {
    set i, j | 0 <= i <= |t| && 0 <= j <= |t| && IsTokenRun(t, i, j) && j - i > 1 :: t[i..j]
  }

  /** Each run of white space becomes one space. */
  function Collapse(t: string): string
    decreases |t|
  {
    if t == [] then []
    else if IsSpace(t[0]) then [' '] + Collapse(t[RunEnd(t[1..], 0, IsSpace) + 1..])
    else [t[0]] + Collapse(t[1..])
  }

  // ----- word classes

  const CARD_WORDS: set<string> := {"cartao", "cartoes", "fatura", "faturas"}
  const FUNDS_WORDS: set<string> := {"conta", "contas", "banco", "bancos"}
  const NO_CARD_PHRASES: set<string> := {"sem cartao", "sem cartoes", "sem fatura", "sem faturas"}
  const BALANCE_PHRASES: set<string> := {"saldo", "saldos", "quanto tenho", "quanto eu tenho"}
  const TOTAL_WORDS: set<string> :=
    {"total", "totais", "soma", "somando", "somado", "tudo junto", "geral", "consolidado", "somatorio"}
  const BROAD_WORDS: set<string> := {"toda", "todas", "todo", "todos", "geral", "tudo"}
  const EXCEPT_WORDS: set<string> := {"exceto", "excluindo"}
  const ONLY_WORDS: set<string> := {"so", "somente", "apenas"}
  const KIND_WORDS: set<string> := {"corrente", "poupanca", "bancari", "dinheiro", "especie"}
  const SUBTYPE_WORDS: set<string> := {"corrente", "correntes", "poupanca", "poupancas"}

  // Vocabulary of a card-balance question that names nothing.
  const AMOUNT_WORDS: set<string> := {
    "saldo", "saldos", "quanto", "tenho", "tem", "tenha", "eu", "meu", "minha", "meus", "minhas", "cartao",
    "cartoes", "fatura", "faturas", "conta", "contas", "total", "totais", "soma", "somando", "somado", "somatorio",
    "geral", "consolidado", "junto", "tudo"
  }
  const ASKING_WORDS: set<string> := {
    "qual", "quais", "como", "esta", "estao", "mostre", "mostra", "mostrar", "exiba", "exibir", "liste", "listar",
    "lista", "ver", "veja", "diga", "diz"
  }
  const POINTING_WORDS: set<string> := {
    "todos", "todas", "todo", "toda", "esse", "essa", "este", "desse", "dessa", "deste", "desta", "isso", "isto",
    "me", "um", "uma", "uns", "umas"
  }
  const LINKING_WORDS: set<string> := {
    "de", "da", "do", "das", "dos", "as", "os", "em", "no", "na", "nos", "nas", "se", "que", "com", "sem", "para",
    "por", "sobre", "entre"
  }
  const PERSON_WORDS: set<string> := {
    "seu", "sua", "seus", "suas", "nosso", "nossa", "ele", "ela", "eles", "elas", "voce", "voces", "dele", "dela"
  }
  const FILLER_WORDS: set<string> := {
    "aqui", "agora", "hoje", "ainda", "mais", "favor", "gentileza", "obrigado", "obrigada", "quando", "onde", "foi",
    "era", "sao", "porque"
  }

  const GENERIC_CARD_QUERY_WORDS: set<string> :=
    AMOUNT_WORDS + ASKING_WORDS + POINTING_WORDS + LINKING_WORDS + PERSON_WORDS + FILLER_WORDS

  /** Further vocabulary that names nothing in a balance question. */
  const EXTRA_GENERIC_BALANCE_WORDS: set<string> := {
    "banco", "bancos", "agencia", "agencias", "cofre", "carteira", "poupanca", "corrente", "ou", "mas", "nem", "ja",
    "so", "ao", "aos", "pra", "pro", "num", "numa", "ate", "tambem"
  }

  // ----- what the wording says

  /** The flags every branch of the answer is decided by. */
  datatype Wording = Wording(
    balance: bool,      // asks for a balance
    subtype: bool,      // names the unsupported checking/savings distinction
    card: bool,         // mentions a card
    withoutCard: bool,  // "sem cartao" and the like
    funds: bool,        // says conta(s) or banco(s)
    total: bool,        // asks for a total
    broad: bool,        // todas, todos, geral, tudo
    explicit: bool,     // scoped to bank and cash by exclusion or kind
    oneAccount: bool    // "conta" but not "contas"
  )
  {
    /** A card question proper: an exclusion of cards is not one. */
    predicate CardQuestion() { card && !withoutCard }

    predicate FundsScoped() { funds || withoutCard }
  }

  /** Funds-only scoping: under broad language only an exclusion counts. */
  predicate ExplicitFundsOnly(collapsed: string, mentionsCard: bool) {
    var folded := Trim(collapsed);
    if HasWord(collapsed, BROAD_WORDS) then
      HasWord(collapsed, NO_CARD_PHRASES) || (HasWord(folded, EXCEPT_WORDS) && mentionsCard)
    else
      HasWord(folded, ONLY_WORDS + EXCEPT_WORDS + NO_CARD_PHRASES) || HasWord(folded, KIND_WORDS)
  }

  function Read(text: string): Wording {
    var collapsed := Collapse(text);
    var card := Tokens(text) * CARD_WORDS != {};
    Wording(
      HasWord(collapsed, BALANCE_PHRASES),
      HasWord(collapsed, SUBTYPE_WORDS),
      card,
      HasWord(collapsed, NO_CARD_PHRASES),
      HasWord(collapsed, FUNDS_WORDS),
      HasWord(collapsed, TOTAL_WORDS),
      HasWord(collapsed, BROAD_WORDS),
      ExplicitFundsOnly(collapsed, card),
      HasWord(text, {"conta"}) && !HasWord(text, {"contas"}))
  }

  // ----- two segments of a mixed question

  /** Length of the separator (e, com, mais between spaces, or one of , ; +) at a position, or 0. */
  function SeparatorAt(t: string, i: nat): (n: nat)
    ensures n > 0 ==> i + n <= |t|
  {
    if i + 3 <= |t| && t[i] == ' ' && t[i + 1] == 'e' && t[i + 2] == ' ' then 3
    else if i + 5 <= |t| && t[i] == ' ' && t[i + 1] == 'c' && t[i + 2] == 'o' && t[i + 3] == 'm' && t[i + 4] == ' ' then 5
    else if i < |t| && (t[i] == ',' || t[i] == ';' || t[i] == '+') then 1
    else if i + 6 <= |t| && t[i] == ' ' && t[i + 1] == 'm' && t[i + 2] == 'a' && t[i + 3] == 'i' && t[i + 4] == 's' && t[i + 5] == ' ' then 6
    else 0
  }

  datatype Separator = Separator(index: nat, length: nat)

  /** The last match of a global search, which resumes after each match. */
  function LastSeparator(t: string, from: nat, last: Option<Separator>): Option<Separator>
    decreases |t| - from
  {
    if from >= |t| then last
    else
      var n := SeparatorAt(t, from);
      if n > 0 then LastSeparator(t, from + n, Some(Separator(from, n))) else LastSeparator(t, from + 1, last)
  }

  method FindLastSeparator(haystack: string) returns (last: Option<Separator>)
    ensures last == LastSeparator(haystack, 0, None)
  {
    last := None;
    var lastIndex := 0;
    while lastIndex < |haystack|
      invariant lastIndex <= |haystack|
      invariant LastSeparator(haystack, lastIndex, last) == LastSeparator(haystack, 0, None)
    {
      var n := SeparatorAt(haystack, lastIndex);
      if n > 0 {
        last := Some(Separator(lastIndex, n));
        lastIndex := lastIndex + n;
      } else {
        lastIndex := lastIndex + 1;
      }
    }
  }

  /** A separator already found ends before the search position. */
  predicate EndsBy(last: Option<Separator>, from: nat) {
    last.Some? ==> last.value.length > 0 && last.value.index + last.value.length <= from
  }

  lemma {:induction false} LastSeparatorFound(t: string, from: nat, last: Option<Separator>)
    requires from <= |t| && EndsBy(last, from)
    ensures var r := LastSeparator(t, from, last);
            r != last ==> r.Some? && r.value.index >= from && SeparatorAt(t, r.value.index) == r.value.length > 0
    decreases |t| - from
  {
    if from < |t| {
      var n := SeparatorAt(t, from);
      if n > 0 { LastSeparatorFound(t, from + n, Some(Separator(from, n))); } else { LastSeparatorFound(t, from + 1, last); }
    }
  }

  // The separator found is the last: none matches after its end.
  lemma {:induction false} LastSeparatorIsLast(t: string, from: nat, last: Option<Separator>, j: nat)
    requires from <= j < |t| && EndsBy(last, from) && SeparatorAt(t, j) > 0
    ensures var r := LastSeparator(t, from, last); r.Some? && j < r.value.index + r.value.length
    decreases |t| - from
  {
    var n := SeparatorAt(t, from);
    if n > 0 && j < from + n {
      LastSeparatorFound(t, from + n, Some(Separator(from, n)));
    } else if n > 0 {
      LastSeparatorIsLast(t, from + n, Some(Separator(from, n)), j);
    } else {
      LastSeparatorIsLast(t, from + 1, last, j);
    }
  }

  /** The question's two halves: what it says of the funds side and of the card side. */
  datatype Segments = Segments(funds: string, card: string)

  predicate IsFundsSegment(s: string) { s != [] && HasWord(s, FUNDS_WORDS) && !HasWord(s, CARD_WORDS) }

  predicate IsCardSegment(s: string) { s != [] && HasWord(s, CARD_WORDS) && !HasWord(s, FUNDS_WORDS) }

  /** Where the last separator between two positions begins and ends. */
  function CutBetween(t: string, first: nat, second: nat): (cut: Option<(nat, nat)>)
    requires first <= second <= |t|
    ensures cut.Some? ==> cut.value.0 < cut.value.1 <= |t|
  {
    LastSeparatorFound(t[first..second], 0, None);
    match LastSeparator(t[first..second], 0, None)
    case None => None
    case Some(sep) => Some((first + sep.index, first + sep.index + sep.length))
  }

  function SplitMixed(text: string): Option<Segments> {
    var folded := Trim(Collapse(text));
    var funds, card := FirstWord(folded, FUNDS_WORDS, 0), FirstWord(folded, CARD_WORDS, 0);
    if funds == -1 || card == -1 then None
    else
      var cut := if funds < card then CutBetween(folded, funds, card) else CutBetween(folded, card, funds);
      if cut.None? then None
      else
        var left, right := Trim(folded[..cut.value.0]), Trim(folded[cut.value.1..]);
        var s := if funds < card then Segments(left, right) else Segments(right, left);
        if IsFundsSegment(s.funds) && IsCardSegment(s.card) then Some(s) else None
  }

  /** A text is two halves around one separator, white space aside. */
  ghost predicate Rebuilds(t: string, left: string, right: string) {
    exists i, j :: 0 <= i <= j <= |t| && SeparatorAt(t, i) == j - i > 0 && left == Trim(t[..i]) && right == Trim(t[j..])
  }

  /** A separator found inside a stretch of a text is one of the text. */
  lemma SeparatorInside(t: string, first: nat, second: nat, i: nat)
    requires first <= second <= |t| && SeparatorAt(t[first..second], i) > 0
    ensures SeparatorAt(t, first + i) == SeparatorAt(t[first..second], i)
  {
    assert forall k :: 0 <= k < second - first ==> t[first..second][k] == t[first + k];
  }

  lemma RebuildsAt(t: string, i: nat, j: nat)
    requires i < j <= |t| && SeparatorAt(t, i) == j - i
    ensures Rebuilds(t, Trim(t[..i]), Trim(t[j..]))
  {}

  lemma CutIsSeparator(t: string, first: nat, second: nat)
    requires first <= second <= |t| && CutBetween(t, first, second).Some?
    ensures var cut := CutBetween(t, first, second).value; SeparatorAt(t, cut.0) == cut.1 - cut.0
  {
    LastSeparatorFound(t[first..second], 0, None);
    SeparatorInside(t, first, second, LastSeparator(t[first..second], 0, None).value.index);
  }

  // The two segments of a mixed question and one separator rebuild its text, and each
  // side's words stand only on its own side.
  lemma SegmentsRebuildTheQuestion(text: string)
    requires SplitMixed(text).Some?
    ensures var s := SplitMixed(text).value;
            var folded := Trim(Collapse(text));
            && IsFundsSegment(s.funds) && IsCardSegment(s.card)
            && (Rebuilds(folded, s.funds, s.card) || Rebuilds(folded, s.card, s.funds))
  {
    var folded := Trim(Collapse(text));
    var funds, card := FirstWord(folded, FUNDS_WORDS, 0), FirstWord(folded, CARD_WORDS, 0);
    var first, second := if funds < card then funds else card, if funds < card then card else funds;
    CutIsSeparator(folded, first, second);
    var cut := CutBetween(folded, first, second).value;
    RebuildsAt(folded, cut.0, cut.1);
  }

  // ----- an exclusion of cards is always an explicit funds scope

  /** Trimming keeps every word that is not white space at its ends. */
  lemma TrimKeepsWord(t: string, w: string, i: nat)
    requires WordAt(t, w, i) && w != [] && !IsSpace(w[0]) && !IsSpace(w[|w| - 1])
    ensures exists j: nat :: j <= |Trim(t)| && WordAt(Trim(t), w, j)
  {
    var k := TrimmedPart(t);
    FirstOf(t, w, i);
    SliceKeepsWord(t, k, k + |Trim(t)|, w, i);
  }

  lemma SliceKeepsWord(t: string, k: nat, l: nat, w: string, i: nat)
    requires WordAt(t, w, i) && k <= i && i + |w| <= l <= |t|
    ensures WordAt(t[k..l], w, i - k)
  {
    SubSlice(t, k, l, i - k, i - k + |w|);
  }

  lemma ExclusionIsExplicit(text: string)
    ensures Read(text).withoutCard ==> Read(text).explicit
  {
    var collapsed := Collapse(text);
    if HasWord(collapsed, NO_CARD_PHRASES) && !HasWord(collapsed, BROAD_WORDS) {
      var i :| 0 <= i <= |collapsed| && AnyWordAt(collapsed, NO_CARD_PHRASES, i);
      var w :| w in NO_CARD_PHRASES && WordAt(collapsed, w, i);
      TrimKeepsWord(collapsed, w, i);
      var j :| 0 <= j <= |Trim(collapsed)| && WordAt(Trim(collapsed), w, j);
      assert w in ONLY_WORDS + EXCEPT_WORDS + NO_CARD_PHRASES;
      assert AnyWordAt(Trim(collapsed), ONLY_WORDS + EXCEPT_WORDS + NO_CARD_PHRASES, j);
    }
  }

  // Under broad language only "sem cartao" makes a scope explicit in a question that is
  // not a card question: the "exceto"/"excluindo" arm never decides an answer.
  lemma ExceptArmNeverDecides(text: string)
    requires Read(text).broad && !Read(text).CardQuestion()
    ensures Read(text).explicit <==> Read(text).withoutCard
  {}
}
