# Verified model of the assistant's core protocols

A Dafny 4.11 model of the parts of the repository whose guarantees are stated in words
in its comments, with proofs of those guarantees. `dafny verify dfyconfig.toml` checks
everything.

| module | what it models |
|---|---|
| UndoStore, UndoProtocol, UndoSafety, UndoExpiry, UndoCreation, UndoService | the persistent undo proposal and every interleaving of confirm, cancel, propose and list around a retryable endpoint |
| GroundingText, GroundingTokens, Grounding, GroundingNames, GroundingAnswers, GroundingScopes, GroundingLeftovers, GroundingOutcomes | the deterministic answer to a balance question |
| GroundingSentences, GroundingSplit, GroundingWitnesses, GroundingScopeWitnesses | how plain sentences are read and split, and questions that do not get what a comment promises |
| AccountEvidence, EvidenceRows, BalanceAnswer | the way of an account row from the API payload to that answer |
| Deadline | one HTTP leg under an absolute deadline: relay fetch and broker completion |
| Drafts, Cancel, CancelSafety, CancelOutcomes | mutation drafts, their two stores, and the cancel turn |
| CanonicalJson, CanonicalShape | the printer behind the hash of a pending operation |
| BraceScanner, SegmentStripper, Sanitizer, SanitizerPairs, SanitizerCuts | removal of tool-call markup from model text |
| Replay | the nonce replay window of the broker |
| Relay | authorization, at most two relay legs, and the last authorization before publishing |
| CheckDigits, Money | Luhn, CPF and CNPJ checks; printing and parsing amounts |
| Common, Text | shared vocabulary |

Code that changes state is a class whose methods are proved against functions on values
(`SqlUndoProposalStore`, `InMemoryDraftStore`, `Leg`, `NonceReplayStore`, `RelayTurn` and
others); the theorems are about those functions, over all inputs or all runs.

## What the proofs found

Each of these is a lemma.

- `decide` keeps the executing row as its holder when a claim missed and then fails all the
  same, against its comment (undo-proposal.ts, lines 402-418). `UndoSafety.FallbacksNeverTaken`
  shows that no interleaving gets there.
- Confirm replies of one request can differ when the undo endpoint answers null, and only then.
- The derived undo key of accepted ids collides exactly when a colon stands inside them
  (`HasInnerColon`). Exactly then a proposal can be confirmed without an effect of its own,
  because the endpoint answers from the record of another (`UndoSafety.EffectLostExactly`).
- The SQL draft store tells a loser that it won exactly when the stored intention is the one
  the loser's own patch carries. The one caller stamps its intention on the row before it
  contends, so in the SQL store every continuation of an active draft wins, whatever the
  intentions (`Drafts.EveryContinuationWins`); and each of them, winner or not, writes its
  arguments over the draft first (`Drafts.ContentionWrites`).
- `verifyEnvelope` reads the clock twice; an envelope can be accepted twice exactly when more
  than 30 000 ms may pass between the two readings.
- A turn that the canary promoted to its fallback pair never publishes while the configuration
  stays as it is. Without a callable fallback it ends before any call, a failing call ends it,
  and an answer is thrown away by the last authorization (`Relay.PromotedTurn`).
- The last authorization of a relay turn does not fail closed on every rollout change, as the
  comment at lines 825-827 of finance-chat-agent.ts says. Its granted snapshot is dropped, so a
  turn moved out of its cohort while its primary answers is published all the same, and in no
  other case outside its grant (`Relay.PublishedOutsideGrantExactly`).
- Two racing propose calls that read the same millisecond are both told that they created the
  proposal, and only then (`UndoCreation.ToldCreatedExactly`).
- The `exceto`/`excluindo` arm of the funds-only scope changes no answer
  (`GroundingWitnesses.ArmDecidesNothing`), because such a question is already a card question.
  The total that the comment at lines 389-400 of account-grounding.ts promises it is never
  given (`GroundingWitnesses.ExceptIsNotWithout`).
- A funds-only total over accounts of unconfirmed kind only prints its heading with no line
  (`GroundingAnswers.EmptyAnswerExactly`, `GroundingWitnesses.HeadingAlone`), where the comment
  at lines 829-834 of account-grounding.ts announces a full listing.
- Of the ten single words that account-grounding.ts (lines 389-419) lets scope a total to bank
  and cash accounts, only "so" ever does (`GroundingScopes.ScopedTotalExactly`,
  `GroundingScopeWitnesses.OnlySoIsSummed`). Seven are missing from the generic vocabulary and are
  taken for the name of an account that is not there; "corrente" and "poupanca" are refused as
  subtypes. "bancaria" is not even matched, for `bancari` is matched between word boundaries
  (`GroundingSentences.KindScopeExactly`), but matching it would change nothing
  (`GroundingWitnesses.BankWordIsNoScope`).
- A question that names one account and something unknown is refused; one that names several
  prints them and ignores the rest (`GroundingLeftovers.LeftOverExactly`).
- Every CPF base of equal digits has no valid completion, but of the CNPJ bases only the one of
  zeros has none.

## Modelling choices

- Times are integers in milliseconds. In the undo rows they stand for ISO 8601 texts of one
  format, whose order is the order of the times.
- Questions and account names are taken folded (lower case, no diacritics). An account keeps its
  name and its folded name; the folding function is a parameter of the extraction.
- A regular expression `\b(a|b)\b` is an occurrence of one of its words between word
  boundaries; tokens are the maximal runs of letters and digits longer than one character.
- An answer is data (lines, verdict on the sum, notes), not text. A clarification has no figures
  by its type; headings are not kept.
- The undo endpoint answers equal keys with the answer it recorded first, may answer late, twice
  or never, and a call may end at any await.
- The mutation API is assumed to store one operation per idempotency key and not to refuse a key
  it holds for good; a reply may be lost, or be a failure other than a final refusal, whether or
  not the call took effect.
- A relay leg reads a body that does not parse as an empty one; only a broker leg fails on it.
- Each turn over the drafts is atomic, as the rationale at lines 9-20 of mutation-draft.ts says.
- Numbers in the canonical printer are identified with the text they print as; strings are
  sequences of UTF-16 code units.
- `UndoService.UndoProposalService.DecideAfterUndo` requires the claim under which the endpoint
  was called; that every thread standing there has it is part of the invariant of `UndoSafety`.
- A balance that is NaN or infinite is one value, `NotFinite`. Answers are modelled for finite
  balances; `AccountEvidence.NoRowLost` shows that mapped accounts have no other.
- A loop that cuts segments at both ends is proved for any recogniser of segments, and used with
  that of tool calls.

## Model

| member | source | states |
|---|---|---|
| `UndoStore.SqlUndoProposalStore.Insert` | apps/agent/src/mutations/undo-proposal.ts:112-135 | An insert never replaces a row: a request id already stored keeps its row as it is. |
| `UndoStore.SqlUndoProposalStore.CasProposedTo` | apps/agent/src/mutations/undo-proposal.ts:137-158 | The row moves to cancelled or expired only from proposed; what is reported is the row read back afterwards, whoever moved it. |
| `UndoStore.SqlUndoProposalStore.ClaimExecuting` | apps/agent/src/mutations/undo-proposal.ts:160-172 | The row moves from proposed to executing, and the caller is told the state after the update: two confirmers may both be told they hold the claim. |
| `UndoStore.SqlUndoProposalStore.ConfirmExecuting` | apps/agent/src/mutations/undo-proposal.ts:174-184 | Only an executing row becomes confirmed, with its result and decision time; the row read back is reported. |
| `UndoStore.SqlUndoProposalStore.MarkExpired` | apps/agent/src/mutations/undo-proposal.ts:186-192 | Only a proposed row becomes expired. |
| `UndoStore.SqlUndoProposalStore.ListBound` | apps/agent/src/mutations/undo-proposal.ts:200-208 | Exactly the rows of one identity, each once. |
| `UndoProtocol.RunEvolves` | apps/agent/src/mutations/undo-proposal.ts:112-192 | Along any run bindings, target, key and expiry of a row never change, status only moves forward, a final row is frozen, and calls, effects and replies are never withdrawn. |
| `UndoSafety.StepKeepsInv` | apps/agent/src/mutations/undo-proposal.ts:252-450 | One atomic step of any call, of the endpoint or of a crash keeps the invariant that ties rows, calls, the endpoint record and every thread together. |
| `UndoSafety.RunKeepsInv` | apps/agent/src/mutations/undo-proposal.ts:252-450 | The invariant holds in every reachable state. |
| `UndoSafety.EffectNeverPairedWithCancelled` | apps/agent/src/mutations/undo-proposal.ts:330-450 | Once the undo endpoint has been called for a request its row is executing or confirmed for ever; a cancelled or expired row has no call and never gets one. |
| `UndoSafety.CancelReplyIsFinal` | apps/agent/src/mutations/undo-proposal.ts:377-390 | After a cancel reply the row stays cancelled and no undo call is ever made for it, however the run continues. |
| `UndoSafety.KeysSeparate` | apps/agent/src/mutations/undo-proposal.ts:29-30 | With colon-free workspace ids the derived key names one workspace and one request. |
| `UndoSafety.KeyCollidesExactly` | apps/agent/src/mutations/undo-proposal.ts:29-30 | Two non-empty ids share their derived key with another pair of non-empty ids if and only if a colon stands after the first character of the workspace id or before the last of the request id. |
| `UndoSafety.OneEffectPerProposal` | apps/agent/src/mutations/undo-proposal.ts:397-438 | Whatever is retried, raced or delivered twice, a proposal whose key no other proposal has (so with colon-free workspaces, or ids without an inner colon) has at most one effect, on the target fixed when it was proposed, and a confirmed one has it. |
| `UndoSafety.EffectLostExactly` | apps/agent/src/mutations/undo-proposal.ts:432-449 | Some run leaves a confirmed proposal without an effect of its own if and only if its ids have an inner colon. |
| `UndoSafety.ConfirmRepliesAgree` | apps/agent/src/mutations/undo-proposal.ts:363-369 | All confirm replies of a request carry the same confirmed row, and the same answer when the endpoint did not answer null. |
| `UndoSafety.RepliesDifferExactlyOnNull` | apps/agent/src/mutations/undo-proposal.ts:437-449 | Replies for one request can differ if and only if the endpoint answers null: the first caller sees null, a replay sees the stored substitute. |
| `UndoSafety.FallbacksNeverTaken` | apps/agent/src/mutations/undo-proposal.ts:399-448 | A claim that missed finds the row final on the next read, and a terminal update is never lost: the two fallback reads after them decide nothing else. |
| `UndoSafety.OnlyTheOwnerCalls` | apps/agent/src/mutations/undo-proposal.ts:422-436 | The endpoint is only ever called for the identity that owns the proposal, under its derived key. |
| `UndoCreation.ToldCreatedExactly` | apps/agent/src/mutations/undo-proposal.ts:273-297 | Whatever happens between insert and read, a propose call is told it created the proposal if and only if its insert stored it, or the row it lost to bears the very creation time it read; another owner is refused. |
| `UndoCreation.TwoProposers` | apps/agent/src/mutations/undo-proposal.ts:266-297 | Of two racing propose calls of one identity the second is told it created the proposal if and only if both read the same millisecond. |
| `UndoService.UndoProposalService.DecideUntilUndo` | apps/agent/src/mutations/undo-proposal.ts:344-436 | A decide call up to the undo endpoint, in rows and replies: strangers and unknown ids are refused; before its expiry the owner's confirm leaves the row executing and stands at the endpoint, and cancel leaves it cancelled; at or after its expiry both fail and leave it expired; a decided row is replayed or refused; and it lands where its thread of the protocol lands. |
| `UndoService.UndoProposalService.DecideAfterUndo` | apps/agent/src/mutations/undo-proposal.ts:437-449 | The rest of a confirm: the executing row is confirmed with the answer and the time, a confirmed one is left alone, and the answer is returned. |
| `UndoService.UndoProposalService.ProposeUntilPreview` | apps/agent/src/mutations/undo-proposal.ts:252-272 | A propose call up to the preview: refused without a context, a stored row is reused for its owner only, and only an unknown id is previewed. |
| `UndoService.UndoProposalService.ProposeAfterPreview` | apps/agent/src/mutations/undo-proposal.ts:273-297 | The rest of a propose call: a new row with target, key and expiry is stored unless the id is taken, and the stored row is answered to its owner only. |
| `UndoService.UndoProposalService.ListActive` | apps/agent/src/mutations/undo-proposal.ts:309-328 | A listing returns exactly the proposed and executing rows of the identity that have not expired, and makes exactly its expired proposed rows expired. |
| `UndoExpiry.ClaimedInTime` | apps/agent/src/mutations/undo-proposal.ts:359-401 | In every reachable state each claimed row, and each row the endpoint was called for, was read as proposed by a confirm of its owner on a clock before its expiry. |
| `UndoExpiry.DecidedOnTime` | apps/agent/src/mutations/undo-proposal.ts:359-401 | In every reachable state a cancelled row was cancelled by a clock before its expiry, an expired one expired at or after it, and an open one has no decision time. |
| `UndoExpiry.DecidedAlone` | apps/agent/src/mutations/undo-proposal.ts:344-401 | In any world, a decide call that nothing interleaves with takes the proposal, its expiry and its owner to the literal row and reply: executing at the endpoint, cancelled, expired, replayed or refused. |
| `UndoExpiry.ConfirmedByAnswer` | apps/agent/src/mutations/undo-proposal.ts:421-449 | From the endpoint's answer to the reply the row becomes confirmed with that answer, at the time the confirm read. |
| `UndoExpiry.LosersAreTold` | apps/agent/src/mutations/undo-proposal.ts:402-418 | A confirm or cancel whose update missed is told what became of the row: replayed, cancelled, expired, in progress or decided; nothing changes. |
| `GroundingText.FindLastSeparator` | apps/agent/src/orchestration/account-grounding.ts:477-483 | The search loop finds the separator of the recursive specification. |
| `GroundingText.LastSeparatorFound` | apps/agent/src/orchestration/account-grounding.ts:468-483 | What the search reports is a separator of the text, at or after its start. |
| `GroundingText.LastSeparatorIsLast` | apps/agent/src/orchestration/account-grounding.ts:468-483 | No separator of the text begins at or after the end of the one reported. |
| `GroundingText.SegmentsRebuildTheQuestion` | apps/agent/src/orchestration/account-grounding.ts:470-506 | The two segments and one separator rebuild the folded question, and each side's marker words stand only on its own side. |
| `GroundingSplit.SeparatorExactly` | apps/agent/src/orchestration/account-grounding.ts:468-468 | A separator is a comma, a semicolon, a plus sign, or "e", "com" or "mais" between two spaces, and nothing else. |
| `GroundingSplit.SentenceSplits` | apps/agent/src/orchestration/account-grounding.ts:470-506 | A plain sentence about an account and a card falls apart at the last joint before the second of the two sides, whichever is named first and whatever other joints stand before it. |
| `GroundingText.ExclusionIsExplicit` | apps/agent/src/orchestration/account-grounding.ts:405-429 | Wording that excludes cards always counts as an explicit funds scope, under broad language or not. |
| `GroundingTokens.SegmentTokens` | apps/agent/src/orchestration/account-grounding.ts:487-512 | Every token of a segment of a mixed question is a token of the question. |
| `GroundingSentences.PhraseInSentence` | apps/agent/src/orchestration/account-grounding.ts:136-144 | A phrase stands between word boundaries of a plain sentence exactly where its words follow one another. |
| `GroundingSentences.TokensOfSentence` | apps/agent/src/orchestration/account-grounding.ts:127-130 | The tokens of a plain sentence are its words longer than one character. |
| `GroundingSentences.ReadSentence` | apps/agent/src/orchestration/account-grounding.ts:132-144 | Every flag read off a plain sentence is decided by the words, and neighbouring words, it holds. |
| `GroundingSentences.WholeWordsOnly` | apps/agent/src/orchestration/account-grounding.ts:417-418 | A class of words matches a text if and only if a whole run of word characters is one of its words. |
| `GroundingScopes.GenericScopeExactly` | apps/agent/src/orchestration/account-grounding.ts:401-419 | A question that says nothing specific, and is neither about cards nor a subtype, is explicitly scoped if and only if it excludes cards by "sem" or, nothing broad being said, holds the word "so". |
| `GroundingScopes.ScopedTotalExactly` | apps/agent/src/orchestration/account-grounding.ts:389-419 | A total of the bank and cash accounts only is given if and only if a generic total scoped to accounts excludes cards or says "so" and nothing broad, over one to twenty such accounts completely read, with no unconfirmed kind where cards are excluded. |
| `GroundingScopes.ScopedTotalSaysSo` | apps/agent/src/orchestration/account-grounding.ts:395-398 | Whoever gets that total excluded cards or said "so"; none of the other nine scope words, the five of the kind scope included, was said as a token or read as a subtype. |
| `GroundingScopes.ScopeWordTakenForName` | apps/agent/src/orchestration/account-grounding.ts:446-454 | A scope word outside the generic vocabulary is answered with "not found" when no account is named, whether or not it is read as an explicit scope. |
| `GroundingScopeWitnesses.OnlySoIsSummed` | apps/agent/src/orchestration/account-grounding.ts:395-419 | "saldo total das contas" followed by each of the ten scope words: with "so" the accounts are summed, with seven words the account is not found, with two the subtype is refused. |
| `GroundingScopeWitnesses.ScopedNubank` | apps/agent/src/orchestration/account-grounding.ts:395-419 | The same for one given bank account. |
| `GroundingWitnesses.BankWordIsNoScope` | apps/agent/src/orchestration/account-grounding.ts:395-398 | The total of the "contas bancarias" is not read as an explicit scope, and is answered with "not found"; it would be even if it were so read. |
| `GroundingWitnesses.ArmDecidesNothing` | apps/agent/src/orchestration/account-grounding.ts:410-415 | Removing the exceto/excluindo arm changes no answer to any question. |
| `GroundingWitnesses.ExceptedCardsGetNoTotal` | apps/agent/src/orchestration/account-grounding.ts:389-395 | A broad question that excepts cards otherwise than by "sem" gets no total, and figures only of cards unless accounts are asked for as well. |
| `GroundingWitnesses.ExceptIsNotWithout` | apps/agent/src/orchestration/account-grounding.ts:389-395 | Over any one to twenty bank and cash accounts, none named and completely read, the total of all "sem cartao" is their sum, and the total of all "exceto cartao" asks back about cards. |
| `GroundingWitnesses.ExceptedNubank` | apps/agent/src/orchestration/account-grounding.ts:389-395 | Both answers for one given bank account: 100 cents summed, and withheld. |
| `GroundingNames.SurvivorsAreMaximal` | apps/agent/src/orchestration/account-grounding.ts:197-215 | The survivors are exactly the fully named matches whose token set no other fully named match properly contains. |
| `GroundingNames.EveryFullNameIsCovered` | apps/agent/src/orchestration/account-grounding.ts:197-215 | Every fully named match is contained in the name of some survivor. |
| `GroundingNames.ChosenAlone` | apps/agent/src/orchestration/account-grounding.ts:158-215 | When one account survives alone, every other fully named account of the pool is a shorter name inside its own. |
| `GroundingNames.ResolvedInSegment` | apps/agent/src/orchestration/account-grounding.ts:514-526 | The account a segment resolves to is named in full there, leaves no specific word over, and contains every other full name. |
| `GroundingAnswers.SubtotalExactlyWhen` | apps/agent/src/orchestration/account-grounding.ts:852-963 | A listing prints a subtotal if and only if a total was asked of a complete read, the scope is one to twenty bank and cash accounts, and an unconfirmed kind is tolerated only under an explicit funds scope that is neither broad nor a mere exclusion of cards. |
| `GroundingAnswers.SubtotalIsWhole` | apps/agent/src/orchestration/account-grounding.ts:588-1027 | A printed subtotal is the sum of all bank and cash accounts of the evidence, all listed, from a complete read; an unconfirmed kind is left out only on explicit request and said to be. |
| `GroundingAnswers.TotalsExactly` | apps/agent/src/orchestration/account-grounding.ts:843-1015 | Every generic total is answered with figures, and what is said of their sum is determined by wording, kinds held by the evidence, their number and completeness: when a total is given, omitted or refused, and why. |
| `GroundingAnswers.EmptyAnswerExactly` | apps/agent/src/orchestration/account-grounding.ts:829-866 | An answer is a heading with no line if and only if an explicit funds-only total is asked in generic words while no bank or cash account but some unconfirmed one is known. |
| `GroundingWitnesses.HeadingAlone` | apps/agent/src/orchestration/account-grounding.ts:829-866 | "saldo total so das contas" gets a heading and no line when every account is of unconfirmed kind. |
| `GroundingAnswers.FiguresStayInScope` | apps/agent/src/orchestration/account-grounding.ts:588-1027 | Lines are accounts of the evidence; a card question without a funds word prints cards only; one that excludes cards prints bank and cash accounts only. |
| `GroundingAnswers.MixedNamesOneOfEach` | apps/agent/src/orchestration/account-grounding.ts:619-642 | A question about both prints one bank or cash line and one card line, each the one account its own segment names and each named in full by the question, or no figure at all. |
| `GroundingAnswers.FiguresAreEarned` | apps/agent/src/orchestration/account-grounding.ts:654-820 | With a name match every line is an account named in full, a single one leaving nothing unmatched and containing every other full name; without one the question holds generic words only. |
| `GroundingLeftovers.LeftOverExactly` | apps/agent/src/orchestration/account-grounding.ts:158-215 | In a question that is not about both, figures leave a specific word over if and only if several accounts are named side by side, none inside another and not all of one name, and the word is in none of the names listed. |
| `GroundingLeftovers.TwoNamesHideAThird` | apps/agent/src/orchestration/account-grounding.ts:676-760 | "saldo nubank xp" is answered with "not found"; "saldo itau nubank xp" over the same two accounts prints both and passes over the third word. |
| `GroundingAnswers.NothingHidden` | apps/agent/src/orchestration/account-grounding.ts:533-581 | Every answer with figures says whether the read was incomplete, and every account of the evidence is printed, counted in a note, declared out of scope, or was not asked for; in a question about both, it is printed or named by neither segment. |
| `GroundingNames.TheOneNamedIsChosen` | apps/agent/src/orchestration/account-grounding.ts:158-215 | The one account a question names, present once in the pool, is the one candidate left. |
| `GroundingNames.RefusedAlone` | apps/agent/src/orchestration/account-grounding.ts:446-454 | When the sole candidate is refused, every other fully named account lacks a specific word of the question too. |
| `GroundingAnswers.TheOneNamedIsAnswered` | apps/agent/src/orchestration/account-grounding.ts:588-760 | The converse of an earned single answer: a balance question that names one account in full, with nothing left over, is answered with that account and no other. |
| `GroundingAnswers.NotFoundIsHonest` | apps/agent/src/orchestration/account-grounding.ts:663-819 | "Not found" is said only if every fully named account of the pool lacks some specific word of the question (GroundingOutcomes.NotFoundExactly says when). |
| `GroundingAnswers.ClarificationsDisclose` | apps/agent/src/orchestration/account-grounding.ts:545-573 | Every clarification names accounts of the evidence, at most twenty of a list whose length it tells if longer, and says whether the read was incomplete. |
| `GroundingOutcomes.NotFoundExactly` | apps/agent/src/orchestration/account-grounding.ts:588-1027 | "Not found" is said if and only if the one account or card left of the names said is not named in full or something specific was said besides, or no name is said and something specific is, or "conta" alone, or bank and cash accounts are asked for where there are none to list. |
| `GroundingOutcomes.FiguresExactly` | apps/agent/src/orchestration/account-grounding.ts:588-1027 | A question gets figures if and only if it names one account and nothing else, or several side by side, or nothing at all where there is something to list, or is about both and each segment names one. |
| `GroundingOutcomes.ListingExactly` | apps/agent/src/orchestration/account-grounding.ts:843-1026 | A question without a total that names nothing gets the first twenty accounts of its scope, the whole answer fixed: widened to all by broad wording or by an unconfirmed kind, which is then noted, else bank and cash only. |
| `GroundingOutcomes.TotalListsTheSame` | apps/agent/src/orchestration/account-grounding.ts:843-1015 | A generic total lists the same accounts with the same notes, whatever is said of their sum. |
| `GroundingOutcomes.CardListingExactly` | apps/agent/src/orchestration/account-grounding.ts:705-714 | A card question that names no card gets the first twenty cards, and of a total it is said that they stand apart. |
| `GroundingOutcomes.BothAreAnswered` | apps/agent/src/orchestration/account-grounding.ts:619-642 | A question about both whose segments each name one account of their kind in full is answered with the two. |
| `GroundingOutcomes.NameMatchesExactly` | apps/agent/src/orchestration/account-grounding.ts:146-156 | A name is matched if and only if it is not vocabulary alone and all its words of three letters and more are said, or all its words where it has none. |
| `GroundingOutcomes.AsksExactly` | apps/agent/src/orchestration/account-grounding.ts:588-1027 | A balance question without figures is asked back: for which of the eleven reasons, among which accounts, cards marked, with how many there are. |
| `AccountEvidence.SelectReads` | apps/agent/src/orchestration/channel-evidence.ts:167-178 | The selection loop takes the first two distinct reads of the plan, the domain default last. |
| `AccountEvidence.FirstTwoKinds` | apps/agent/src/orchestration/channel-evidence.ts:167-178 | No read is selected twice, at most two are, each asked for; a wanted one is left out only if two kinds that are read were asked for by earlier operations. |
| `AccountEvidence.MapAccounts` | apps/agent/src/orchestration/channel-evidence.ts:225-275 | The mapping loop yields the items of the usable rows in order and, if some row was not usable, one marker with their number. |
| `EvidenceRows.RowsArePicked` | apps/agent/src/orchestration/channel-evidence.ts:201-210 | The rows are the array itself, or that under "accounts", or else under "items", or none. |
| `EvidenceRows.RowIsReadAs` | apps/agent/src/orchestration/channel-evidence.ts:225-265 | A row counts if and only if it has a name and a finite balance under one of their keys in order of preference; it becomes the account of that name, of its kind "bank", "cash" or "credit_card" or else unknown, with the cents cut towards zero. |
| `EvidenceRows.AccountsAreTheUsableRows` | apps/agent/src/orchestration/channel-evidence.ts:225-275 | The accounts that NoRowLost returns are the usable rows, one for one and in order. |
| `EvidenceRows.ProjectionKeeps` | apps/agent/src/evidence/evidence-envelope.ts:16-28 | A projected field is kept if and only if its key is none of the nine technical ones and is allowed, at every depth. |
| `EvidenceRows.EnvelopeExactly` | apps/agent/src/evidence/evidence-envelope.ts:40-50 | An envelope is refused if and only if an item lacks ref, source or a time, or the encoding exceeds 10 000 bytes; else it holds the items, projected, with "empty" for missing data and "ok" otherwise as the default status. |
| `AccountEvidence.ExtractAccountsEvidence` | apps/agent/src/orchestration/account-grounding.ts:94-122 | The extraction loop yields the evidence that the items add up to, with balances that are not finite told apart. |
| `AccountEvidence.OnlySizeRefuses` | apps/agent/src/evidence/evidence-envelope.ts:40-50 | Mapped accounts are refused by an envelope only for their size, never as malformed. |
| `AccountEvidence.MappedAreFinite` | apps/agent/src/orchestration/channel-evidence.ts:194-275 | No item of the mapping, marker and empty items included, holds a balance other than a finite one. |
| `AccountEvidence.RowSurvives` | apps/agent/src/evidence/evidence-envelope.ts:19-28 | One usable row, mapped, projected and extracted, is the account with its name, kind and truncated balance. |
| `AccountEvidence.NoRowLost` | apps/agent/src/evidence/evidence-envelope.ts:19-50 | From an accepted envelope extraction returns exactly the usable rows in order, with finite balances, and counts all others, whatever other sources stand around them. |
| `BalanceAnswer.TotalIsOfThePayload` | apps/agent/src/orchestration/account-grounding.ts:588-1027 | A total in an answer is the sum over every bank and cash row the API returned, and no row of the payload was unusable. |
| `Deadline.Leg.OnTimer` | apps/agent/src/finance-chat-agent.ts:387-394 | The timer callback marks the timeout, aborts, and discards the body seen so far once. |
| `Deadline.Leg.OnHeaders` | apps/agent/src/finance-chat-agent.ts:399-413 | The late-headers handler cancels an expired response without consulting the discard flag, and sets it. |
| `Deadline.Leg.AfterHeaders` | apps/agent/src/llm/private-broker-client.ts:283-296 | Resumption with a response: expired, refused, or on to the body. |
| `Deadline.Leg.AfterNoHeaders` | apps/agent/src/llm/private-broker-client.ts:273-282 | Resumption after the race was lost to the deadline or the transport. |
| `Deadline.Leg.AfterBody` | apps/agent/src/finance-chat-agent.ts:439-443 | Resumption with a parsed body: returned if the clock is before the deadline and the broker finds its form valid, else a timeout with the body discarded, or a failure; Deadline.InTimeExactly and Deadline.SettlesExactly say what that means over runs. |
| `Deadline.Leg.AfterNoBody` | apps/agent/src/finance-chat-agent.ts:429-438 | Resumption without a body discards the response once. |
| `Deadline.StepKeepsInv` | apps/agent/src/finance-chat-agent.ts:342-447 | Every step of timer, network, handler, body or clock keeps the invariant on the shared flags. |
| `Deadline.BodyDiscipline` | apps/agent/src/finance-chat-agent.ts:342-447 | A body is cancelled at most once; a returned result was read before the deadline and is never cancelled; after a timeout any response that arrives is cancelled exactly once. |
| `Deadline.LateNeverReturns` | apps/agent/src/llm/private-broker-client.ts:209-312 | Once timer or clock has passed the deadline the call can no longer settle with a result. |
| `Deadline.DeadlineEndsTheCall` | apps/agent/src/finance-chat-agent.ts:387-394 | After the timer has fired the call settles as a timeout with no reply needed. |
| `Deadline.InTimeExactly` | apps/agent/src/finance-chat-agent.ts:342-447 | With ok headers, their handler, and a valid body, each in turn, the call returns exactly if all delays together stay below the timeout, with no body cancelled; else it ends as a timeout. |
| `Deadline.SettlesExactly` | apps/agent/src/finance-chat-agent.ts:342-447 | Over all runs the outcome of every settled call, by the step that settled it: returned if and only if a readable body of the wanted form came back before the deadline, timed out if and only if timer, clock or a timeout error said so, else failed; with what was aborted and cancelled. |
| `Deadline.OrderIsNeeded` | apps/agent/src/finance-chat-agent.ts:399-422 | The single cancel rests on the microtask order: resumed before the handler, one response would be cancelled twice. |
| `Deadline.ResolveBrokerTimeoutMs` | apps/agent/src/llm/private-broker-client.ts:52-60 | The first usable of the two budgets, floored and capped at 60 s, else 60 s. |
| `Drafts.CasAgreesExactly` | apps/agent/src/mutations/mutation-draft.ts:266-283 | Both stores end in the same rows; they answer alike unless, and only unless, a loser finds the row proposing under the intention its own patch carries. |
| `Drafts.AtMostOneWinner` | apps/agent/src/mutations/mutation-draft.ts:266-305 | Along any run in which no update writes active, at most one in-memory compare-and-set of a draft succeeds. |
| `Drafts.SqlWinnersExactly` | apps/agent/src/mutations/mutation-draft.ts:485-521 | Along every run the SQL store reports as many winners as the in-memory store, and one more for each loser that finds its own intention stored. |
| `Drafts.SqlElectsTheSame` | apps/agent/src/mutations/mutation-draft.ts:485-521 | The two stores elect the same winners along a run if and only if no losing contender meets a proposing row under its own intention. |
| `Drafts.EveryContinuationWins` | apps/agent/src/orchestration/conversation-orchestrator.ts:660-670 | Of any number of continuations of one active draft, each stamping its intention and then contending with it, the in-memory store lets one win and the SQL store all. |
| `Drafts.PatchSetsWhatItGives` | apps/agent/src/mutations/mutation-draft.ts:198-216 | A patch sets the columns it gives and no other; identity, tool and dates are beyond its reach. |
| `Drafts.ContentionWrites` | apps/agent/src/orchestration/conversation-orchestrator.ts:660-670 | Each continuation of a draft writes its arguments over it before it contends, whether it wins or not; other drafts stay. |
| `Drafts.InMemoryDraftStore.GetOrCreate` | apps/agent/src/mutations/mutation-draft.ts:235-241 | A stored draft is never replaced, and the caller learns whether it was new. |
| `Drafts.InMemoryDraftStore.List` | apps/agent/src/mutations/mutation-draft.ts:247-257 | Exactly the unexpired drafts of the context in the wanted status, each once. |
| `Drafts.InMemoryDraftStore.Cas` | apps/agent/src/mutations/mutation-draft.ts:266-283 | Compare-and-set from active to proposing. |
| `Drafts.InMemoryDraftStore.Update` | apps/agent/src/mutations/mutation-draft.ts:285-294 | One draft is patched, no other. |
| `Drafts.InMemoryDraftStore.ExpireStale` | apps/agent/src/mutations/mutation-draft.ts:296-305 | Exactly the stale active drafts of the context are closed, and counted. |
| `Drafts.SqlDraftStore.GetOrCreate` | apps/agent/src/mutations/mutation-draft.ts:432-443 | Same table and answer as the in-memory store. |
| `Drafts.SqlDraftStore.List` | apps/agent/src/mutations/mutation-draft.ts:450-470 | Same drafts as the in-memory store, although the query narrows by fewer columns. |
| `Drafts.SqlDraftStore.Cas` | apps/agent/src/mutations/mutation-draft.ts:485-521 | Guarded update, then the read-back that decides what is answered. |
| `Drafts.SqlDraftStore.Update` | apps/agent/src/mutations/mutation-draft.ts:523-529 | Same table and answer as the in-memory store. |
| `Drafts.SqlDraftStore.ExpireStale` | apps/agent/src/mutations/mutation-draft.ts:531-549 | Same table and count as the in-memory store, although the rows are selected before they are written. |
| `Cancel.PendingOperationCoordinator.DiscardActiveDrafts` | apps/agent/src/orchestration/pending-operation-coordinator.ts:280-292 | Exactly the unexpired active drafts of the context are discarded. |
| `Cancel.PendingOperationCoordinator.SettleProposing` | apps/agent/src/orchestration/pending-operation-coordinator.ts:219-265 | Each proposing draft is settled under its own key; CancelOutcomes.CancelTurnExactly says as what. |
| `Cancel.PendingOperationCoordinator.ResolveCancel` | apps/agent/src/orchestration/pending-operation-coordinator.ts:203-273 | The cancel turn does what its specification says: expire, settle, discard, and only then let the listing decide. |
| `Cancel.PendingOperationCoordinator.DecideFromListing` | apps/agent/src/orchestration/pending-operation-coordinator.ts:119-135 | None, one or several decidable operations: nothing, one cancel call, or no call. |
| `CancelSafety.CancelTellsTheTruth` | apps/agent/src/orchestration/pending-operation-coordinator.ts:203-273 | "Cancelled" leaves no live draft and nothing decidable; "inconclusive" cancelled nothing and leaves a proposing draft of unknown outcome; "ambiguous" names two or more operations and touched none; a cancel that was not confirmed gives no such answer, and at most cancelled the one decidable operation; other contexts are left alone. |
| `CancelSafety.SettleShape` | apps/agent/src/orchestration/pending-operation-coordinator.ts:219-265 | After settling, a draft is still in flight exactly if its outcome stayed open. |
| `CancelSafety.StepKeepsInv` | apps/agent/src/orchestration/pending-operation-coordinator.ts:219-266 | Every turn keeps the invariant that an operation made for a draft is stored under that draft's own key. |
| `CancelSafety.AtMostOneOperationPerDraft` | apps/agent/src/mutations/mutation-draft.ts:117-119 | Over any sequence of propose, retry and cancel turns a draft owns at most one operation: a consumed draft exactly the one it names, a discarded, active or expired draft none. |
| `CancelOutcomes.SettleExactly` | apps/agent/src/orchestration/pending-operation-coordinator.ts:219-265 | Settling any drafts in flight turns each by its own reply alone, stores exactly the operations that were made, and reports an open outcome exactly if some draft kept one. |
| `CancelOutcomes.CancelTurnExactly` | apps/agent/src/orchestration/pending-operation-coordinator.ts:203-273 | What a cancel turn makes of every draft, in literal statuses: in flight with an unknown outcome after no device, no reply, or a status that is 408, 425, 429 or outside 400 to 499; rejected after any other 4xx unless the API holds its key; else consumed. The answer is "inconclusive" if and only if some draft was left open. |
| `CancelOutcomes.AnswerExactly` | apps/agent/src/orchestration/pending-operation-coordinator.ts:119-135 | Once nothing is open, the operations the device can still decide determine the answer: none, the one that is cancelled, or several that are named and left alone. |
| `CanonicalJson.SamePrintsEqual` | packages/llm-contracts/src/schemas.ts:230-236 | Values equal as maps print equally, whatever the insertion order of keys. |
| `CanonicalJson.AscendingUnique` | packages/llm-contracts/src/schemas.ts:233-233 | A key set has one ascending enumeration. |
| `CanonicalJson.PrintUnique` | packages/llm-contracts/src/schemas.ts:230-236 | A printed value followed by any admissible text decodes uniquely: equal texts come from equal values and equal rests. |
| `CanonicalJson.QuoteUnique` | packages/llm-contracts/src/schemas.ts:230-236 | A quoted string is self-delimiting. |
| `CanonicalJson.CanonicalForm` | packages/llm-contracts/src/schemas.ts:230-236 | Two JSON values print equally if and only if they are equal, objects taken as maps. |
| `CanonicalJson.HashInputSeparates` | packages/llm-contracts/src/schemas.ts:238-245 | The hashed text separates any two operations that differ in tool, arguments, workspace, actor or device, and no others. |
| `CanonicalShape.LessIsLexicographic` | packages/llm-contracts/src/schemas.ts:233-233 | Keys are ordered by their first differing code unit, a prefix first. |
| `CanonicalShape.QuotedReadsBack` | packages/llm-contracts/src/schemas.ts:230-236 | Reading the escapes of a quoted string back gives the string. |
| `CanonicalShape.EscapesAre` | packages/llm-contracts/src/schemas.ts:233-235 | Seven units have a short escape, spelled out; the other controls and the lone surrogates take six units, "\u" and four lower-case hex digits; everything else stands for itself. |
| `CanonicalShape.LiteralsAre` | packages/llm-contracts/src/schemas.ts:235-235 | null, true, false and numbers print as themselves, and so do the brackets of what is empty. |
| `CanonicalShape.ListIsJoined` | packages/llm-contracts/src/schemas.ts:231-231 | An array prints as its items, in order, joined by commas between brackets. |
| `CanonicalShape.ObjectIsJoined` | packages/llm-contracts/src/schemas.ts:233-233 | An object prints as its members in ascending key order, quoted key, colon, value, joined by commas between braces. |
| `CanonicalShape.HashTextIs` | packages/llm-contracts/src/schemas.ts:238-245 | The hashed text is the object of the five parts under their names, in ascending order. |
| `BraceScanner.BalancedJsonObjectEnd` | apps/agent/src/responses/tool-call-sanitizer.ts:80-102 | The scanning loop returns the end of its specification. |
| `BraceScanner.BalancedEndExact` | apps/agent/src/responses/tool-call-sanitizer.ts:80-102 | An end is returned if and only if the text up to it is an object of the brace grammar: braces outside string literals balance, escapes respected. |
| `BraceScanner.BalancedEndInLimit` | apps/agent/src/responses/tool-call-sanitizer.ts:80-102 | The end lies inside the scan limit. |
| `Sanitizer.StripToolCallMarkup` | apps/agent/src/responses/tool-call-sanitizer.ts:189-211 | The loop computes the specified result, never removes more than 64 blocks, and returns an empty text or one over 200 000 characters as it is. |
| `SegmentStripper.StripSegments` | apps/agent/src/responses/tool-call-sanitizer.ts:189-211 | The loop, for any recogniser of the two ends, computes the specified result and never removes more segments than its limit. |
| `SegmentStripper.StripShape` | apps/agent/src/responses/tool-call-sanitizer.ts:195-209 | What is left is a trimmed slice with nothing more to cut, unless the limit was reached. |
| `Sanitizer.SanitizedIsSliceAndFixpoint` | apps/agent/src/responses/tool-call-sanitizer.ts:189-211 | The result is one contiguous slice of the input, and stripping again changes nothing if fewer than 64 blocks were removed. |
| `Sanitizer.ProseSurvives` | apps/agent/src/responses/tool-call-sanitizer.ts:129-186 | A message that at either end is prose, or holds no opener, special token or payload fence at all, loses only outer white space: other code fences are kept wherever they stand. |
| `SanitizerPairs.TextBetweenPairsSurvives` | apps/agent/src/responses/tool-call-sanitizer.ts:125-211 | Of a message that is two tool-call pairs around prose both pairs go and the whole text between them stays. |
| `SanitizerCuts.PairsGo` | apps/agent/src/responses/tool-call-sanitizer.ts:195-209 | Of any number of pairs at the head of a message exactly the first 64 go. |
| `SanitizerCuts.TruncatedTakesAll` | apps/agent/src/responses/tool-call-sanitizer.ts:132-132 | An opener at the head that is never closed takes the whole message. |
| `SanitizerCuts.LeadingFenceGoes` | apps/agent/src/responses/tool-call-sanitizer.ts:152-153 | A fence at the head around one tool-call payload, or around one pair, goes, and the prose behind it stays. |
| `SanitizerCuts.TrailingFenceGoes` | apps/agent/src/responses/tool-call-sanitizer.ts:170-178 | So does one at the tail behind white space, whatever its first line says if it holds a payload. |
| `SanitizerCuts.WholeFenceGoes` | apps/agent/src/responses/tool-call-sanitizer.ts:111-126 | A message that is nothing but such a fence goes whole. |
| `SanitizerCuts.TokenAt` | apps/agent/src/responses/tool-call-sanitizer.ts:65-65 | A special token is a name of 1 to 32 characters without bar and angle brackets. |
| `SanitizerCuts.SpecialWithObjectGoes` | apps/agent/src/responses/tool-call-sanitizer.ts:133-139 | A special token at the head takes the JSON object behind it and one closing token, white space between them included. |
| `SanitizerCuts.SpecialWithObjectAlone` | apps/agent/src/responses/tool-call-sanitizer.ts:133-150 | Without a closing token it takes the object alone. |
| `SanitizerCuts.SpecialWithNameGoes` | apps/agent/src/responses/tool-call-sanitizer.ts:140-149 | It takes a bare name up to the next special token within 512 characters. |
| `SanitizerCuts.SpecialAloneGoes` | apps/agent/src/responses/tool-call-sanitizer.ts:133-150 | Without any of these the token goes alone and the prose behind it stays whole. |
| `SanitizerCuts.TrailingSpecialGoes` | apps/agent/src/responses/tool-call-sanitizer.ts:179-180 | A special token at the tail goes. |
| `Sanitizer.TailPairIsInnermost` | apps/agent/src/responses/tool-call-sanitizer.ts:163-170 | A removed tail pair holds exactly one opener, at its start, and one closer. |
| `Replay.NonceReplayStore.Consume` | apps/codex-broker/src/replay-store.ts:17-36 | The purge loop drops exactly the entries past their retention; then a nonce is accepted exactly if it is not held. |
| `Replay.VerifyEnvelope` | apps/codex-broker/src/replay-store.ts:52-95 | An envelope is valid if and only if the parameters are given, the audience is this broker, the timestamp is at most 30 000 ms off on either side, body hash and signature match, and the nonce is not held any more; the reason is that of the first thing wrong, and the nonce is consumed only after all of it. |
| `Replay.AcceptedExactly` | apps/codex-broker/src/replay-store.ts:52-95 | Along every run whose clock does not go back, an attempt is accepted if and only if it is genuine, its signature included, and no earlier accepted attempt with its nonce is still remembered, 60 000 ms from its timestamp on. |
| `Replay.AcceptedIsRemembered` | apps/codex-broker/src/replay-store.ts:17-41 | An accepted nonce is held until a later reading of the clock has passed its retention. |
| `Replay.AcceptedNoncesFarApart` | apps/codex-broker/src/replay-store.ts:52-95 | Two accepted envelopes with one nonce lie more than 30 000 ms apart, less the time the later verification took between its two clock readings. |
| `Replay.NoEnvelopeTwice` | apps/codex-broker/src/replay-store.ts:52-95 | No envelope is accepted twice while a verification takes at most 30 000 ms. |
| `Replay.ReplayExactlyBeyondTheGap` | apps/codex-broker/src/replay-store.ts:52-95 | A replay gets through if and only if a verification may take more than 30 000 ms between its readings. |
| `CheckDigits.LuhnValid` | apps/agent/src/privacy/dlp.ts:46-61 | The loop decides the positional sum of Annex B of ISO/IEC 7812-1. |
| `CheckDigits.SingleChangeCaught` | apps/agent/src/privacy/dlp.ts:46-61 | Every change of one digit of a valid number is caught. |
| `CheckDigits.SwapCaughtExactly` | apps/agent/src/privacy/dlp.ts:46-61 | Every swap of two different neighbours is caught, except 0 with 9. |
| `CheckDigits.CpfFormIsCnpjForm` | apps/agent/src/privacy/dlp.ts:63-91 | The two ways of computing a check digit agree for every sum. |
| `CheckDigits.CpfValid` | apps/agent/src/privacy/dlp.ts:63-75 | The two loops decide the check digits. |
| `CheckDigits.CnpjValid` | apps/agent/src/privacy/dlp.ts:77-91 | The two weighted loops decide the check digits. |
| `CheckDigits.OneCpfPerBase` | apps/agent/src/privacy/dlp.ts:63-75 | Each nine-digit base has exactly one valid completion, or none if its digits are all equal. |
| `CheckDigits.OneCnpjPerBase` | apps/agent/src/privacy/dlp.ts:77-91 | Each twelve-digit base has exactly one valid completion, or none if it is all zeros. |
| `Money.UngroupGrouped` | apps/agent/src/mutations/financial-parser.ts:14-15 | Removing the dots gives back the digits that were grouped. |
| `Money.RoundTrip` | apps/agent/src/orchestration/pending-operation-coordinator.ts:74-75 | Printing cents and parsing the text returns the same cents, for every amount that is not negative and for no other. |
| `Relay.TargetsAreCallable` | apps/agent/src/llm/relay-failover.ts:82-121 | Resolved targets are relayable and named; a fallback differs from the primary. |
| `Relay.TargetsExactly` | apps/agent/src/llm/relay-failover.ts:82-121 | The primary is the active pair and the fallback the other one, each if and only if its provider is one of the four relayable ones and it names a model, by its stored name or behind its own prefix, and the fallback is not the primary again. |
| `Relay.EligibleExactly` | apps/agent/src/llm/relay-failover.ts:143-160 | A fallback is tried if and only if the failure is a local timeout, a provider timeout under 504, a rate limit under 429, or a provider error under 500 to 599. |
| `Relay.CohortHash` | apps/agent/src/llm/rollout.ts:52-59 | The hash loop is the fold of FNV-1a. |
| `Relay.InCanaryExactly` | apps/agent/src/llm/rollout.ts:61-84 | In a canary is exactly whoever the allowlist names, and whose bucket of a hundred, the hash of workspace, colon and actor, lies below the percentage. |
| `Relay.CohortsGrow` | apps/agent/src/llm/rollout.ts:61-84 | Raising the percentage or the allowlist never drops anyone from a cohort. |
| `Relay.PromotionIsRefusedAgain` | apps/agent/src/llm/rollout.ts:86-172 | Asked again under the same configuration, the authority refuses exactly the snapshots it promoted to their fallback. |
| `Relay.AuthorizedExactly` | apps/agent/src/llm/rollout.ts:86-172 | The active pair is granted if and only if the authority answered, in the epoch of the snapshot, with a rollout for all or a canary this identity is in; outside the canary the fallback pair is, with no further fallback; each refusal has its own exact condition. |
| `Relay.RelayTurn.ProvideResponse` | apps/agent/src/finance-chat-agent.ts:687-839 | The turn as run leaves the trace and outcome of its specification. |
| `Relay.TurnDiscipline` | apps/agent/src/llm/relay-failover.ts:377-425 | At most two calls, each right after an authorization that granted its very target, the second elsewhere and only after a failure that permits it; a refusal ends the turn; a published text is what the last call returned, and some grant followed it. |
| `Relay.TurnEndsExactly` | apps/agent/src/finance-chat-agent.ts:690-838 | Under an unchanging configuration that does not promote the turn, the whole trace and outcome in every case: refused, without a primary, one failed leg or two, or published with the text of the leg that answered. |
| `Relay.PublishedUnderEveryAnswer` | apps/agent/src/finance-chat-agent.ts:690-838 | Whatever the authority answers from one consultation to the next, a turn that publishes was answered each time, two times or three, in its epoch and with the rollout on. |
| `Relay.PublishedOutsideGrantExactly` | apps/agent/src/finance-chat-agent.ts:825-832 | A text is published whose target the last grant does not resolve to if and only if the turn was admitted unpromoted, the rollout then promotes it to a target other than its primary, and its primary answered meanwhile. |
| `Relay.PublishedAfterTheMove` | apps/agent/src/finance-chat-agent.ts:825-832 | There is such a publication: everybody is served at admission, nobody when the text is there. |
| `Relay.PublishesExactly` | apps/agent/src/finance-chat-agent.ts:781-838 | Under an unchanging configuration a turn publishes if and only if it is served by the active pair and one of its legs answers. |
| `Relay.PromotedTurn` | apps/agent/src/finance-chat-agent.ts:690-838 | The whole trace and outcome of a promoted turn: no call without a callable fallback pair; else one call, whose failure ends the turn and whose answer is refused. |
| `Relay.CalledAndThenRefused` | apps/agent/src/llm/rollout.ts:151-171 | There is such a turn: the provider is called, answers, and the turn is refused. |

## Left out

- The in-memory index by intention and both `findByIntention` queries: the two stores do not agree on them.
- JSON columns of the SQL stores, schema creation and failing inserts: rows are values.
- `retry`, `confirm` and `cancel` of a single operation, and the texts of disambiguation: one call each.
- `conversation-orchestrator.ts` and `intention-ledger.ts`: the propose turn is a compare-and-set followed by a propose with the stored key.
- Unicode normalisation, case folding, and the regular expression engine.
- Hashing, HMAC, base64, JSON parsing and number printing: parameters, or texts taken as given.
- The wording of answers and `formatCents`, beyond what lines, verdict and notes carry.
- `mapTransactions`, `mapSingleton` and the other reads: one branch each.
- Freshness of evidence (`isCurrentEvidence`) and freezing of envelopes.
- `toSafeRelayError`, reason codes and telemetry of the relay; the broker channel of `provideUnifiedResponse`.
- Deletion of the cached snapshot on an epoch change: best effort, and it decides nothing.
- Card, CPF and CNPJ candidate patterns and the scrubbing of texts: the checks are modelled on digit runs.
- Dates, descriptions and intent words of the mutation parser.
- `Sanitizer.StripToolCallMarkup`: characters are Unicode scalars here, UTF-16 code units in the source, so the two length limits differ for texts beyond the basic plane.
- `Relay.RelayTurn.ProvideResponse`: what a leg yields is a parameter, one result for each target (the targets of a turn differ); request and redaction of the text are inside it.
