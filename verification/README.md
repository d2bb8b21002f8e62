# Verified model of the policy control plane and conversation runtime

The repository is a control plane that evolves policy documents under gates and runs conversations over an append-only event log. This project models its core in Dafny and proves what those parts are for:

- **Conversations** (`Runtime.dfy`, `Answers.dfy`, `EventTransactions.dfy`). A class with a log, a state and a usage ledger runs turns one at a time, and a state machine interleaves concurrent transactions over the same log. Every serial run keeps the stored state equal to the fold of the log, stamps each row with the next number and the hash of its state, and builds each prompt from a window of messages that alternate and hold no blocked text. Under every interleaving the committed numbers are 1 to n; a transaction that read a stale maximum can only abort, and received and sent messages alternate whenever each transaction holds whole exchanges. An unblocked message is answered by the echo of its first 350 characters, or by the fixed sentence exactly when that echo is blocked. The turn index counts every reply in a run without overlapping transactions, and otherwise can miss one: after any run it is exact if and only if no transaction committed replies between the beginning and the replying commit of another one, so a lost reply is never made up for.
- **Policies** (`ControlPlane.dfy`, `PolicyDsl.dfy`, `Proposals.dfy`, `SelfImprovement.dfy`, `ActionSelection.dfy`, `Signing.dfy`). An action is that of the first rule that fits the phase and the unresolved facts, or the default. In every state that any run of requests from any tenants can reach, signed means a verifying signature, deployments point only at signed policies of their tenant, every signed candidate has an approval whose gate passed, and each parent chain ends at an authored root with which the policy agrees on its id and protected fields and acts alike in every conversation state. Iterated proposing is confluent and saturates, with the exact count of the steps that change anything, and no improvement makes an answered turn fail or changes its answer.
- **Scores and gates** (`Scoring.dfy`, `PromotionChains.dfy`, `Evaluation.dfy`). The composite is monotone and bounded, candidates that dominate another on the same keys pass wherever that one does, and a row of promotion requests can all be passed with scores in [0, 1] exactly when there are at most 444 of them and the terms of each can be met.
- **Knowledge** (`Chunking.dfy`, `Retrieval.dfy`, `Knowledge.dfy`). Chunks lose no phrase of at most 151 characters and no word of at most 599, and these bounds are exact, for parts of words as well as for whole ones. Texts score by how many terms of the query they meet, and retrieval is a stable top-k of the scores: nothing left out meets more terms than what is cited. A snapshot with sources never changes, and a query term of at least three characters that is a token of a source within those bounds meets a chunk that scores; whether a query is sure of an answer, given the limit of 1000 rows, is characterized exactly.
- **Canonical JSON** (`CanonicalJson.dfy`, `CompactJson.dfy`, `Json.dfy`). A parser recovers every value from its text, so the text that hashes and signatures rest on is unambiguous (sections 4, 5 and 7 of RFC 8259) and independent of key order; and no text that reads as a value is shorter than its canonical one.

Code that changes rows or local variables in the source is a class or a method with loops here, proved equal to a specification function; the lemmas are about those functions and about runs of them. Hashing, HMAC, the safety patterns, `\w`, `str.lower` and the final conversions to text and float are function parameters.

Where the code differs from what its names or documents suggest, the model follows the code:

- `.get` reads a missing key and an explicit null alike, and Python's `==` identifies `true` with `1`. So an accepted change with an empty diff may still change the text that the content hash is taken of: `PolicyDsl.NullMayChangeText` and `PolicyDsl.AcceptedMayChangeText` show one of each kind for every document, and `Proposals.SilentCandidateExactly` says exactly when a proposed candidate is one.
- An empty `mutable`, `maximize` or `weights` argument means the default.
- A snapshot without sources is not immutable although its manifest says so; `Knowledge.EmptySnapshotChanges` says exactly when it changes.
- `pareto_dominates` may run in a circle on maps with different keys (`Scoring.DominanceMayCycle`); `Scoring.TransitiveExactly` says for which key sets it is transitive.
- A token of more than 151 characters in a word of more than 599 may be split between chunks so that no query finds it: `Knowledge.TokensAreKeptExactly`, `Knowledge.LongTermIsLost`.
- Above 1000 rows in scope the unordered query may leave out every row that scores: `Knowledge.AnsweredExactly`.
- Turns ignore the conversation's status (`Runtime.TurnIgnoresStatus`), and tag their events `observed` in a counterfactual branch too, so exact replay of a branch drops only its start event (`Runtime.ReplayOfBranch`).
- Concurrent turns can lose an update of the turn index (`EventTransactions.UpdateMayBeLost`); `EventTransactions.ExactIffNotOvertaken` says exactly when none is lost.

`dafny verify dfyconfig.toml` checks the whole project.

## Model

| member | source | states |
|---|---|---|
| CanonicalJson.Sorted | packages/policy_dsl/core.py:47 | Lists each key of a set once, in ascending code-point order |
| CanonicalJson.ParsePrint | packages/policy_dsl/core.py:29-30 | A parser for the compact form recovers every document from its text: sections 4, 5 and 7 of RFC 8259 read back unambiguously |
| CanonicalJson.PrintIsInjective | packages/policy_dsl/core.py:29-30 | Two values have the same text exactly when they are the same value |
| CanonicalJson.DumpsIsPrint | packages/policy_dsl/core.py:29-30 | The encoder that sorts the items of insertion-ordered dicts writes the canonical text of the unordered value |
| CanonicalJson.DumpsAgreesWithValue | packages/policy_dsl/core.py:29-30 | Texts agree exactly when the values agree up to insertion order at every depth |
| CanonicalJson.IntReadsBack | services/rsi_orchestrator/core.py:13 | `int()` of the text of an integer is that integer, so a width stored as text counts as its number |
| CompactJson.PrintIsShortest | packages/policy_dsl/core.py:29-30 | No text of the compact form that reads as a value is shorter than the canonical text of that value, so no character that could stand for itself is escaped |
| CompactJson.PlainStringsAreLiteral | packages/policy_dsl/core.py:30 | A string without a quote, a backslash or a character below 0x20 is written as itself between quotes |
| CompactJson.EscapesAreStandard | packages/policy_dsl/core.py:30 | Each other character has its two-character escape, or else `\u00` and two lower-case hex digits |
| CompactJson.KeysByCodePoint | packages/policy_dsl/core.py:30 | Keys are ordered by the first character in which they differ, and a prefix comes first |
| CompactJson.MembersInOrder | packages/policy_dsl/core.py:29-30 | An object is written with its keys in that order, each followed by its own value |
| Json.IntOfPadded | services/rsi_orchestrator/core.py:13 | `int()` of a text ignores the white space around it |
| Json.UnderscoreIsIgnored | services/rsi_orchestrator/core.py:13 | A single underscore between two parts of a number makes no difference |
| Json.DigitsAndUnderscores | services/rsi_orchestrator/core.py:13 | Nothing but digits and single underscores between them reads as a number |
| Json.IntOfOthers | services/rsi_orchestrator/core.py:13 | `int()` of true and false is 1 and 0, and of null, a list or a mapping it raises |
| Json.EqualityExactly | packages/policy_dsl/core.py:49 | Lists are equal item by item and mappings key by key at every depth; `true` and `false` equal 1 and 0, and everything else only itself |
| Json.FalsyExactly | packages/policy_dsl/core.py:84 | Null, false, 0, and the empty text, list and mapping are false, and nothing else |
| Signing.VerifiesOnlyThePackagedDocument | services/artifact_registry/service.py:7-11 | Under a collision-free hash, a packaged hash and signature verify for the packaged document and for no other |
| Signing.SignatureIsKeyed | packages/policy_dsl/core.py:35-39 | Under a collision-free code, a signature verifies exactly for the document and the key that it was made with |
| Signing.TakenOfEncodedText | packages/policy_dsl/core.py:32-36 | Hash and signature of a document are taken of the text that the encoder writes for it, whatever the insertion order of its keys |
| PolicyDsl.SemanticDiff | packages/policy_dsl/core.py:45-51 | The loop fills exactly the keys on which the two documents read differently, with both readings |
| PolicyDsl.DiffRecoversCandidate | packages/policy_dsl/core.py:45-51 | Writing a diff into its base recovers the candidate up to null-valued keys; the diff is empty exactly when the documents read alike |
| PolicyDsl.DiffRecoversBase | packages/policy_dsl/core.py:45-51 | Writing the earlier readings of a diff into the candidate recovers the base up to null-valued keys |
| PolicyDsl.ValidateMutation | packages/policy_dsl/core.py:53-66 | The errors are the violated rules, each once; there are none exactly when the candidate is schema-valid and agrees with the base on all protected and immutable keys |
| PolicyDsl.NoViolationIsAcceptance | packages/policy_dsl/core.py:53-66 | No rule is violated exactly for an accepted candidate |
| PolicyDsl.OneChangeIsAccepted | packages/policy_dsl/core.py:53-66 | For every document, field, value and mutable set: a change of one field is accepted exactly when the result is valid and the field reads as before or is unprotected and one of the mutable ones (by default the seven components) or of version, description and metadata |
| PolicyDsl.FieldTypes | packages/policy_dsl/core.py:12-27 | A field of a valid document may be given exactly the values of its type; unknown fields may have any |
| PolicyDsl.FieldsRequired | packages/policy_dsl/core.py:13-24 | Exactly four fields cannot be left out |
| PolicyDsl.MutationIsAccepted | packages/policy_dsl/core.py:68-75 | Patching one allowed component of a valid document always gives an accepted candidate and changes no other key; any other component raises |
| PolicyDsl.ChainIsAccepted | packages/policy_dsl/core.py:53-66 | Acceptance carries over any chain of accepted steps, end to end |
| PolicyDsl.AcceptedMayChangeText | packages/policy_dsl/core.py:45-66 | An accepted change of a protected field from true to 1 has an empty diff and a different canonical text |
| PolicyDsl.NullMayChangeText | packages/policy_dsl/core.py:45-66 | Every valid document has an accepted one that adds a null field, with an empty diff and a different canonical text |
| PolicyDsl.SilentMutationExactly | packages/policy_dsl/core.py:29-75 | A mutation has an empty diff exactly when the component holds the patch already up to true against 1, and then another text exactly when it does not hold it literally |
| ActionSelection.ChooseAction | packages/policy_dsl/core.py:77-87 | The scan returns the choice that the action policy and the state determine, or raises where they make it raise |
| ActionSelection.FirstMatch | packages/policy_dsl/core.py:80-87 | The earliest rule that applies is chosen, one that raises first fails the call, and the default is used when every rule fails |
| ActionSelection.ChoosesFirstFit | packages/policy_dsl/core.py:77-86 | For rules with an optional phase and fact: the choice is the action, by default `clarify`, and the confidence, by default 0.8, of the first rule that asks for no phase or the dialogue's (by default `opening`) and for no fact or one that is unresolved |
| ActionSelection.ChoosesDefault | packages/policy_dsl/core.py:77-87 | Where no such rule fits the choice is the default action, `clarify` if there is none, at 0.6 |
| ActionSelection.FactsElsewhere | packages/policy_dsl/core.py:84 | Among facts given as a text a fact is looked for as a part of it, in a mapping as a key, and in nothing else without raising |
| ActionSelection.RulesElsewhere | packages/policy_dsl/core.py:79-80 | Rules given as an empty text or mapping are no rules; given as anything else but a list they raise |
| ActionSelection.RaisesOnMeeting | packages/policy_dsl/core.py:81-84 | A rule or a condition that is no mapping raises when it is met, and so does a fact asked for where the slots are no mapping |
| Proposals.StepIsAccepted | services/rsi_orchestrator/core.py:19-21 | The child that an operator makes of a valid document is valid and accepted against it |
| Proposals.StepIsAcceptedExactly | services/rsi_orchestrator/core.py:19-22 | For any base that an operator applies to, the child is accepted exactly when the base is schema-valid |
| Proposals.FiredExactly | services/rsi_orchestrator/core.py:12-18 | Each of three operators is called for exactly when its own score is given and below its own threshold, the fourth always, in a fixed order that a limit of four never cuts |
| Proposals.StepWrites | services/rsi_orchestrator/core.py:12-20 | An operator writes its two entries with the stated values into its component and keeps every other entry and field |
| Proposals.SliceReads | services/rsi_orchestrator/core.py:19 | A limit keeps a prefix of the suggestions, of its own length or, when negative, shortened by it |
| Proposals.MakeCandidate | services/rsi_orchestrator/core.py:19-22 | A candidate holds the patched document, its diff and its hash, and is marked valid exactly when its base is schema-valid |
| Proposals.ProposeCandidates | services/rsi_orchestrator/core.py:9-23 | For any base, one candidate for each operator that the evidence calls for, in order, cut at the limit; fails exactly when a suggested patch cannot be built, or one within the limit cannot be applied |
| Proposals.SilentCandidateExactly | services/rsi_orchestrator/core.py:19-22 | Under a collision-free hash, a proposed candidate has an empty diff and a new hash exactly when the component holds the patch up to true against 1 but not literally |
| Proposals.SilentCandidateExists | services/rsi_orchestrator/core.py:18-22 | A termination policy whose stop flag is 1 gives such a candidate |
| SelfImprovement.RunIsTuned | services/rsi_orchestrator/core.py:9-23 | Any run of operators succeeds exactly when each can build its first patch, and leaves a document given in closed form by how often each operator ran |
| SelfImprovement.OrderDoesNotMatter | services/rsi_orchestrator/core.py:9-23 | Runs with the same operators in any order give the same document |
| SelfImprovement.ContextAfterTuning | services/rsi_orchestrator/core.py:12-13 | After n >= 1 retrieval tunings, anywhere in a run, the width is min(12, k0 + 2n) |
| SelfImprovement.ImprovementSaturates | services/rsi_orchestrator/core.py:9-23 | However long the run, at most as many steps change the document as its operators have room together, which is at most max(1, ceil((12 - k0) / 2)) + 3 |
| SelfImprovement.ChangesExactly | services/rsi_orchestrator/core.py:9-23 | From any valid document, a run changes it exactly as often as the operators it holds have room, whatever their order |
| SelfImprovement.SaturationIsReached | services/rsi_orchestrator/core.py:9-23 | Every document with usable limits has a run that uses all of the room |
| SelfImprovement.BoundIsAttained | services/rsi_orchestrator/core.py:9-23 | The room is the bound itself exactly when no operator finds its first patch there already |
| SelfImprovement.MissingHasRoom | services/rsi_orchestrator/core.py:12-18 | An operator whose component is missing can always change the document |
| SelfImprovement.DescendantsActAlike | packages/policy_dsl/core.py:77-87 | Every descendant chooses the same action with the same confidence as its root in every state, and keeps the root's prompt, its retrieval switch and its snapshot |
| SelfImprovement.RunIsAccepted | packages/policy_dsl/core.py:53-75 | Every descendant is accepted against its root |
| SelfImprovement.LineageIsRun | services/rsi_orchestrator/core.py:9-23 | Every lineage of proposed documents is a run of operators |
| Scoring.WeightedScore | services/evaluation_service/evaluators.py:7-10 | The two sums over the keys give the quotient of the weighted total and the weight, 0 when there is no weight |
| Scoring.OnlyWeightedCount | services/evaluation_service/evaluators.py:8-10 | With weights given, scores without a weight do not count |
| Scoring.CompositeOfTwo | services/evaluation_service/evaluators.py:8-10 | The composite of two scores is their mean under the given weights |
| Scoring.CompositeIsMonotone | services/evaluation_service/evaluators.py:7-10 | With non-negative weights and equal keys, pointwise higher scores give a composite at least as high, and higher where a weighted score is |
| Scoring.CompositeIsBounded | services/evaluation_service/evaluators.py:7-10 | Scores between two bounds around 0 have a composite between them |
| Scoring.DominanceIsAsymmetric | services/rsi_orchestrator/core.py:25-29 | On any maps, nothing dominates itself and no two maps dominate each other |
| Scoring.OnlyMaximizedCount | services/rsi_orchestrator/core.py:26-29 | With keys to maximize, dominance is that of the maps cut down to those keys |
| Scoring.TransitiveExactly | services/rsi_orchestrator/core.py:25-29 | Dominance is transitive for all maps on three key sets if and only if a first or second comparison is empty, or the middle set holds every key of the direct comparison and the keys of the first or of the second comparison all belong to the remaining set |
| Scoring.DominanceIsStrictOrder | services/rsi_orchestrator/core.py:25-29 | On maps with one key set, dominance is a strict partial order |
| Scoring.DominanceMayCycle | services/rsi_orchestrator/core.py:25-29 | On maps with different key sets three maps may dominate each other in a circle |
| Scoring.PromotionGate | services/rsi_orchestrator/core.py:31-39 | The branches build the gate whose failures are the four conditions, without the division |
| Scoring.GatePassesExactly | services/rsi_orchestrator/core.py:31-39 | The gate passes exactly when no condition fails, and lists exactly those that do |
| Scoring.GainThreshold | services/rsi_orchestrator/core.py:35-37 | The gain falls short exactly when c < b + 0.05 max(abs b, 1e-9) |
| Scoring.GateInFull | services/rsi_orchestrator/core.py:31-39 | With the defaults of the code: the gate passes, and lists each of its four failures, exactly on the stated comparisons, and the gain it reports, times max(abs b, 1e-9), is c - b |
| Scoring.DominatingCandidatePasses | apps/control_api/routes.py:249-252 | Whoever Pareto-dominates a candidate that passes the gate, on the same keys, passes too |
| PromotionChains.ChainLengths | services/rsi_orchestrator/core.py:35-37 | Composites in [0, 1] that each pass the gain check against the one before exist for n promotions exactly when n <= 444 |
| PromotionChains.GeometricGrowth | services/rsi_orchestrator/core.py:35-37 | From a positive start such a chain grows at least like 1.05 to the n |
| PromotionChains.GateChainLengths | apps/control_api/routes.py:249-252 | A row of requests, each with its own hard constraints and coverage, can be passed one after the other with score maps in [0, 1] exactly when there are at most 444 and each has terms that can be met |
| Evaluation.EvaluateDeterministic | services/evaluation_service/evaluators.py:12-31 | The loop computes repetitions as non-empty replies less distinct ones, grounding from the uncited long replies, and every score and verdict from those |
| Evaluation.ScoresInFull | services/evaluation_service/evaluators.py:13-28 | Quality times the number of replies is the number that repeat no earlier one, and grounding times it is that number less a quarter for each reply of nine words or more without a citation; without replies they are 1 and 0 |
| Evaluation.RepeatedAreEarlier | services/evaluation_service/evaluators.py:17-21 | A reply counts as repeated exactly when it is not empty and reads like an earlier one |
| Evaluation.UngroundedAreLong | services/evaluation_service/evaluators.py:22-24 | What lowers the grounding are the replies of at least nine words without a citation |
| Evaluation.RepliesAreSent | services/evaluation_service/evaluators.py:13 | The replies of a log are those of its parts in order |
| Evaluation.RepliesOfOne | services/evaluation_service/evaluators.py:13 | A single event is a reply exactly when it is a sent message |
| Evaluation.PaddingIsIgnored | services/evaluation_service/evaluators.py:19 | Replies are compared and counted in lower case without the white space around them |
| Evaluation.BlankIsEmpty | services/evaluation_service/evaluators.py:19 | A reply without content, or with nothing but white space, reads as an empty one |
| Text.OneMoreCharacter | services/evaluation_service/evaluators.py:23 | A further character begins a word unless it is white space or continues one, so words are the maximal runs of other characters |
| Text.OneWord | services/evaluation_service/evaluators.py:23 | A text without white space is one word |
| Text.WordsAcrossSpace | services/evaluation_service/evaluators.py:23 | White space separates words and adds none |
| Evaluation.PassesExactly | services/evaluation_service/evaluators.py:25-30 | Quality is in (0, 1], so its clamp never acts; at the default threshold a conversation passes exactly with a reply and 5 times the uncited long replies at most 2 times the replies |
| Evaluation.CompositeOfEvaluation | services/evaluation_service/evaluators.py:5-29 | The composite of an evaluation is 0.67 quality + 0.15 grounding + 0.18 |
| Evaluation.CompositeOfEight | services/evaluation_service/evaluators.py:5-10 | The composite of any eight scores is their sum under the weights 0.30, 0.18, 0.15, 0.12, 0.08, 0.07, 0.05 and 0.05 |
| Chunking.NormalizeIsNormal | services/rag_service/service.py:9 | Normalised text has single blanks between words and none at its ends |
| Chunking.NormalizeRepeats | services/rag_service/service.py:9 | Every run of non-space characters survives the normalisation, between the same neighbours or blanks |
| Chunking.ChunkText | services/rag_service/service.py:8-20 | The loop ends for every target of at least 1 and returns the stripped windows |
| Chunking.WindowsAreLinked | services/rag_service/service.py:12-19 | Each window begins where the one before prescribes, the first at 0, and the last ends with the text |
| Chunking.ChunkCount | services/rag_service/service.py:12-19 | With an overlap of at most half the target, k chunks need more than (target/2 + 1 - overlap)(k - 1) characters |
| Chunking.PhraseIsKept | services/rag_service/service.py:12-19 | Every phrase of at most overlap + 1 characters lies whole in some chunk |
| Chunking.WordIsKept | services/rag_service/service.py:12-19 | Every word of at most target - target/2 - 1 characters (599) lies whole in some chunk, whatever the other words are |
| Chunking.PartsAreKeptExactly | services/rag_service/service.py:12-19 | Every part of n characters of words of w characters is found in some chunk of every text if and only if n is at most overlap + 1 or w is at most target - target/2 - 1; for n = w the parts are the words |
| Chunking.ChunkShape | services/rag_service/service.py:17 | Every chunk is non-empty, within the target, and begins and ends on a non-space |
| Chunking.WindowsRebuildText | services/rag_service/service.py:12-19 | The windows laid over one another rebuild the text |
| Retrieval.LexicalScore | services/rag_service/service.py:22-25 | The score is in [0, 1] and positive exactly when query and text share a term |
| Retrieval.ScoresByTermsMet | services/rag_service/service.py:22-25 | One text scores higher than another exactly when it meets more terms of the query; it scores 1 exactly when it meets them all, and every text scores 0 for a query without terms |
| Retrieval.TokensExactly | services/rag_service/service.py:23-24 | A maximal run of word characters is a token of its text |
| Retrieval.TokensAreRuns | services/rag_service/service.py:23-24 | Every token is such a run |
| Retrieval.ShortWordsAreIgnored | services/rag_service/service.py:23 | The terms of a query are its tokens of at least three characters in lower case; shorter ones ask for nothing |
| Retrieval.TermsOfText | services/rag_service/service.py:24 | A text offers all its tokens, in lower case and of any length |
| Retrieval.SortedIsOrdered | services/rag_service/service.py:35 | The ranking lists exactly the fetched rows, higher scores first, ties in fetch order |
| Retrieval.OrderIsUnique | services/rag_service/service.py:35 | Only one list of the same rows is in that order |
| Retrieval.FilterCommutesWithTake | services/rag_service/service.py:35-36 | Dropping zero scores after the truncation equals dropping them before |
| Retrieval.CitedExactly | services/rag_service/service.py:35-36 | Only rows that score are cited; one that scores and is not cited comes after k cited ones |
| Retrieval.CitedRows | services/rag_service/service.py:35-36 | Every citation is a fetched row with its own score, and there are at most k |
| Retrieval.CitedInOrder | services/rag_service/service.py:35 | Citations come with higher scores first, and in fetch order among equals |
| Retrieval.CitationsExtend | services/rag_service/service.py:35-36 | A larger limit extends the citations as a prefix |
| Retrieval.ConfidenceIsFraction | services/rag_service/service.py:38 | Confidence is in [0, 1], and 0 exactly when nothing is cited |
| Retrieval.ConfidenceIsTwiceTheMean | services/rag_service/service.py:38 | Confidence is twice the mean score of the citations, and at most 1 |
| Retrieval.TotalConcat | services/rag_service/service.py:38 | The mean is taken of the sum of their scores |
| Retrieval.ConfidenceDrops | services/rag_service/service.py:35-38 | A larger limit, from 1 on, never raises the confidence |
| Knowledge.KnowledgeBase.AddSource | apps/control_api/routes.py:145-153 | A second upload of a tenant's content is answered with the first source and changes nothing; otherwise a source and one chunk row per piece are added |
| Knowledge.KnowledgeBase.PublishSnapshot | apps/control_api/routes.py:164-169 | A snapshot is added with the next version, unless a source is missing or of another tenant: then nothing changes |
| Knowledge.RunIsSound | apps/control_api/routes.py:144-169 | In every run each source has exactly the pieces of its content as chunks, chunks and snapshots refer to sources of their tenant, and no tenant has a checksum twice |
| Knowledge.ReachableIsSound | apps/control_api/routes.py:144-169 | All of that, and snapshot versions that count up, hold in every state that requests reach from empty tables |
| Knowledge.UploadIsWhole | apps/control_api/routes.py:145-153 | Under a collision-free hash the source that an upload returns, new or found, is whole for the uploaded content |
| Knowledge.RunPlacesChunks | apps/control_api/routes.py:151-152 | In every run each chunk is numbered by its place among the pieces of its source and carries the hash of its text |
| Knowledge.SnapshotIsImmutable | apps/control_api/routes.py:164-169 | Over any later run, a snapshot with sources keeps its row and the very rows that can be retrieved from it |
| Knowledge.EmptySnapshotChanges | services/rag_service/service.py:30-32 | What a snapshot offers changes exactly when it lists no sources and its tenant uploads something new that is not blank |
| Knowledge.ScopeIsWhole | services/rag_service/service.py:30-33 | A snapshot with sources offers exactly the pieces of those sources, all of its tenant |
| Knowledge.CitationsAreInScope | services/rag_service/service.py:27-39 | Every citation is a chunk of the tenant from the snapshot's sources, with its positive score |
| Knowledge.BestAreCited | services/rag_service/service.py:33-36 | No fetched chunk that is not cited meets more terms of the query than one that is, and one that meets some is left out only when as many are cited as the limit allows |
| Knowledge.QuotesAreBeginnings | services/rag_service/service.py:36 | A citation quotes the first 240 characters of its chunk |
| Knowledge.TokenIsKept | services/rag_service/service.py:8-25 | Every token of a text, of at most 151 characters or within a blank-delimited word of at most 599, is a token of one of its chunks |
| Knowledge.TermIsFound | services/rag_service/service.py:22-35 | A query term of more than two characters that reads like such a token of a source of the snapshot meets a chunk with a positive score |
| Knowledge.TokensAreKeptExactly | services/rag_service/service.py:8-25 | Every token of n characters in words of w characters is a token of some chunk of every text if and only if n is at most 151 or w at most 599 |
| Knowledge.LongTermIsLost | services/rag_service/service.py:8-35 | For every other n and w there is a source with such a token for which no chunk of its snapshot scores |
| Knowledge.FetchIsAnswered | services/rag_service/service.py:33-39 | An answer has citations and confidence exactly when some fetched row scores |
| Knowledge.AnsweredExactly | services/rag_service/service.py:33-39 | Whatever rows the query returns it is answered, if and only if fewer rows in scope score nothing than the query fetches, at most 1000 |
| Knowledge.TermIsAnswered | services/rag_service/service.py:33-39 | Up to 1000 rows in scope, a chunk that scores is enough |
| Knowledge.RunNumbersSnapshots | apps/control_api/routes.py:167-168 | In every run the versions of each tenant's project count 1, 2, 3, ... |
| Runtime.Conversation.AppendEvent | apps/conversation_runtime/runtime.py:17-26 | One row is added, numbered after the highest and stamped with the hash of the current state |
| Runtime.Conversation.RecentMessages | apps/conversation_runtime/runtime.py:64-68 | The backward query gives the last twelve messages in order |
| Runtime.Conversation.RunTurn | apps/conversation_runtime/runtime.py:28-93 | A turn raises exactly under the stated conditions; otherwise it leaves the specified log, state and ledger and returns the specified reply |
| Answers.AnsweredByEcho | apps/conversation_runtime/runtime.py:78-87 | A message that is not blocked is answered by "I understand. " and its first 350 characters without the blanks at the end, or by the fixed sentence exactly when that echo is blocked; the reply is what the log says |
| Answers.ShortTextIsEchoed | packages/provider_adapters/models.py:9-10 | A text of at most 350 characters that ends on a non-space is repeated in full unless that is blocked |
| Answers.BlockedIsRefused | apps/conversation_runtime/runtime.py:32-35 | A blocked message is refused with the fixed words, leaves one security event with its report and changes nothing else |
| Answers.AnswerIsRecorded | apps/conversation_runtime/runtime.py:36-87 | The received, selected and sent rows hold the text, the action with its confidence, and the reply with its action, its citations and the safety report of the echo |
| Answers.EvidenceIsRecorded | apps/conversation_runtime/runtime.py:52-62 | Evidence is recorded with its citations and confidence before the reply, which cites it; without evidence there are no citations and no such row |
| Answers.StateAfterAnswer | apps/conversation_runtime/runtime.py:83-86 | An answer adds one to the turn index, records its action and changes nothing else of the state |
| Answers.TurnsFail | apps/conversation_runtime/runtime.py:29-42 | A kill switch makes every turn fail, an unusable policy every turn that is not refused, and a refusal needs no policy |
| Answers.EvidenceIsAskedFor | apps/conversation_runtime/runtime.py:54-60 | With a snapshot, evidence is asked for by it, the current text and the limit, 6 if there is none, unless it is switched off; a limit outside 1 to 50 makes the turn fail |
| Answers.NoSnapshotNoEvidence | apps/conversation_runtime/runtime.py:55 | Without a snapshot nothing is asked for |
| Answers.SystemTextIs | apps/conversation_runtime/runtime.py:69-72 | The prompt begins with the system text of the policy, and with evidence, if there is any, after the fixed header |
| Answers.WithoutPolicy | apps/conversation_runtime/runtime.py:43-49 | A conversation without a policy runs under the default one: no rules, `clarify` at 0.6, no retrieval |
| Answers.AnswerIsCharged | apps/conversation_runtime/runtime.py:88-92 | One ledger row holds the words of the prompt and of the echo, for the source of the conversation; the reply reports the same |
| Answers.TokensConcat | packages/provider_adapters/models.py:13 | The tokens of a prompt add up over its messages |
| Answers.TokensOfOne | packages/provider_adapters/models.py:13 | Those of one message are its words |
| Runtime.TurnGrammar | apps/conversation_runtime/runtime.py:28-93 | A turn keeps the log and adds one security event, or the received, selected, perhaps retrieval and sent rows in order; the action selected in the old state is the one sent and remembered, and only the reply carries the hash of the new state |
| Runtime.Conversation.HandleMessage | apps/control_api/routes.py:119-122 | A turn that raises changes nothing; any other is committed |
| Runtime.Conversation.Stop | apps/control_api/routes.py:132-135 | The status changes and a finishing event is appended |
| Runtime.Conversation.Branch | apps/control_api/routes.py:138-142 | The child starts from the parent's state under its own id with one counterfactual event; the parent is unchanged |
| Runtime.Conversation.Replay | services/rsi_orchestrator/core.py:41-43 | The observed events in order, coverage 1 exactly when there are any, and no change to the ledger |
| Answers.ReplayConcat | services/rsi_orchestrator/core.py:41-43 | The replay of a log is that of its parts in order |
| Answers.ReplayOfOne | services/rsi_orchestrator/core.py:42 | A single event is replayed exactly when it is observed |
| Runtime.CreateConversation | apps/control_api/routes.py:114-116 | A new conversation has turn index 0 and one start event of the requested kind |
| Runtime.Chat | apps/control_api/openai_compat.py:22-30 | The conversation that was found, or a new one without a start event, takes a turn on the last user message; a turn that raises leaves no trace |
| Runtime.BirthsAreNewborn | apps/control_api/routes.py:113-142 | Created, chatting and branched conversations all start with at most one event, which carries the hash of their initial state; a branch inherits the turn index |
| Answers.CreatedReads | apps/control_api/routes.py:114-116 | A created conversation is active, in the opening phase without unresolved facts, knows its tenant, project, agent and id, and has one start event with the kind it was asked for |
| Answers.ChattingReads | apps/control_api/openai_compat.py:27-28 | So is one that the chat endpoint begins, without an event |
| Answers.BranchReads | apps/control_api/routes.py:138-142 | A branch has its own id and reads like its parent on every other key; its one event names the parent |
| Answers.StopReads | apps/control_api/routes.py:132-135 | Stopping changes the status, adds one finishing event and nothing else |
| Runtime.RunIsConsistent | apps/conversation_runtime/runtime.py:17-26 | In every serial run of any such conversation the state is the fold of the log, and row i is numbered i and carries the hash of the fold up to itself |
| Runtime.TurnIndexCountsReplies | apps/conversation_runtime/runtime.py:83-87 | The turn index of a fold is the initial one plus the number of replies |
| Runtime.RunIsWellTold | apps/conversation_runtime/runtime.py:32-92 | In every serial run messages alternate received and sent, none is blocked text, and there is one ledger row per reply |
| Runtime.PromptIsWindow | apps/conversation_runtime/runtime.py:64-74 | After any run a prompt is the system text and the last twelve messages at most, alternating, ending with the current text and free of blocked text |
| Runtime.ReplyDependsOnTextOnly | packages/provider_adapters/models.py:8-15 | The reply is a function of the current text, whatever the history, the policy and the evidence |
| Runtime.ImprovementKeepsAnswers | apps/conversation_runtime/runtime.py:38-87 | A turn that is answered under a policy is answered alike, with the same content and action, under every improvement of that policy |
| Runtime.TurnIgnoresStatus | apps/conversation_runtime/runtime.py:28-93 | A stopped conversation takes turns as an active one does |
| Runtime.RunAddsObserved | apps/conversation_runtime/runtime.py:17-26 | Every event added after the start is observed, and none is changed |
| Runtime.ReplayOfBranch | services/rsi_orchestrator/core.py:41-43 | After any run, replay of a branched conversation gives all of its events but the start |
| EventTransactions.RunKeeps | apps/control_api/models.py:105 | Under every interleaving of begin, append, commit and abort, each conversation's committed numbers are 1 to n in commit order, and its turn index is at most the inherited one plus its replies |
| EventTransactions.RunTellsWell | apps/conversation_runtime/runtime.py:36-87 | If every transaction that commits holds whole exchanges, received and sent messages alternate in each conversation's committed log under every interleaving |
| EventTransactions.CommitsIffFresh | apps/control_api/models.py:105 | A commit succeeds exactly when the transaction is not stale |
| EventTransactions.StaleNeverCommits | apps/conversation_runtime/runtime.py:18-21 | A transaction that has read a stale maximum never commits, whatever happens next |
| EventTransactions.CommitMakesStale | apps/conversation_runtime/runtime.py:18-25 | Of two transactions that have both appended, the commit of one makes the other stale |
| EventTransactions.ExactIffCurrent | apps/conversation_runtime/runtime.py:83-86 | After a commit of replies the turn index is exact if and only if it was exact before and is the value that the transaction loaded |
| EventTransactions.RunExactIffAllCurrent | apps/conversation_runtime/runtime.py:83-87 | Over any run a turn index is exact at the end if and only if it was exact at the start and every commit of replies was by a transaction that had loaded the index of the moment |
| EventTransactions.ExactIffNotOvertaken | apps/conversation_runtime/runtime.py:83-87 | From the schedule alone: after any run from nothing the turn index of a conversation is exact if and only if no transaction was overtaken there, that is, no commit of replies lies between the beginning and the replying commit of another transaction |
| EventTransactions.SerialIsExact | apps/control_api/routes.py:119-122 | So in every run in which no two transactions are ever open at once, every reply is counted |
| EventTransactions.LoadsAtBegin | apps/control_api/routes.py:120 | A transaction has loaded the turn index that was committed when it began |
| EventTransactions.CountsFromCreation | apps/control_api/routes.py:138-142 | The count starts from the index that the conversation was created with |
| EventTransactions.FinishedIsFinal | apps/control_api/routes.py:122 | A transaction that has tried to commit, or was aborted, does nothing more |
| EventTransactions.OnlyCommitsWrite | apps/conversation_runtime/runtime.py:83-87 | No other step changes a committed conversation |
| EventTransactions.UpdateMayBeLost | apps/conversation_runtime/runtime.py:83-87 | Two turns that loaded the same conversation can both commit, one after the other, and count as one |
| ControlPlane.DefaultsFillIn | apps/control_api/routes.py:75-76 | The defaults add the four required fields where they are missing and overwrite nothing that the author gave |
| ControlPlane.IdTextsDiffer | apps/control_api/routes.py:76 | The default policy ids of two agents differ |
| ControlPlane.Store.CreateAgentVersion | apps/control_api/routes.py:71-84 | The authored document with its defaults is stored signed and deployable, or refused with nothing changed |
| ControlPlane.Store.AddAgent | apps/control_api/routes.py:65-69 | An agent of the tenant is added |
| ControlPlane.Store.CreateExperiment | apps/control_api/routes.py:212-215 | An experiment is added whatever its baseline; candidates can be proposed for it exactly when the baseline is a policy of the tenant |
| ControlPlane.Store.CreateDeployment | apps/control_api/routes.py:92-98 | A deployment is added exactly for a known stage and a signed policy of the tenant |
| ControlPlane.Store.RollBack | apps/control_api/routes.py:104-111 | The target, if the tenant has it, becomes active in production at 100 percent, and its policy is signed |
| ControlPlane.RollbackReads | apps/control_api/routes.py:104-111 | A rollback succeeds exactly when deployment and target are there and the tenant's; it marks the one as rolled back, puts the other in production and changes nothing else |
| ControlPlane.Store.CreateCandidates | apps/control_api/routes.py:221-234 | A policy row and a candidate row are added for each proposal, or nothing on a failure |
| ControlPlane.GenerationReads | apps/control_api/routes.py:227-234 | A generation that does not fail adds one candidate for each operator that the evidence calls for |
| ControlPlane.Store.PromoteCandidate | apps/control_api/routes.py:247-261 | The verdict is approve exactly when asked for and the gate passes; an approval signs the candidate's policy and no row of another tenant changes |
| ControlPlane.DecisionReads | apps/control_api/routes.py:249-255 | A decision approves exactly when asked for and the gate passes, rejects exactly when it does not, and names an approver only on an approval |
| ControlPlane.DecideKeeps | apps/control_api/routes.py:253-261 | A decision keeps every invariant, loses nothing and touches only its own tenant |
| ControlPlane.RequestsAreHandled | apps/control_api/routes.py:71-261 | The requests of a run have the very effects that the handlers are proved to have |
| ControlPlane.HandleKeeps | apps/control_api/routes.py:71-261 | Each request keeps every invariant, loses no row, document or signature, and touches only its own tenant's rows |
| ControlPlane.RunKeeps | apps/control_api/routes.py:71-261 | Every reachable state satisfies the invariants, and along any run documents never change and signed is never lost |
| ControlPlane.LineageIsRight | apps/control_api/routes.py:227-230 | The parent chain of every policy is finite and without a cycle, ends at an authored root, stays with one tenant and agent, and consists of proposed documents |
| ControlPlane.PoliciesActLikeTheirRoot | apps/control_api/routes.py:71-84 | In every reachable state each policy is a run of operators from its authored root, agrees with it on id and protected fields, and selects the same action in every conversation state |
| ControlPlane.ReachableIsTrusted | apps/control_api/routes.py:71-261 | In every reachable state signed policies verify, signed candidates have an approval whose gate passed, deployments refer to signed policies of their tenant, and stored candidates are valid |

## Left out

- HTTP routing, request validation by Pydantic, JWT, roles and audit rows: plumbing around the modelled handlers; a principal is a tenant and a subject.
- The SQL engine: tables are sequences, a row's id is its position (the default id of a policy holds it in decimal), and a commit is atomic. Locks are not modelled.
- SHA-256, HMAC, the safety patterns, `\w`, `str.lower`, `str()` and `float()` of a chosen action: function parameters. Properties say where they need a collision-free hash, a refusal sentence that is not blocked, or that blanks are not word characters.
- Floating point: scores, evidence, confidence and coverage are exact reals. Numbers inside JSON documents are integers. `int()` of text reads ASCII digits, without the interpreter's limit on their number.
- Strings are sequences of Unicode scalar values; a lone surrogate, which could not be encoded, does not occur.
- The remote model provider, streaming, latency and cost: the provider is the deterministic one, and a ledger row holds the token counts.
- `dict()` of anything but a mapping, as a component or a dialogue state: counted as raising, or shown not to occur.
- ActionSelection.ChooseAction: the final `str()` and `float()` are applied by the runtime model, as `Env.settle`, which may raise.
- Proposals.ProposeCandidates: evidence values are numbers; a value that cannot be compared with one is not modelled.
- Knowledge.KnowledgeBase.AddSource: the type, address and metadata of a source, and the title that citations take from them, are not stored.
- Knowledge.CitationsAreInScope: the evidence text joined from the citations is not built; the runtime takes it as given.
- Runtime.Chat: the lookups of the deployment and of the conversation are left out, and so is the response payload.
- EventTransactions.RunKeeps: a transaction works on one conversation and sees every committed row when it appends; a violated constraint shows at the commit.
- ControlPlane.Store.AddAgent: the project that an agent belongs to, and the check that the tenant has it, are left out.
- ControlPlane.Store.CreateExperiment: of the manifest only the baseline is stored, and no budget.
- ControlPlane.Store.CreateAgentVersion: the agent version row beside the policy, numbered like a snapshot, is left out.
- `bounded_counterfactual`, the worker, budgets, turn limits, traffic splits and scenario records: no modelled code enforces anything about them.
