# Sherwood fund coordination: a verified model

Several agents and a host run one fund from a chat. They share one state file and coordinate only through it. This
project models that coordination in Dafny, together with the smaller machines around it, and proves what the code and
its documentation promise of them: over every run, every interleaving and every input.

## The parts

**The fund** (`sherwood_monitor/fund/`).
`Text`, `Numerals`, `Topics`, `Legs`, `FundModel`, `Rules` are the data and the checks; `Service` says what each action
does as a function on states; `Ledger.FundLedger` is the imperative service, an object whose methods are proved to do
just that and to leave every field alone when a rule refuses. `Protocol` makes runs of actions at arbitrary clock
readings. `Terms`, `Acceptance`, `Refusals` and `Effects` say all of this once more of the records alone, without the checks
and lookups of the code: whom a name means, what each action needs, with which code it is refused, and what it leaves. The
service is proved to be just that, no more and no less. About the runs:

- `Coordination`: the quotas and the claim rules hold after every run of single steps, for any clock readings.
- `Reservation`: a live claim is a reservation. Whatever the others do, the holder's draft can only be refused by the
  fund gates, the envelope or the legs; and exactly which late chain moves break that.
- `TopicClaims`, `Topics`: when a topic that is taken is refused to a second agent, and the topics for which it is not.
- `Lifecycle`, `Evolution`, `Authority`: the life of a proposal, one legal step at a time, and who can cause each step.
- `CooldownRuns`: nothing opens while the fund cools, what its end is after any run, and exactly which settlements start a
  cooldown.
- `Members`, `Receipts`, `Credits`, `Votes`: the ledgers against the history of the run: who has which number, whom each
  receipt credits with what, whose ballot stands; and exactly what breaks the receipts.
- `Payload`, `Drafts`: every recorded proposal is what an agent asked for when it met every term of a draft; the body of its
  prepare request carries what the request says, and keeps what the checks promised, also for EIP-20 approvals read from the
  bytes of the call data.
- `Bond`, `Units`: ceiling arithmetic, and decimals in a context of 100 digits and a bounded exponent.
- `Scenario`: one concrete fund and its host's steps from creation on; the failures below are runs of such steps.

**The shared file** (`fund/store.py`). `Store` is the lock, read, mutate, temporary write and replace protocol of any
number of processes, with exceptions, timeouts and crashes between any two steps. One of the fund's updates, the move of a
chain row, is committed without its test, which ran on an earlier load. `ChainRace` says when the two visits are one legal
step, `Moves` how what is exact of one move becomes exact of a run of actions and such late moves, and `Concurrent` puts
fund and file together: under any interleaving the file holds the outcome of one run of moves, each late one tested on an
earlier state of that run. The statements about members, votes, drafts and the cooldown hold of all such runs. Those about
the quotas, the receipts and reservations do exactly under conditions on the late moves, and `SharedFacts` carries these to
the file; `Interleaving` plays the failures. Those about the life of a proposal are of single steps, and a run whose late
moves would all still pass their test is one of single steps.

**Smaller machines.** `Flow` (pitch to draft request, interleaved at its awaits) with `Heard` (what it holds of people's
messages), `Router` (bounded duplicate filter),
`Sidecar` (matching of JSON-RPC replies, section 5 of the JSON-RPC 2.0 specification), `CronCursor` (the autonomous tick). In
`Flow` and `Sidecar` each method is the code between two awaits, so a sequence of method calls is an interleaving and the
class invariant speaks of all of them. `CursorFile` is the cursor file that the ticks of any number of funds and processes
share, where a tick loads, loads again and saves and the lock is one of the process; it follows on whose work each entry
builds. `CursorRuns` derives what that means for the cursors and for what is emitted, whatever the sessions report.

**Encodings.** `Links` (signed messages), `StartPayload`, `SignBody` (RFC 4648 sections 3.2 and 5).

## What was found

Where the code does not do what its documentation says, the code is modelled and the exact condition is proved.

- Two agents can hold one topic. `check_claim` normalizes a topic and `claim_for_topic` normalizes it again; if the
  first pass, cutting at 80 characters, leaves a trailing blank, the second drops it and the holder is not found
  (`TopicClaims.TakenTopicRefusedIff`, `TopicClaims.TwoAgentsOneTopic`).
- The quotas can break. A row of a chain card is tested in one visit to the file and applied, untested, in another. If
  between the two its proposal is cancelled and its proposer drafts another, the move revives the first, and one agent has
  two open proposals (`Interleaving.QuotasCanBreak`); a claim loses its reservation in the same way
  (`Interleaving.ReservationCanBreak`). The shared file keeps the quotas if and only if every late move, where it is made,
  finds its proposal still open, or is a veto, or finds a slot: no open proposal and no claim of the proposer, and room in
  the fund (`Moves.LateKeepsInvIff`, `SharedFacts.SharedQuotasIff`). It leaves a holder's draft alone under a like condition
  (`Reservation.LateMoveSparesHolderIff`, `Reservation.ReservationRunIff`, `SharedFacts.SharedReservationIff`), and is a
  legal step of the life of a proposal exactly when it would still pass the test or changes nothing
  (`ChainRace.LateMoveIsStepIff`, `ChainRace.LateMoveRevives`).
- One proposal can get two receipts. If between the test of the row "executed" and its move the proposal is executed and
  settled, the move takes it back to executed and it can be settled again, and its profit counts twice
  (`Receipts.TwoReceipts`, `Interleaving.ReceiptsCanBreak`). The receipts name pairwise different, settled proposals if and
  only if no late move names a proposal that has its receipt (`Receipts.LateKeepsBooksIff`, `Receipts.RunBooksIff`,
  `SharedFacts.SharedBooksIff`).
- The cooldown "after a veto or a settle" does not start when an executed proposal is set to settled by hand, and that
  settlement has no receipt either (`CooldownRuns.SettlingCoolsIff`, `CooldownRuns.SettledByHand`).
- The cursor lock keeps out ticks of its own process only, but the digest script and the tool share the cursor file from two
  processes. So the save of one fund's tick can write back an older copy of another fund's entry, and that fund's next tick,
  which overlaps none of its own, repeats an event (`CursorRuns.CrossingRepeats`). A schedule can lower a fund's stored
  cursor, with some payloads, if and only if two of the fund's saved ticks overlap or such an older copy is written back
  (`CursorRuns.FallsIffHazard`); it can emit something twice if and only if a tick is saved after another of the fund and
  does not build on it (`CursorRuns.RepeatsIffUnheard`); and it allows one of the two exactly under the first condition
  (`CursorRuns.TroubleIffHazard`). Within one process only the overlap is left (`CursorRuns.FallsIffOverlap`,
  `CursorRuns.RepeatsIffOverlap`).
- The pitch flow keeps the last 1000 messages of people in a list and in a set. An id that was sent twice goes from the set
  when its first sending leaves the list, although its second is still there; of messages that differ the set holds exactly
  the last 1000 (`Heard.RememberedIff`, `Heard.RepeatForgotten`).
- A reply parked in the sidecar's buffer never completes a call, if the sidecar answers only what it was asked
  (`Sidecar.Sidecar.EndDrain`).
- A leg without a cap passes the leg check, which reads it as 0, but its payload never becomes ready
  (`Payload.CheckedReadyIff`, `Payload.EmptyCapPassesChecks`).
- A bond approval of 2^255 or more passes as limited when its text has a plus sign (`Bond.UnlimitedTextIff`,
  `Bond.AcceptedTexts`).
- Amounts are exact if and only if the scaled number neither overflows the decimal context nor vanishes in it: with a
  million decimals one token raises (`Units.ParseExactIff`, `Units.MillionDecimalsRaise`, `Units.TinyAmountVanishes`).
  Printing and reading back is exact up to 1,000,098 decimals, and past that only for numbers with as many zeros at the end
  (`Units.FormatRoundTripsIff`, `Units.OneUnitLost`).
- A start payload whose item ends in a newline is accepted by the encoder and loses the newline
  (`StartPayload.NewlineAcceptedIff`, `StartPayload.RoundTripExactIff`).
- Different texts can decode to the same signing body; the signature covers the text. Of the texts of a body exactly the
  tight one is the encoder's (`SignBody.DecodeIsNotInjective`, `SignBody.EncodedIffTight`).

## Model

| member | source | states |
|---|---|---|
| Reservation.ClaimIsReservation | sherwood_monitor/fund/rules.py:222-261 | from any state reached by actions and harmless late chain moves, after a claim at t0, on every run of actions and late moves in which nobody removes the agent and the agent neither releases nor drafts (refused attempts are allowed): at every moment before t0 + 600 s the holder's draft goes through exactly when the thesis, fund gates, envelope and legs allow, and never fails with fund_full, agent_has_open_proposal, no_claim or claim_mismatch, if no late move is harmful, and in general if every move spares the holder, which is exactly when there is a slot for the draft throughout. Only the holder's own renewals need a reading of t0 or later |
| Reservation.DraftRequestIsReservation | sherwood_monitor/fund/service.py:359-399 | the same after a chat pitch's draft request |
| Reservation.LateMoveSparesHolderIff | sherwood_monitor/fund/service.py:745-758 | a late chain move leaves a holder's draft free of the quota refusals exactly when its proposal is still open, or it is a veto, or its proposer is another agent and no proposal is open |
| Reservation.ReservationRunIff | sherwood_monitor/fund/rules.py:326-358 | on a run that does not end a reserving claim there is a slot for the holder's draft throughout exactly when each late move, where it is made, finds its proposal open, or is a veto, or is of another agent with room for one more, and no draft of another agent takes the last slot |
| Reservation.HolderFreeIff | sherwood_monitor/fund/rules.py:326-346 | for a holder, while the fund takes ideas, no quota stands against the draft exactly when the claim reserves |
| Reservation.HolderDraftVerdict | sherwood_monitor/fund/rules.py:326-358 | for the holder of a reserving claim the draft check says the first that fails of: asset, fee and cooldown of the fund, capital and drawdown within 0 to 10000 and the fund's bounds, and the legs; each said of the fields |
| Reservation.HolderDraftOutcome | sherwood_monitor/fund/service.py:405-469 | the draft goes through exactly when the thesis is not blank, the fund takes ideas, 0 < capital and drawdown in 0 to 10000, both within the fund's ceilings where it has them, and every leg and the sums of the caps meet their terms; if not, the code is that of the first of these that fails, never fund_full, agent_has_open_proposal, no_claim or claim_mismatch |
| Reservation.StepKeepsHolding | sherwood_monitor/fund/service.py:326-399 | one action by anybody that does not release the claim, remove the holder or draft for the holder keeps the claim; a refused removal or draft does |
| Reservation.RunKeepsHolding | sherwood_monitor/fund/service.py:301-469 | so does a whole run of them and of any late moves |
| Reservation.ReleaseKeepsHolding | sherwood_monitor/fund/service.py:342-357 | a release of another agent's claim or of another topic leaves the claim |
| Effects.StepIff | sherwood_monitor/fund/service.py:177-854 | for every state, action, clock reading and state t: the action leads to t exactly when the records meet its terms and t has exactly its effect, both said of the fields of the records; so what a proposal, receipt, claim, agent, member or ballot says after any action is fixed |
| Effects.EffectDetermines | sherwood_monitor/fund/service.py:177-854 | the effect of an action leaves no choice of the state after it |
| Effects.FreshFund | sherwood_monitor/fund/service.py:163-175 | a new fund has its host, approved, registered and active, and nothing else |
| Acceptance.AcceptedIff | sherwood_monitor/fund/service.py:177-854 | every action goes through exactly when the records meet its terms: who may act, whom a name means (the first that has it), and what the claim, draft, ballot or move needs |
| Acceptance.ShipIff | sherwood_monitor/fund/service.py:471-496 | a draft is shipped exactly by the host, while the fund does not cool, and if it has legs and a positive capital |
| Acceptance.BallotIff | sherwood_monitor/fund/rules.py:379-390 | a ballot is accepted exactly from an approved member, named by id or address, on a proposal that is proposed or voting and whose voting has not ended |
| Acceptance.DraftProposalIff | sherwood_monitor/fund/rules.py:326-358 | a draft is recorded exactly when thesis, agent, fund, claim, quotas, capital, drawdown and legs meet their terms |
| Acceptance.ClaimTopicIff | sherwood_monitor/fund/rules.py:222-261 | a claim is granted exactly to an active agent without an open proposal, on a topic that nobody else comes first on, if its own claim is on that topic or there is a slot |
| Refusals.RefusedIff | sherwood_monitor/fund/service.py:177-854 | an action is refused with a code exactly when that is the first reason the records have against it, in the order in which the rules are asked |
| Refusals.NoStopIff | sherwood_monitor/fund/rules.py:74-78 | and they have no reason exactly when its terms are met |
| Refusals.LegsVerdictSays | sherwood_monitor/fund/rules.py:265-296 | the legs are refused for being none, for the first leg that does not meet its terms (an unlimited approval or a bad leg), or for a phase whose caps exceed the capital |
| Terms.EnvelopeIff | sherwood_monitor/fund/rules.py:307-323 | the envelope check allows exactly 0 < capital and 0 to 10000 of drawdown, each at most the fund's ceiling if it has one |
| Terms.LegIff | sherwood_monitor/fund/rules.py:265-304 | what the loop finds no fault with: a known phase, no unlimited approval, stated or in the bytes of the call data, an address and hex data for a call, and a cap that is no negative number |
| Terms.LeadsIff | sherwood_monitor/fund/rules.py:405-423 | the table of transitions, said the other way: from which statuses each one is entered |
| Terms.OthersPlacesCount | sherwood_monitor/fund/rules.py:253-260 | the slots that others' live claims take, counted by their places |
| Coordination.ReachableQuotas | sherwood_monitor/fund/rules.py:239-260 | after every run of single steps, at any clock readings: open proposals and stored claims number at most 2, at most one open proposal an agent and none beside a claim, claims by different agents and on different topics (among topics normal in one pass), each by a registered agent that was not removed |
| Coordination.StepKeepsInv | sherwood_monitor/fund/service.py:301-469 | every action keeps the invariant behind those quotas |
| Coordination.ClaimTopicKeepsInv | sherwood_monitor/fund/service.py:326-340 | a claim or its refresh keeps the quotas |
| Coordination.RequestDraftKeepsInv | sherwood_monitor/fund/service.py:359-399 | a chat pitch's draft request keeps the quotas |
| Coordination.DraftKeepsInv | sherwood_monitor/fund/service.py:430-459 | a draft uses up a claim, so the quotas hold |
| Coordination.CheckClaimFacts | sherwood_monitor/fund/rules.py:222-261 | a claim check that allows says: registered agent, no open proposal, no other live holder, room in the fund |
| Coordination.CheckedTopicIsFree | sherwood_monitor/fund/rules.py:109-114 | a checked topic clashes with no live claim of another agent, unless one pass does not normalize it |
| Concurrent.SharedFileIsRun | sherwood_monitor/fund/store.py:157-203 | under any interleaving of processes the file holds the state after one run of moves from a fresh fund, one for each committed update: actions, and chain moves without a test, each tested on an earlier state of the run |
| Concurrent.LoadedIsRun | sherwood_monitor/fund/store.py:140-143 | whatever a load returns is such a state too |
| SharedFacts.SharedQuotas | sherwood_monitor/fund/store.py:157-165 | so the quotas hold of a shared file whose late moves were all harmless when they were made |
| SharedFacts.SharedQuotasIff | sherwood_monitor/fund/store.py:157-165 | under any interleaving the shared file keeps the quotas throughout exactly when every untested move is harmless on the state it replaces |
| SharedFacts.SharedIff | sherwood_monitor/fund/store.py:157-165 | whatever is exact of one move is exact of the shared file: it holds of the file from a step on throughout exactly when every update spares it on the state it replaces |
| SharedFacts.SharedBooksIff | sherwood_monitor/fund/store.py:157-165 | the receipts in the shared file stay right throughout exactly when no untested move names a proposal with a receipt in the state it replaces |
| SharedFacts.SharedReservationIff | sherwood_monitor/fund/store.py:157-165 | once a claim in the shared file reserves, and as long as no update ends it, it reserves throughout exactly when every update spares the holder on the state it replaces |
| SharedFacts.CommitReserves | sherwood_monitor/fund/service.py:326-399 | a claim or draft request committed to a file in which the quotas hold reserves |
| Moves.LateKeepsInvIff | sherwood_monitor/fund/service.py:745-758 | an untested chain move keeps the quotas exactly when its proposal is still open, or it is a veto, or the proposer has no open proposal and no claim and the fund has room |
| Moves.RunQuotasIff | sherwood_monitor/fund/service.py:738-761 | the quotas hold all along a run exactly when each of its late moves is harmless where it is made |
| Moves.InTimeIsRun | sherwood_monitor/fund/service.py:738-761 | a run whose late moves would all still pass their test is a run of single steps |
| Interleaving.QuotasCanBreak | sherwood_monitor/fund/service.py:738-758 | an interleaving of two processes, from no file at all, after which one agent has two open proposals |
| Interleaving.ReceiptsCanBreak | sherwood_monitor/fund/service.py:738-758 | an interleaving of two processes, from no file at all, after which the shared file has two receipts of one proposal |
| Interleaving.ReservationCanBreak | sherwood_monitor/fund/service.py:745-758 | a run from a fresh fund whose claim holder may draft, until a move tested earlier is made |
| Store.FileIsSerial | sherwood_monitor/fund/store.py:140-229 | for any number of processes, with raising mutators, lock timeouts, failed writes and crashes: the file is the committed jobs applied in replace order, revision is 1 plus the committed updates, it is never half-written, and a load returned the file after some prefix of the commits |
| Store.CallCommitsIff | sherwood_monitor/fund/store.py:157-203 | a call's report is the truth about its commit: from the moment a process takes up a job to the call's end, in any interleaving, its steps commit that job once if it reports a commit, not at all if it reports an error, a timeout or a failed write, and at most once if it crashes |
| Store.NoLostUpdate | sherwood_monitor/fund/store.py:157-165 | a writer about to replace computed its content from the very file it replaces |
| Store.MoveKeepsExclusion | sherwood_monitor/fund/store.py:205-229 | an exclusive lock is never held together with another lock |
| Store.Blocked | sherwood_monitor/fund/store.py:205-229 | while the lock is taken a waiting call can only time out, and says so, or crash; either way the file stays |
| Store.Undisturbed | sherwood_monitor/fund/store.py:140-203 | with the lock free and nobody else moving a call can run to its end: it reports what the file says (loaded, not found, exists, raised, committed) and leaves what the job makes of the file |
| ChainRace.LateMoveIsStepIff | sherwood_monitor/fund/service.py:738-761 | whatever actions and late moves are written between the test of a chain row and its move: the move is legal exactly when it would still pass the test or changes nothing, and it is then the single step; so it is if nobody moved that proposal |
| ChainRace.LateMoveRevives | sherwood_monitor/fund/service.py:745-758 | a run from a fresh fund after which a late move sets a cancelled proposal to executed |
| TopicClaims.TakenTopicRefusedIff | sherwood_monitor/fund/rules.py:244-252 | while one agent holds a topic, another one's claim on it is refused as taken exactly when the cut at 80 characters leaves no trailing blank, or a third claim is live on the text without that blank |
| TopicClaims.TwoAgentsOneTopic | sherwood_monitor/fund/rules.py:109-114 | a run from a fresh fund on which two agents get to hold one topic |
| Topics.UncutIsSqueeze | sherwood_monitor/fund/rules.py:86-89 | the two substitutions and the strip are one pass that keeps the allowed characters, with one blank wherever something was dropped between two |
| Topics.AllowedIs | sherwood_monitor/fund/rules.py:86-89 | the characters that a topic keeps |
| Topics.NormalizeIdempotentIff | sherwood_monitor/fund/rules.py:86-89 | normalizing is idempotent exactly when the squeezed topic has no blank as the 80th of more than 80 characters |
| Topics.TwoPassesReachFixedPoint | sherwood_monitor/fund/rules.py:86-89 | two passes always reach a fixed point |
| Topics.SecondPass | sherwood_monitor/fund/rules.py:86-89 | what the second pass changes: it drops one trailing blank, and the result is canonical |
| Topics.LongTopicKeepsBlank | sherwood_monitor/fund/rules.py:86-89 | a topic for which one pass is not enough |
| Topics.NormalizeStrip | sherwood_monitor/fund/service.py:329-338 | stripping before storing does not change the normal form |
| Lifecycle.ProposalLives | sherwood_monitor/fund/rules.py:408-422 | on every run a recorded proposal changes status at most 7 times, never leaves a terminal status, is executed only from passed or approved, and from review to executed or settled only through approved |
| Lifecycle.ChangesBoundedByRank | sherwood_monitor/fund/rules.py:408-416 | the number of status changes is at most the rise in rank, so the rank strictly rises with each |
| Lifecycle.TerminalIsFinal | sherwood_monitor/fund/rules.py:412-416 | vetoed, settled and cancelled are never left |
| Lifecycle.ExecutedOnlyAfterApproval | sherwood_monitor/fund/rules.py:408-416 | the step into executed is from passed or approved |
| Lifecycle.ReviewNeedsApproval | sherwood_monitor/fund/rules.py:408-416 | between review and executed or settled lies approved |
| Lifecycle.RecordIsKept | sherwood_monitor/fund/models.py:272-312 | place, id, proposer, topic, thesis, legs, capital, drawdown and credit of a recorded proposal never change |
| Evolution.StepEvolves | sherwood_monitor/fund/rules.py:419-422 | every action lets every recorded proposal at most take one edge of TRANSITIONS |
| Evolution.OneProposalStep | sherwood_monitor/fund/service.py:596-637 | an action on one proposal changes no other proposal, no agent, no claim and no member |
| Authority.StatusMovesIff | sherwood_monitor/fund/service.py:596-637 | for every action, proposal and status: the action brings the proposal to that status exactly when it is a legal edge and the action is a status move or settlement of it by its registered proposer or an active host (to proposed only when the fund is not cooling), a chain row for it, or the removal of its proposer by the host, draft to cancelled |
| Authority.NoCauseNoMove | sherwood_monitor/fund/service.py:947-951 | over the steps of a run without such a cause the status stays |
| Evolution.OtherStep | sherwood_monitor/fund/service.py:177-469 | the other actions leave recorded proposals alone, but for drafting and removing |
| CooldownRuns.NothingOpensWhileCooling | sherwood_monitor/fund/rules.py:167-176 | after a veto, by hand, by the chain or late, or a recorded settlement at t, on a run of actions and late moves in which no chain card overwrites the cooldown, every claim, draft request, draft, ship-it and draft-to-proposed step before t + cooldown_period is refused |
| CooldownRuns.CooldownStarts | sherwood_monitor/fund/service.py:878-882 | every veto, by hand or from the chain, and every recorded settlement starts the cooldown |
| CooldownRuns.StepKeepsCooldown | sherwood_monitor/fund/service.py:878-882 | no action but a chain card shortens the cooldown |
| CooldownRuns.RunKeepsCooldown | sherwood_monitor/fund/service.py:878-882 | cooldown_until never falls on a run of actions and late moves without such a card |
| CooldownRuns.SettlingCoolsIff | sherwood_monitor/fund/service.py:596-637 | a settlement leaves the fund cooling exactly when it was recorded with record_settle, or the fund was cooling that long anyway |
| CooldownRuns.SettledByHand | sherwood_monitor/fund/rules.py:408-416 | a run from a fresh fund that ends in a settlement by hand, which starts no cooldown and leaves no receipt |
| Members.MemberLedger | sherwood_monitor/fund/service.py:177-233 | approved members carry the numbers 1 to next_member_no - 1, each once, with a valid address; number and address never change on any run of actions and late moves |
| Members.FreshMembersOk | sherwood_monitor/fund/service.py:163-175 | a new fund starts that ledger, with no members |
| Members.ApproveKeepsMembers | sherwood_monitor/fund/rules.py:452-462 | an approval hands out the next number and keeps everybody else's |
| Members.RequestKeepsMembers | sherwood_monitor/fund/service.py:177-195 | a request never overwrites an address or an approval |
| Receipts.ReceiptLedger | sherwood_monitor/fund/service.py:821-850 | on every run of single steps receipts name pairwise different proposals, all of them settled |
| Receipts.LateKeepsBooksIff | sherwood_monitor/fund/service.py:745-758 | an untested chain move keeps that exactly when it names no known proposal or one without a receipt |
| Receipts.RunBooksIff | sherwood_monitor/fund/service.py:738-850 | on a run with late moves it holds throughout exactly when no late move names a proposal that has its receipt when it is made |
| Receipts.TwoReceipts | sherwood_monitor/fund/service.py:738-850 | a run from a fresh fund, its late move tested before, on which one proposal gets two receipts |
| Receipts.SettleKeepsBooks | sherwood_monitor/fund/service.py:827-848 | settling adds a receipt for a proposal that had none |
| Credits.CreditLedger | sherwood_monitor/fund/service.py:821-850 | on every run of actions and late moves the receipts are the accepted settlements in order: each names the proposal that was settled, credits the proposer and the idea giver on that proposal's record, and carries the settlement's profit or loss and time |
| Votes.VoteLedger | sherwood_monitor/fund/service.py:774-819 | on every run of actions and late moves backers and objectors are duplicate-free, disjoint, and say exactly each voter's latest accepted ballot with clear taken into account, where the voter of a ballot is the member that it names; reviews are one an agent, none the proposer's |
| Votes.OwnBallot | sherwood_monitor/fund/service.py:796-814 | on every run of actions and late moves: a ballot that a member casts under its own telegram id, in any case and with any blanks around it, is entered under that id, whoever else is on record, and is accepted exactly when the member is approved and the voting is open |
| Votes.BallotMoves | sherwood_monitor/fund/service.py:796-814 | one ballot puts its voter on that side only and moves nobody else |
| Votes.StepKeepsVotesOk | sherwood_monitor/fund/rules.py:366-390 | every action keeps that shape |
| Ledger.FundLedger.constructor | sherwood_monitor/fund/service.py:163-175 | a new fund: the host agent registered, nothing else, revision 1 |
| Ledger.FundLedger.RequestMembership | sherwood_monitor/fund/service.py:177-195 | does what the specification says, or refuses and changes nothing; what that is, of the records alone, `Effects.StepIff` and `Refusals.RefusedIff` say for this and each of the following |
| Ledger.FundLedger.ApproveMember | sherwood_monitor/fund/service.py:197-234 | the same; an approval hands out the next member number to the member named |
| Ledger.FundLedger.RequestAgent | sherwood_monitor/fund/service.py:236-263 | the same for an agent's application |
| Ledger.FundLedger.ApproveAgent | sherwood_monitor/fund/service.py:265-299 | the same for the host's approval |
| Ledger.FundLedger.RemoveAgent | sherwood_monitor/fund/service.py:301-324 | the same; claims go and unproposed drafts are cancelled |
| Ledger.FundLedger.CancelDrafts | sherwood_monitor/fund/service.py:313-320 | the loop over the removed agent's drafts |
| Ledger.FundLedger.ClaimTopic | sherwood_monitor/fund/service.py:326-340 | the same for a claim or its refresh |
| Ledger.FundLedger.ReleaseClaim | sherwood_monitor/fund/service.py:342-357 | the same for a release |
| Ledger.FundLedger.RequestDraft | sherwood_monitor/fund/service.py:359-403 | the same for a chat pitch's draft request |
| Ledger.FundLedger.DraftProposal | sherwood_monitor/fund/service.py:405-469 | the same for a draft, within the fund's ceilings |
| Ledger.FundLedger.ShipDraft | sherwood_monitor/fund/service.py:471-496 | the same for the host's ship-it |
| Ledger.FundLedger.SetStatus | sherwood_monitor/fund/service.py:596-637 | the same for a status move |
| Ledger.FundLedger.SetChainState | sherwood_monitor/fund/service.py:639-673 | the same for a chain reading of one proposal |
| Ledger.FundLedger.ApplyFundCard | sherwood_monitor/fund/service.py:675-716 | the same for the fund-wide part of a chain card |
| Ledger.FundLedger.ApplyChainStatus | sherwood_monitor/fund/service.py:738-761 | the same for one status row of a chain card, test and move together |
| Ledger.FundLedger.RecordMemberVote | sherwood_monitor/fund/service.py:774-819 | the same for the ballot of the member named |
| Ledger.FundLedger.RecordAgentReview | sherwood_monitor/fund/service.py:774-819 | the same for an agent's review |
| Ledger.FundLedger.RecordSettle | sherwood_monitor/fund/service.py:821-854 | the same for a settlement, with a receipt that credits proposer and idea giver |
| CooldownRuns.CooldownIsLatest | sherwood_monitor/fund/service.py:878-882 | on runs of actions and late moves, between two chain cards that overwrite it, the end of the cooldown is the latest of the one in force and those of the vetoes and recorded settlements since: it is one of them, and none is later |
| FundModel.AgentIndex | sherwood_monitor/fund/models.py:372-377 | the first agent of that name, and None only if there is none |
| FundModel.MemberIndex | sherwood_monitor/fund/models.py:394-402 | the first member whose own id, or whose address if it has one, is the key, and None only if there is none |
| FundModel.ProposalIndex | sherwood_monitor/fund/models.py:404-415 | the first proposal that a local or on-chain id names, and None only if there is none |
| Rules.ClaimOf | sherwood_monitor/fund/rules.py:101-106 | a live claim of the agent, and None only if it has none |
| Rules.ClaimForTopic | sherwood_monitor/fund/rules.py:109-114 | a live claim on the topic as normalized again, and None only if there is none |
| Legs.CheckLegs | sherwood_monitor/fund/rules.py:265-296 | one pass finds the first faulty leg, or compares the sum of each phase's caps with the capital |
| Payload.ProposePayload | sherwood_monitor/fund/service.py:543-594 | the body carries the request: its vault, strategy, metadata and drawdown are the request's own, its duration and capital read back as the request's numbers, and each side has, in order and none left out, the target, data, value ("0" only where there is none) and cap of each leg of its phase that has a call; missing is exactly what the request lacks, and it is ready exactly when nothing is missing and the fields are as the builder wants them |
| Payload.BuildProposeBody | sherwood_monitor/fund/txbuilder.py:322-358 | the body as given, or an error, exactly by the builder's checks |
| Payload.Calls | sherwood_monitor/fund/txbuilder.py:311-319 | the calls as given if all are well formed, an error otherwise |
| Payload.SideIsInOrder | sherwood_monitor/fund/service.py:543-576 | each call with its cap comes from one leg of its phase, in order, and no leg of the phase that has a call is left out |
| Payload.ReadyBodyIsSafe | sherwood_monitor/fund/rules.py:265-304 | a ready body of checked legs: every leg in exactly one side, each side's caps within maxCapital, no EIP-20 approve of 2^255 or more |
| Payload.ApproveSeen | sherwood_monitor/fund/rules.py:299-304 | the checks see every EIP-20 approve and its amount, whatever the case of its hex digits |
| Payload.HexUnlimitedIff | sherwood_monitor/fund/units.py:71-84 | a hexadecimal amount counts as unlimited exactly when the number of its bytes is 2^255 or more |
| Payload.TopBit | sherwood_monitor/fund/units.py:71-84 | a word of 32 bytes is unlimited exactly when its highest bit is set |
| Payload.CheckedReadyIff | sherwood_monitor/fund/txbuilder.py:298-302 | checked legs are ready exactly when their caps and values are plain digits |
| Payload.EmptyCapPassesChecks | sherwood_monitor/fund/rules.py:283-288 | a leg without a cap passes the check and is refused by the builder |
| Drafts.RecordedPayloadIsSafe | sherwood_monitor/fund/service.py:430-469 | on every run of actions and late moves, whenever the payload of a recorded proposal is ready, it is safe in that sense |
| Drafts.RecordedWasAdmitted | sherwood_monitor/fund/service.py:430-459 | on every run of actions and late moves: the i-th proposal has id i + 1, and it is what an agent asked for when i proposals were on record, in a state in which the request met every term of a draft, the fund's ceilings among them; its fields are the brief's, under the agent's name, with the idea giver of the brief or else of the claim |
| Drafts.RunKeepsChecked | sherwood_monitor/fund/rules.py:356-358 | every recorded proposal's legs passed the check against its own capital |
| Bond.VetoedIffThresholdReached | sherwood_monitor/fund/rules.py:393-402 | vetoed exactly when there is a supply and Against reaches veto_threshold_shares |
| Bond.ThresholdTips | sherwood_monitor/fund/rules.py:393-402 | the threshold is the least such number of shares |
| Bond.AcceptedApprovals | sherwood_monitor/fund/rules.py:506-515 | accepted integer amounts are exactly those from the quote to its ceiling-rounded buffer, below 2^255 |
| Bond.AcceptedTexts | sherwood_monitor/fund/rules.py:506-515 | accepted texts are exactly those that int reads as an amount in that range, where a plus sign evades the bound 2^255 |
| Bond.RefusedApprovals | sherwood_monitor/fund/rules.py:506-515 | the reason given for every other amount: unlimited, below the quote, or above the buffered quote |
| Bond.RefusedTexts | sherwood_monitor/fund/rules.py:506-515 | and for texts; one that int does not read raises, unless it says unlimited |
| Bond.UnlimitedTextIff | sherwood_monitor/fund/units.py:71-84 | of a text that int reads, is_unlimited sees 2^255 and more exactly when it has no plus sign |
| Bond.WordsSayUnlimited | sherwood_monitor/fund/units.py:71-84 | the words that say unlimited, in any case and with any blanks around them |
| Bond.PlanCovers | sherwood_monitor/fund/rules.py:484-492 | the plan keeps quote and balance; its amount is the largest acceptable one, and its gap the least top-up that covers it |
| Bond.BondIsLeast | sherwood_monitor/fund/rules.py:478-481 | the required bond is the least amount that is at least the stated share of the capital |
| Units.ParseExact | sherwood_monitor/fund/units.py:19-42 | a decimal text of at most 100 digits, neither too large nor too small for the context, gives the number its digits write down to the last place, and is rejected exactly for a nonzero digit past it or a sign that is not allowed |
| Units.IntExact | sherwood_monitor/fund/units.py:19-42 | an integer of at most 100 digits that stays within the context gives its product with 10^decimals, or is rejected for a sign that is not allowed |
| Units.SeparatorsIgnored | sherwood_monitor/fund/units.py:27-29 | commas and underscores count for nothing, wherever they stand |
| Units.ParseExactIff | sherwood_monitor/fund/units.py:19-42 | for every finite Decimal of at most 100 digits: the amount times 10^decimals, or the rejection, comes out exactly when the scaled number neither overflows nor vanishes in the context |
| Units.MillionDecimalsRaise | sherwood_monitor/fund/units.py:19-42 | the integer 1 with a million decimals raises |
| Units.TinyAmountVanishes | sherwood_monitor/fund/units.py:19-42 | a tiny nonzero amount reads as 0 instead of being rejected |
| Units.FormatRoundTrips | sherwood_monitor/fund/units.py:58-68 | parsing undoes formatting for every integer of at most 100 digits with up to 1,000,098 decimals |
| Units.FormatRoundTripsIff | sherwood_monitor/fund/units.py:58-68 | for any number of decimals it does so exactly up to there, or, up to 2,000,198, for integers that end in a zero for each decimal more |
| Units.OneUnitLost | sherwood_monitor/fund/units.py:58-68 | with more decimals one unit comes back as 0 |
| Units.FormatIsWritten | sherwood_monitor/fund/units.py:58-68 | what formatting writes: sign, digits, and the places without their trailing zeros |
| Numerals.ParseShow | sherwood_monitor/fund/rules.py:283-288 | reading a printed integer gives it back |
| Numerals.ParseIntReads | sherwood_monitor/fund/rules.py:283-288 | int reads one sign or none and then digits, after blanks are stripped |
| Numerals.ParseIntSplits | sherwood_monitor/fund/rules.py:283-288 | and it reads nothing else |
| Flow.FlowFacts | sherwood_monitor/telegram/flow.py:119-125 | after any interleaving: two callbacks of one pitch are the same or one of them failed; a fire event had its threshold of authorized people, other than the author, whose fires stood at the moment recorded for it (Emit records the moment it happens); a drafted pitch is one with a callback that did not fail |
| Flow.OneDraftPerPitch | sherwood_monitor/telegram/flow.py:364-384 | so at most one callback in flight and at most one accepted, never both |
| Flow.FireUsersStand | sherwood_monitor/telegram/flow.py:119-125 | the fire sets hold exactly the people whose latest word, by reply or reaction, is a fire |
| Flow.PitchFlow.OnMessage | sherwood_monitor/telegram/flow.py:270-335 | nothing happens for senders not admitted; every other message is remembered and closes old pitches; a fire reply is counted for the pitch it lands on, for none if it answers a card or a remembered message of a person, and starts a callback exactly when that pitch is not drafted and the standing fires reach the threshold; a trade idea opens a pitch with what the message says; other chats and what pitches say are left alone |
| Flow.PitchFlow.FireReply | sherwood_monitor/telegram/flow.py:283-290 | the fire-reply branch |
| Flow.PitchFlow.ShipItFrom | sherwood_monitor/telegram/flow.py:292-320 | only the host; a callback starts exactly for an undrafted pitch, the one replied to or else the only open one named |
| Flow.PitchFlow.Meant | sherwood_monitor/telegram/flow.py:296-305 | which pitch a ship-it means |
| Flow.PitchFlow.OnReaction | sherwood_monitor/telegram/flow.py:337-357 | a fire set or taken back is counted for the pitch of that message, for none if it is a card or a remembered message of a person, and else for the newest open pitch whose window covers it; a callback starts exactly when it was set, the pitch is not drafted and the threshold is reached |
| Flow.PitchFlow.MaybeTrigger | sherwood_monitor/telegram/flow.py:359-362 | a callback starts exactly when the pitch is not drafted and the standing fires reach the threshold |
| Flow.PitchFlow.Emit | sherwood_monitor/telegram/flow.py:364-384 | the pitch is drafted and one callback more is in flight, with the count of people behind it and the moment, the number of fires noted so far |
| Flow.PitchFlow.EndCallback | sherwood_monitor/telegram/flow.py:377-384 | only a failed callback opens its pitch again, and it does |
| Flow.PitchFlow.Target | sherwood_monitor/telegram/flow.py:243-257 | a known message belongs to its pitch; a card or a person's message, remembered of all that were sent, to none; another one to the newest open pitch whose window covers it, as its riff |
| Flow.PitchFlow.Seen | sherwood_monitor/telegram/flow.py:221-227 | one more message joins what was sent; the list and the set are then what they are of all that was sent |
| Heard.RememberedIff | sherwood_monitor/telegram/flow.py:221-227 | an id is in the set exactly when it is one of the last 1000 sent and none of its sendings left the list after its last one |
| Heard.RepeatForgotten | sherwood_monitor/telegram/flow.py:221-227 | 1001 messages after which an id among the last 1000 is forgotten |
| Flow.PitchFlow.Prune | sherwood_monitor/telegram/flow.py:229-241 | a pitch stays exactly if it is young and fewer than the cap of young ones are newer (0 is no cap, a negative one drops the oldest); exactly the ids that go with the others are forgotten; other chats are left alone |
| Flow.PitchFlow.LinkRiff | sherwood_monitor/telegram/flow.py:213-219 | a riff is linked only to a pitch's own message |
| Flow.PitchFlow.Open | sherwood_monitor/telegram/flow.py:322-333 | the new pitch with what the message says, among the open ones and known by its message |
| Flow.FindNamed | sherwood_monitor/telegram/flow.py:304-305 | a pitch is named only if exactly one open undrafted one matches |
| Router.WindowIsLastDistinct | sherwood_monitor/router.py:49-59 | the keys are exactly the last 128 distinct ids, by latest occurrence |
| Router.DuplicateIff | sherwood_monitor/router.py:49-59 | an id counts as seen exactly when fewer than 128 distinct other ids came since |
| Router.EventRouter.Route | sherwood_monitor/router.py:40-67 | what is handed on, counted and remembered, in terms of everything routed before |
| Router.EventRouter.Dedupe | sherwood_monitor/router.py:51-59 | refresh, or insert and evict the oldest; other subdomains are left alone |
| Sidecar.CallFacts | sherwood_monitor/sidecar.py:134-180 | after any interleaving: ids differ between calls, a call that returned got a reply with its own id, each future completes at most once, and with honest replies a parked one belongs to a finished call |
| Sidecar.Sidecar.BeginCall | sherwood_monitor/sidecar.py:148-159 | the next id, registered before the line is written |
| Sidecar.Sidecar.EndDrain | sherwood_monitor/sidecar.py:160-167 | the look into the buffer, which with honest replies never completes a future |
| Sidecar.Sidecar.Deliver | sherwood_monitor/sidecar.py:325-362 | a reply completes the pending future of its id, or is parked; for a sent id it is parked only if its future or call is finished |
| Sidecar.Sidecar.Return | sherwood_monitor/sidecar.py:169-180 | the caller gets a reply to its own request |
| Sidecar.Sidecar.TimeOut | sherwood_monitor/sidecar.py:169-175 | a timeout leaves the future alone and the id no longer pending |
| Sidecar.Sidecar.FailDrain | sherwood_monitor/sidecar.py:148-160 | a failed drain releases the lock |
| CronCursor.FilterInteresting | sherwood_monitor/cron_tick.py:90-148 | the loops emit and advance as specified |
| CronCursor.TickEmits | sherwood_monitor/cron_tick.py:90-148 | a tick emits exactly the interesting items of its payload above the cursor, whatever their order; the cursor then lies at or above all of them and never falls |
| CronCursor.TickInOrder | sherwood_monitor/cron_tick.py:90-148 | chain events come first, by block, then messages, by time; each as often as the payload has it; the cursor goes to the highest block and latest time, or stays |
| CursorRuns.TicksInSequence | sherwood_monitor/cron_tick.py:151-185 | for one fund's ticks in sequence, in whatever processes, among ticks of other funds none of which writes back an older copy: nothing is emitted by two of them, everything emitted stays at or below the stored cursor, and the cursor never falls |
| CursorRuns.OtherFundsKept | sherwood_monitor/cron_tick.py:20-24 | within one process a step that saves no tick of the fund leaves its cursor alone |
| CursorRuns.CursorKeptIff | sherwood_monitor/cron_tick.py:178-185 | across processes a step leaves a fund's cursor alone, whatever the payloads, exactly when the fund's entry builds on the same ticks after it |
| CursorRuns.RepeatsIffOverlap | sherwood_monitor/cron_tick.py:151-185 | within one process a schedule can emit something twice for a fund exactly when two saved ticks of the fund overlap |
| CursorRuns.FallsIffOverlap | sherwood_monitor/cron_tick.py:151-185 | and it can lower the fund's stored cursor under exactly the same condition |
| CursorRuns.FallsAtIff | sherwood_monitor/cron_tick.py:182-185 | a step can lower the fund's stored cursor, with some payloads, exactly when it takes a tick out of those that the fund's entry builds on |
| CursorRuns.FallsIffHazard | sherwood_monitor/cron_tick.py:20-24 | a schedule of ticks in any processes can lower a fund's stored cursor exactly when two of the fund's saved ticks overlap or another fund's tick writes back a copy older than a save of this fund's entry |
| CursorRuns.RepeatsIffUnheard | sherwood_monitor/cron_tick.py:151-185 | it can emit something twice for a fund exactly when a tick of the fund is saved after another and does not build on it |
| CursorRuns.TroubleIffHazard | sherwood_monitor/cron_tick.py:151-185 | it allows one of the two failures exactly when it has such an overlap or such a write-back |
| CursorRuns.CrossingRepeats | sherwood_monitor/cron_tick.py:182-185 | two processes and two funds: a save of the one fund takes the other's cursor back, and that fund's next tick, overlapping none, emits an event again |
| CursorFile.LosesIffHazard | sherwood_monitor/cron_tick.py:182-185 | a fund's entry loses work of one of its ticks exactly when there is such an overlap or write-back |
| CursorFile.WriteBackCrossesProcesses | sherwood_monitor/cron_tick.py:20-24 | an older copy is written back over a save of another process only |
| CursorRuns.FallRepeats | sherwood_monitor/cron_tick.py:151-185 | after two overlapping ticks the fund's next tick, although it may overlap none, can emit again what the first did |
| CronCursor.SortEventsSorts | sherwood_monitor/cron_tick.py:116-118 | sorting keeps the events and orders them by block |
| Links.MessageInjective | sherwood_monitor/telegram/links.py:97-109 | the signed strings of all kinds together are injective in kind and canonical fields |
| Links.SameStringIffSameLink | sherwood_monitor/telegram/links.py:97-109 | whatever the callers of two builders hand in, the signed strings are equal exactly when the canonical links are |
| Links.BuildAsking | sherwood_monitor/telegram/links.py:60-79 | every canonical link is what its builder makes of its own fields |
| Links.ReadMessage | sherwood_monitor/telegram/links.py:260-283 | every signed message can be read back, also one whose body contains the separator |
| Links.ReadSign | sherwood_monitor/telegram/links.py:181-185 | the body is what lies between the third separator and the last but one |
| Links.SignatureBinds | sherwood_monitor/telegram/links.py:330-345 | a link's own signature is accepted exactly in its time window, and any other link's only if the keyed hash collides |
| Links.CanonicalAddress | sherwood_monitor/telegram/links.py:60-64 | the result is in canonical form |
| Links.Checksum | sherwood_monitor/telegram/links.py:234-245 | the checksum differs from the canonical address in case only: upper case exactly for the letters whose nibble of the digest is 8 or more |
| StartPayload.StartRoundTrip | sherwood_monitor/telegram/links.py:365-389 | a start payload decodes to its kind, canonical vault and item, less one trailing newline of the item |
| StartPayload.RoundTripExactIff | sherwood_monitor/telegram/links.py:365-389 | the round trip is exact if and only if the item does not end in a newline |
| StartPayload.NewlineAcceptedIff | sherwood_monitor/telegram/links.py:365-378 | an item with a newline behind it is accepted exactly when the item is one and has at most 18 characters, and comes back without the newline |
| StartPayload.DecodeEncode | sherwood_monitor/telegram/links.py:381-389 | what decodes is what the encoder writes, but for outer blanks, unless it is too long |
| StartPayload.DecodesIff | sherwood_monitor/telegram/links.py:381-389 | the texts that decode, less outer blanks: sf, a kind, an underscore, 40 lower-case hex digits, and nothing more or an underscore and an item of 1 to 40 characters |
| StartPayload.EncodedFits | sherwood_monitor/telegram/links.py:361-378 | 44 to 64 characters of the allowed alphabet |
| SignBody.DecodeEncode | sherwood_monitor/telegram/links.py:161-175 | decoding undoes the unpadded encoding for every body, and the encoding needs no escaping |
| SignBody.AlphabetIs | sherwood_monitor/telegram/links.py:161-167 | the alphabet is that of section 5 of RFC 4648 |
| SignBody.EncodingSpells | sherwood_monitor/telegram/links.py:161-167 | each three bytes are spelled by the four characters at their place, as digits in base 64 of their 24 bits, the last group cut off where the bytes end |
| SignBody.SextetsDecodeIff | sherwood_monitor/telegram/links.py:170-175 | a text of characters of the alphabet decodes exactly when its length is not 1 more than a multiple of 4 |
| SignBody.DecodeLoop | sherwood_monitor/telegram/links.py:170-175 | the decoder's loop, with its tolerance of strangers and pads |
| SignBody.DecodeIsNotInjective | sherwood_monitor/telegram/links.py:170-175 | two texts that decode to one body, one of them not tight |
| SignBody.EncodedIffTight | sherwood_monitor/telegram/links.py:161-175 | of the texts that decode to a body, the encoder's is exactly the one that is tight: only URL-safe characters, no lone last one, no unused bits set |
| SignBody.TightTextsInjective | sherwood_monitor/telegram/links.py:161-175 | two tight texts with one body are equal |

## Left out

- Time is a real number, and one synchronous step of the pitch flow reads its clock once.
- Agent names arrive trimmed (`fund/settings.py:93`); the run theorems assume it of the actions that look an agent up by name.
- Ledger.FundLedger.ApplyChainStatus: the legality test and the move are one step here, although `fund/service.py:739-741` tests before the update that moves; the two visits are in `ChainRace`, `Moves`, `Concurrent` and `SharedFacts`.
- Ledger.FundLedger.DraftProposal: the record's bond, strategy duration and quote fields are not kept; no rule reads them.
- Ledger.FundLedger.SetChainState: guardian coverage and the time of the reading are not kept.
- Ledger.FundLedger.ApplyFundCard: the members' deposit order and the bond policy of a card are not kept.
- `apply_chain_card` as a whole: its fund card, its readings and its status rows are separate steps.
- `fund_setup` and rebinding are one over-approximating step, `Configure`, that may set the host, the voting period and the limits to anything.
- Timestamps such as `approved_at`, usernames, transaction hashes and card ids; observers and events; `leaderboard`, `pitch_topic`, `portfolio_payload`, `set_card_message`.
- Case folding and blanks are those of ASCII; underscores in `int()` are not read; the tolerance of `$` for a trailing newline is modelled in start payloads and dates only.
- Units.FormatRoundTrips: `max_places` is not modelled and decimals are natural numbers.
- Units.ParseExactIff: a Decimal that is no number (NaN, infinity) is not modelled, and digits are ASCII.
- Creating the file, JSON encoding, fsync, permissions, the Windows lock fallback and the HTTP backend of the store.
- The text patterns of the pitch flow (tickers, mentions, trade words, ship it): what they find in a message is part of the message; agent context for the model is not kept.
- The host lookup and the sender check are arbitrary answers; `drain`, timeouts and cancellation of the sidecar are arbitrary moments; its process handling is not modelled.
- Router.EventRouter.Route: the handlers' own work and the clock of the last event are left out.
- CronCursor.TickEmits: an event whose block is missing counts as block 0 before it gets here; JSON and the session check's process are left out.
- CursorRuns.RepeatsIffUnheard: a tick emits when it saves; that a process may end between its save and the delivery of its result, which loses events, is not modelled.
- SignBody.DecodeEncode: the body is its JSON bytes; JSON itself is not modelled.
- Links.SignatureBinds: HMAC is any keyed hash with lower-case hex results, and keccak any digest.
- `build_propose_portfolio_body`, link URLs and `leaderboard_attrib`: rendering over the parts that are modelled.
- Telegram cards and handlers, supervision, `risk.py`, `exposure.py`, `authz.py`, `session.py`, `guard.py`, HTTP clients: single-branch checks, rendering or plumbing.
