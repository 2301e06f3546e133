# tbvh — a Dafny model of the secret-sale negotiation server

tbvh lets a buyer post a requirement and a budget. A seller then commits a
piece of confidential information and a proof of credibility. Two LLM agents
then negotiate: the seller agent opens, and the buyer agent answers. The
seller agent replies in turn, until the buyer agent writes a
`DECISION: ACCEPT $n - …` or `DECISION: REJECT - …` line or the turn limit
(`MAX_TURNS = 10` turns after the opening, 11 messages in all) is reached.
The seller's information may only reach the buyer after an accepting
outcome, and it may never reach a third party.

This project models the server's core as pure Dafny functions and methods
over immutable datatypes:

- **Common**: JavaScript value semantics the code relies on.
  - truthiness, `||` defaults and `\s` / `trim`;
  - ASCII `toLowerCase`;
  - SQLite's text ordering.
- **Types**: the records of `src/types.ts`.
- **InstanceStore**: the `instances` table as a map from id to row. Each
  guarded `UPDATE` is a transition of that map. A trace of operations from
  the empty table keeps the confidentiality invariant. Terminal rows are
  frozen. A seller can never commit to their own instance, and of two
  racing commits (or starts) only one wins.
- **InstanceRoutes**: the `/instances` HTTP handlers, and the public and
  participant views that decide who sees `seller_info`.
- **DecisionParser**: the buyer's decision regexes, written as a
  deterministic matcher, plus the budget cap on an accepted price.
- **Agents**: the buyer and seller agents.
  - their system prompts and conversation histories;
  - streaming a completion into one reply.
  - The completion service is an oracle (`nat -> Completion`).
- **Negotiation**: the `runNegotiation` generator. It is modelled as the
  list of events it yields, including the strict alternation of speakers,
  the turn limit (11 messages, then the turn-limit REJECT) and the single
  closing outcome.
- **Sessions**: the in-memory `/negotiate` session API.
- **Transcript**: the `messages` table.
- **Nonces**: the sign-in nonce table.
- **Usage**: the `daily_usage` table.
- **Middleware**: the two JWT middlewares.
- **AuthRoutes**: the `/auth` routes.

The following come in as parameters:
- clocks;
- uuids and random nonces;
- the LLM completion service;
- the Ethereum signature check;
- JWT signing and verification;
- the formatting of a JavaScript number as text.

## Model

| member | source | states |
|---|---|---|
| Common.OrNull | src/db/instances.ts:17 | `x \|\| null` keeps a truthy text and turns an absent or empty one into null |
| Common.OrDefault | src/db/instances.ts:19-20 | `x \|\| d` gives the default exactly when the value is absent or falsy |
| Common.ToLowerIdempotent | src/auth/nonce.ts:14 | lower-casing an already lower-cased address changes nothing |
| Common.TrimIdempotent | src/agents/buyer.ts:97 | trimming reasoning text twice is the same as trimming it once |
| Common.TrimOfTrimmed | src/agents/buyer.ts:97 | a trimmed text neither starts nor ends with JavaScript whitespace |
| Common.StrLessAsymmetric | src/db/instances.ts:36 | the text order used by `ORDER BY created_at` never puts two texts before each other |
| Common.StrLessTotal | src/db/instances.ts:36 | any two different texts are ordered one way or the other |
| Common.ConcatAppend | src/agents/buyer.ts:69-76 | appending one streamed chunk to the accumulated text extends the concatenation by that chunk |
| Types.ParseStatus | src/types.ts:2 | a status text parses only to the status whose name it is |
| Types.StatusNameRoundTrip | src/types.ts:2 | every status parses back from its own name |
| InstanceStore.Get | src/db/instances.ts:27-31 | an id gives its row, and a missing id gives null |
| InstanceStore.MaxTurnsOrDefault | src/db/instances.ts:20 | an absent or zero turn budget becomes 10, and any other is kept |
| InstanceStore.Create | src/db/instances.ts:5-25 | inserts a `created` row with the buyer's fields, prompt `\|\| null`, the default model and turn budget, and no seller columns; an id already present is refused and the table is unchanged |
| InstanceStore.Commit | src/db/instances.ts:48-71 | only a `created` row of another buyer is committed; it gets the seller's fields and status `committed`; in every other case the table is unchanged and null comes back |
| InstanceStore.Start | src/db/instances.ts:73-88 | only the buyer's own `committed` row moves to `running`; otherwise nothing changes |
| InstanceStore.Complete | src/db/instances.ts:90-119 | only a `running` row completes; it records the decision, price and reasoning, and seller_info and seller_proof are nulled on REJECT and kept on ACCEPT; no other column changes; every table stays valid |
| InstanceStore.Fail | src/db/instances.ts:121-143 | only a `running` row fails; it records the reason and nulls both seller columns in the same step; no other column changes; every table stays valid |
| InstanceStore.Delete | src/db/instances.ts:145-154 | only the buyer's own `created` row is removed, and true is returned exactly then |
| InstanceStore.ReachableTablesAreValid | src/db/instances.ts:99-140 | every table reached from the empty one keeps seller data only in committed, running or accepted rows |
| InstanceStore.TerminalRowUnchangedByOne | src/db/instances.ts:48-154 | no single operation changes a completed or failed row |
| InstanceStore.TerminalRowIsFrozen | src/db/instances.ts:48-154 | no sequence of operations changes a completed or failed row |
| InstanceStore.NoTransitionFromTerminal | src/db/instances.ts:48-154 | a completed or failed row keeps its status forever |
| InstanceStore.NoSelfDealing | src/db/instances.ts:55-63 | a commit by the instance's own buyer never succeeds |
| InstanceStore.SingleCommitWinner | src/db/instances.ts:52-68 | of two commits on one instance, the second always fails |
| InstanceStore.SingleStartWinner | src/db/instances.ts:77-85 | of two starts on one instance, the second always fails |
| InstanceStore.Select | src/db/instances.ts:33-45 | returns exactly the rows satisfying the filter, each once, newest `created_at` first |
| InstanceStore.List | src/db/instances.ts:33-39 | lists exactly the rows with the given status (all rows without one), newest first |
| InstanceStore.ListByAddress | src/db/instances.ts:41-46 | lists exactly the address's instances as buyer and, separately, as seller |
| InstanceRoutes.ToPublicView | src/routes/instances.ts:26-34 | the public view carries id, status, requirement, budget and creation time of the row |
| InstanceRoutes.ToParticipantView | src/routes/instances.ts:37-64 | the participant view adds the addresses and the outcome, and carries seller_info only for the buyer of an accepted instance with truthy seller_info |
| InstanceRoutes.PublicViewHidesPrivateColumns | src/routes/instances.ts:26-34 | two rows that agree on the public columns give the same public view, whatever their seller data |
| InstanceRoutes.OnlyAcceptingBuyerSeesSellerInfo | src/routes/instances.ts:54-61 | a participant view that reveals seller_info was built for the buyer of an ACCEPT outcome |
| InstanceRoutes.GetInstance | src/routes/instances.ts:91-110 | 404 for a missing id; a participant view for the buyer or the seller; a public view for anyone else |
| InstanceRoutes.GetRevealsOnlyToAcceptingBuyer | src/routes/instances.ts:91-110 | GET `/instances/:id` shows seller_info only to the buyer, and only after ACCEPT |
| InstanceRoutes.ListInstances | src/routes/instances.ts:67-77 | an unknown status is refused with 400; otherwise the listing holds exactly the public views of the rows passing the filter, each row once, newest `created_at` first |
| InstanceRoutes.StatusNameInjective | src/routes/instances.ts:69-71 | two statuses with the same name are the same status |
| InstanceRoutes.ListMine | src/routes/instances.ts:80-88 | the buyer list holds exactly the caller's participant views of the rows it bought, and the seller list exactly those of the rows it committed to; each row once, newest first; a view in the seller list shows seller_info only to that instance's buyer |
| InstanceRoutes.MineAgreesWithGet | src/routes/instances.ts:80-110 | every view GET `/mine` lists for a signed-in caller is exactly what GET `/:id` answers that caller for the same instance |
| InstanceRoutes.CreateInstance | src/routes/instances.ts:113-134 | 400 for a missing requirement or a missing or non-positive budget, with the table unchanged; otherwise the table is exactly the store's `createInstance` of the body for the caller, and a valid table stays valid |
| InstanceRoutes.CommitInstance | src/routes/instances.ts:137-164 | 400 without info and proof, 404 for a missing row, 403 for the buyer, 400 "Instance not available for commitment" when the row is not `created`, otherwise the reply `{id, status}` with status `committed`, and the table is exactly the store's `commitInstance` of the body for the caller; a valid table stays valid |
| InstanceRoutes.RunInstance | src/routes/instances.ts:167-190 | 404 for a missing row, 403 for anyone but the buyer, 400 "Instance must be in committed status" when the row is not `committed`, otherwise the table is exactly the store's `startInstance`, and a valid table stays valid |
| InstanceRoutes.RunNeverFailsAfterItsGuards | src/routes/instances.ts:184-187 | the route never answers 500: once its checks pass, the store's start succeeds |
| InstanceRoutes.StreamGuard | src/routes/instances.ts:193-213 | 404, 403 for non-participants and 400 unless `running`, checked in that order |
| InstanceRoutes.DeleteInstance | src/routes/instances.ts:245-258 | only the buyer's own `created` instance is deleted; every other request gets the one 404 and changes nothing |
| DecisionParser.MatchAt | src/agents/buyer.ts:88-90 | a match starts with `DECISION:` in any letter case; its reasoning is one non-empty line; the price groups are digits, and an ACCEPT match has a non-empty whole part |
| DecisionParser.ReasoningAfterSpace | src/agents/buyer.ts:89 | `\s*(.+)` after a space, in front of a one-line reasoning, captures exactly that reasoning |
| DecisionParser.PriceFromLine | src/agents/buyer.ts:89 | after the `$`, a rest of text of the form `<digits> - <reason>` gives the digits as the price group and the one-line reason as the reasoning group |
| DecisionParser.AcceptMatchesAt | src/agents/buyer.ts:89 | after `DECISION: ACCEPT $`, in any case, the match is decided by the price and reasoning alone |
| DecisionParser.AcceptLayoutMatches | src/agents/buyer.ts:89 | an accepting line matches where it starts, capturing its price digits and its reasoning |
| DecisionParser.RejectMatchesAt | src/agents/buyer.ts:107 | a rejecting line matches REJECT where it starts, capturing its reasoning |
| DecisionParser.Search | src/agents/buyer.ts:88-90 | the regex's leftmost match: no earlier position matches, and none at all when it finds nothing |
| DecisionParser.SearchFinds | src/agents/buyer.ts:88-90 | when a match starts at a position and at no earlier one, that is the match the regex returns |
| DecisionParser.ParseDecision | src/agents/buyer.ts:87-116 | no decision iff neither line matches; ACCEPT beats REJECT; an ACCEPT above budget becomes a REJECT that names the budget; an ACCEPT never exceeds the budget |
| DecisionParser.DigitsRoundTrip | src/agents/buyer.ts:92 | `parseFloat` of a number's decimal digits gives that number back |
| DecisionParser.NoMatchInPrefix | src/agents/buyer.ts:88-90 | in front of a line that starts with the sentinel, text without a case-insensitive `DECISION:` holds no match start; the keyword has no border, so no match runs across the join |
| DecisionParser.AcceptLineRoundTrip | src/agents/buyer.ts:14-15 | a reply that ends with the accepting line the prompt asks for, with any text before it that does not itself contain `DECISION:`, parses to that price and reasoning (a budget REJECT above the budget) |
| DecisionParser.RejectLineRoundTrip | src/agents/buyer.ts:16-17 | a reply that ends with the rejecting line the prompt asks for, where neither the text before it nor the reasoning contains `DECISION:`, parses to REJECT with that reasoning |
| DecisionParser.RejectIsNotAccept | src/agents/buyer.ts:107 | a rejecting line is never mistaken for an accepting one |
| DecisionParser.AcceptNeverOverBudget | src/agents/buyer.ts:93-104 | whatever the reply says, an accepted price never exceeds the budget |
| Agents.BuyerSystemPrompt | src/agents/buyer.ts:43-49 | the buyer's system prompt is the chosen base prompt, then the requirement, then the formatted budget, each at its place |
| Agents.SellerSystemPrompt | src/agents/seller.ts:38-51 | the seller's system prompt is the chosen base prompt, then the confidential information and the evidence under their headings, each at its place |
| Agents.BuyerPromptChoice | src/agents/buyer.ts:44 | a non-empty custom prompt leads the buyer's system prompt; an absent or empty one gives the same prompt as no custom prompt |
| Agents.SellerPromptChoice | src/agents/seller.ts:43 | a non-empty custom prompt leads the seller's system prompt; an absent or empty one gives the same prompt as no custom prompt |
| Agents.NewBuyer | src/agents/buyer.ts:29-41 | a new buyer has an empty history and the budget it was given |
| Agents.NewSeller | src/agents/seller.ts:22-36 | a new seller has an empty history |
| Agents.CallbackSeesFullText | src/agents/buyer.ts:69-76 | the token callback sees every non-empty chunk, in order, and together they spell the reply |
| Agents.Accumulate | src/agents/seller.ts:67-74 | the loop's accumulated text is the concatenation of the streamed chunks |
| Agents.ReplyOf | src/agents/seller.ts:102-116 | a stream becomes the reply text, and a failed call becomes a thrown error |
| Agents.SellerOpening | src/agents/seller.ts:53-82 | the request is the system prompt and the opening instruction, sent inline; only the reply is added to the history, and a throw leaves the seller unchanged |
| Agents.SellerRespond | src/agents/seller.ts:84-117 | the `[BUYER]:` message is added to the history before the call and sent with the whole history; the reply follows it on success, and on a throw the added message stays |
| Agents.BuyerExchange | src/agents/buyer.ts:51-81 | the `[SELLER]:` message is added to the history before the call and sent with the whole history; the reply follows it on success, and on a throw the added message stays |
| Agents.BuyerRespond | src/agents/buyer.ts:51-85 | the buyer's reply comes with its parsed decision |
| Agents.SellerHistoryShape | src/agents/seller.ts:76-114 | after the opening and k answered messages the seller's history has 1 + 2k entries, alternating assistant and user |
| Agents.BuyerHistoryShape | src/agents/buyer.ts:55-81 | after k answered messages the buyer's history has 2k entries, alternating user and assistant |
| Negotiation.Yielded | src/negotiation.ts:58-111 | the generator yields every message, then one outcome or nothing |
| Negotiation.OutcomeYieldedOnceAndLast | src/negotiation.ts:81-111 | the outcome is yielded once, as the last event, and only for a run without error |
| Negotiation.BuyerTurn | src/negotiation.ts:65-86 | a buyer turn appends exactly one buyer message with the next turn number, or reports the agent's failure |
| Negotiation.SellerTurn | src/negotiation.ts:88-101 | a seller turn appends exactly one seller message with the next turn number, or reports the agent's failure |
| Negotiation.Rounds | src/negotiation.ts:64-111 | the loop stops at the first buyer decision or at 11 messages; no earlier buyer message carried a decision; an exhausted loop gives the turn-limit REJECT; an error ends a run only before the 11th message, so 11 undecided messages always give the turn-limit REJECT |
| Negotiation.EndedAtTurnLimit | src/negotiation.ts:64-111 | a run that reaches 11 messages ends with the turn-limit REJECT, never with an error or a decision |
| Negotiation.RunNegotiation | src/negotiation.ts:16-112 | turns are numbered 1, 2, 3, … and alternate seller and buyer; a run ends in an error (before the 11th message), a decision, or the turn-limit REJECT; on an outcome the session is completed |
| Negotiation.OpeningSynced | src/negotiation.ts:45-62 | after the opening, the transcript and both agents' histories agree |
| Sessions.CreateSession | src/routes.ts:18-40 | 400 without requirement, information or a non-zero budget; otherwise a pending session under the generated id holding the request, and no other session changes |
| Sessions.GetSession | src/routes.ts:43-57 | 404 for an unknown id, otherwise the session's status, messages and outcome |
| Sessions.GetAfterCreate | src/routes.ts:29-56 | a created session reads back as pending, with no messages and no outcome |
| Sessions.ErrorOutcome | src/routes.ts:106-110 | a failed run's outcome is a REJECT without a price whose reasoning is `Error during negotiation: ` followed by the error message |
| Sessions.ErrorOutcomeKeepsMessage | src/routes.ts:109 | the error message can be read back from the recorded reasoning after the fixed prefix |
| Sessions.StreamGuard | src/routes.ts:60-79 | 404 unknown, 400 completed (with its outcome), 400 running, 500 without an API key, checked in that order |
| Sessions.StartSession | src/routes.ts:60-81 | only a pending session passes the guards, and it alone becomes running |
| Sessions.StreamEvents | src/routes.ts:83-105 | the events sent are the messages in order, then one done or error event |
| Sessions.SessionAfterRun | src/routes.ts:100-111 | after the stream the session is completed with the run's outcome or the error outcome |
| Sessions.StreamSession | src/routes.ts:60-113 | a stream runs a pending session to completion; every event but the last is a message; a second stream is refused |
| Sessions.DeleteSession | src/routes.ts:127-133 | deleting removes exactly that session, or answers 404 |
| Sessions.GoneAfterDelete | src/routes.ts:127-133 | a deleted session reads as 404 |
| Sessions.CreatedSessionStreams | src/routes.ts:29-81 | a freshly created session passes the stream guards when a key is configured |
| Transcript.SaveMessage | src/db/messages.ts:4-26 | saving appends one row with the given fields and an id above every earlier id |
| Transcript.SortRows | src/db/messages.ts:33 | `ORDER BY turn ASC, id ASC`: sorted and a permutation of the input |
| Transcript.GetMessages | src/db/messages.ts:30-35 | exactly the instance's rows, sorted by turn and then id |
| Transcript.DeleteMessages | src/db/messages.ts:37-40 | exactly the instance's rows are dropped, and the id counter stays |
| Transcript.DeleteKeepsOthers | src/db/messages.ts:37-40 | deleting one instance's rows leaves every other instance's rows as they were |
| Transcript.GetAfterDelete | src/db/messages.ts:30-40 | after a delete the instance reads empty and every other instance reads as before |
| Transcript.SavedMessageIsRead | src/db/messages.ts:13-34 | a saved message is among its instance's messages |
| Nonces.GenerateNonce | src/auth/nonce.ts:6-17 | stores an unused row with the lower-cased address and a five-minute expiry; a duplicate nonce changes nothing |
| Nonces.ValidateNonce | src/auth/nonce.ts:19-40 | true exactly for an unused, unexpired row of the same lower-cased address, which is then marked used; otherwise nothing changes |
| Nonces.SingleUse | src/auth/nonce.ts:37-39 | an accepted nonce is refused from then on |
| Nonces.AddressCaseInsensitive | src/auth/nonce.ts:14-25 | the address check ignores letter case |
| Nonces.IssuedNonceLifetime | src/auth/nonce.ts:9-34 | a new nonce is accepted up to its expiry instant and refused one millisecond later |
| Nonces.CleanupExpiredNonces | src/auth/nonce.ts:42-51 | deletes exactly the expired or used rows and counts them |
| Nonces.CleanupKeepsRedeemable | src/auth/nonce.ts:42-48 | a cleanup never removes a nonce that could still be redeemed |
| Usage.DatePart | src/db/usage.ts:3-5 | the date is the text before the first `T` |
| Usage.GetUsage | src/db/usage.ts:7-16 | the day's count, 0 when there is no row |
| Usage.IncrementUsage | src/db/usage.ts:18-29 | adds one to the counter of the day of the first clock reading (starting at 1); returns the counter of the day of the second reading, which is the new count when both readings fall on one day; no other counter changes |
| Usage.IncrementThenRead | src/db/usage.ts:28 | the returned count is what a read at the second clock reading sees |
| Usage.IncrementSameDay | src/db/usage.ts:18-29 | when both clock readings fall on one day, the returned count is one above the previous count, and 1 on a day without a row |
| Usage.IncrementAcrossMidnight | src/db/usage.ts:9-28 | when the two clock readings fall on two days, the earlier day is incremented and the later day's counter is returned, 0 for a day without a row |
| Usage.IncrementIsolated | src/db/usage.ts:22-26 | other addresses and other days are unaffected |
| Usage.CleanupOldUsage | src/db/usage.ts:31-39 | deletes exactly the rows dated before the cutoff and counts them |
| Usage.CleanupKeepsRecentDays | src/db/usage.ts:37 | rows of the cutoff day and later survive |
| Middleware.BearerToken | src/auth/middleware.ts:16-20 | a token exists iff the header starts with `Bearer `, and it is the rest of the header |
| Middleware.BearerRoundTrip | src/auth/middleware.ts:20 | a `Bearer ` header yields back the token it was built from |
| Middleware.LowerCaseSchemeRefused | src/auth/middleware.ts:16 | `bearer ` in lower case carries no token |
| Middleware.RequireAuth | src/auth/middleware.ts:13-29 | 401 for a missing header or an unverifiable token, otherwise the token's subject becomes the address |
| Middleware.OptionalAuth | src/auth/middleware.ts:32-44 | never refuses, and sets the address iff the token verifies |
| Middleware.OptionalAgreesWithRequired | src/auth/middleware.ts:13-44 | when the strict middleware admits a request, the lenient one sets the same address |
| AuthRoutes.MatchesAddressPattern | src/routes/auth.ts:17 | the address test accepts exactly `0x` followed by 40 hex digits |
| AuthRoutes.LowerCasedAddressStaysWellFormed | src/auth/nonce.ts:14 | lower-casing a well-formed address keeps it well formed |
| AuthRoutes.GetNonce | src/routes/auth.ts:9-23 | 400 for a missing or malformed address, otherwise a fresh nonce for the lower-cased address |
| AuthRoutes.IssuedNonceRedeemable | src/routes/auth.ts:21-22 | a nonce from GET `/nonce` validates for the same address before it expires |
| AuthRoutes.PostVerify | src/routes/auth.ts:26-41 | 400 without message and signature, 401 with the signature check's reason, otherwise a token for the verified address |
| AuthRoutes.TokenOnlyForVerifiedSigner | src/routes/auth.ts:33-40 | a token is issued only for the address the signature check vouched for |

## Left out

- Floating point: `max_payment`, prices and budgets are exact numbers (`real`). The text of a JavaScript number is a parameter `fmt`. NaN and non-numeric `max_payment` are not modelled.
- `toLowerCase` is modelled for ASCII letters only. Ethereum addresses and the decision keywords are ASCII.
- Concurrency: each SQL statement is one atomic step of the model. Two racing requests are modelled as two steps in either order. The intermediate `running` session state that a concurrent GET could observe is visible only as the state between StartSession and the end of StreamSession.
- I/O and external calls are parameters or are left out. These are the SQLite connection, SSE writing, the OpenAI client, `new Date()`, `uuidv4` and `randomBytes`. Errors thrown while writing SSE frames are not modelled.
- src/auth/siwe.ts and src/auth/jwt.ts: the signature check and the JWT library are parameters. The nonce check inside the signature wrapper is not part of PostVerify's model.
- The body of GET `/instances/:id/stream` after its guards (src/routes/instances.ts:215-242): it calls `runNegotiation(instance)` with an instance, while src/negotiation.ts:16 takes a session and an API key. It also reads event kinds that the generator never yields. Only the route's guards are modelled.
- GET `/sessions` (src/routes.ts:116-124): a listing of the session map that states nothing beyond GetSession.
- The `model` and `baseURL` settings of the agents: they only configure the HTTP client.
- Agents.ReplyOf: a stream that fails after some chunks have arrived is modelled as failing before any chunk. The tokens that were already forwarded are not modelled.
- Agents.NewSeller: an absent `seller_proof` is rendered by the template literal as the text `undefined`, modelled by `Common.TemplateText`. A JSON `null` proof, which the template would render as `null`, is treated like an absent field, because request fields are `Option` values with no separate null.
- Nonces.ValidateNonce, Nonces.CleanupExpiredNonces: expiry times are milliseconds, not ISO strings. The `Date` comparison in validation and the text comparison in cleanup agree on ISO strings of one shape.
- Usage.CleanupOldUsage: the cutoff date (today minus `daysToKeep`, via `setDate`) is a parameter.
- Sessions.CreateSession: the id is a parameter standing for `uuidv4()`. An id already in the map is overwritten by the new session, as the `Map.set` of src/routes.ts:37 does.
- InstanceStore.Create: an id collision makes the INSERT throw, and the server answers 500. The model returns no row and leaves the table unchanged.
- The `instances`, `messages`, `nonces` and `daily_usage` tables are defined by the queries on them. Schema defaults are written into the operations.

## Behaviour worth noting

- `incrementUsage` reads the clock twice: once to pick the row it increments (src/db/usage.ts:20) and once more through `getUsageToday` to pick the row it returns (src/db/usage.ts:9, called at :28). Usage.IncrementUsage takes both readings as parameters, so a call straddling midnight returns the new day's counter.
- Seller information is revealed in the participant view only when it is truthy, besides the outcome being ACCEPT and the viewer being the buyer (src/routes/instances.ts:54-61).
- The turn limit is the constant `MAX_TURNS = 10` (src/negotiation.ts:11), not the instance's `max_turns`. A run without a decision therefore has 11 messages.
- `runNegotiation` (src/negotiation.ts:16-112) works on the in-memory session it is given. It has no timeouts and no cancellation, and it writes neither the `messages` table nor the `instances` table.
