# x402 on Canton: a verified model of the money path

The repository lets a merchant be paid on a Canton ledger over HTTP 402. Three parts of it carry
the money: the validator that decides whether a prepared ledger transaction really is the transfer
that was agreed, the facilitator that submits it and keeps the books, and the faucet that hands out
small amounts to new agents. This project models those parts in Dafny and proves what they promise.

`dafny verify dfyconfig.toml` checks everything.

## How the model is laid out

**The prepared-transaction validator.** `Wire` is the hand-written Protocol Buffers reader, as loops
over a byte buffer and as a function that consumes bytes from the front. `WireCodec` holds the
canonical encoder and an independent reference reader that takes tags and lengths as 32-bit varints
and lets the high bits vanish. `DamlValue` reads the `Value` oneof and walks it for parties;
`DamlCodec` is the tree of Daml values with its encoder. `Decoded`, `PreparedDecoder` and
`PreparedCodec` do the same for a whole prepared transaction. `NodeGraph` is the worklist over the
transaction's nodes, `TransferRecord` and `TransferCodec` the positional reading of the transfer
record, `PartyRule` the rule for which party may appear where, and `Acceptance` the whole decision.

What acceptance means is said of bytes nobody has vouched for. `LooseReader`, `LooseTransaction` and
`LooseTransfer` read values, nodes, input contracts and the terms of a transfer without refusing
anything: every occurrence of every field, at any depth. They are the reference that the strict
readers are proved against, and `Safety` is stated in their words. `LooseCodec` says what they read in a
canonical encoding, `TreeSafety` repeats the safety result for a transaction given as a tree,
`PlainTransfer` says exactly when a transfer without consequences is accepted, and `MarkedSender`, with
the size bounds of `Sizes`, is one small transaction that is.

**Machines over time.** `Windows` is pruning and counting of time lists. `LimiterHistory`, `RateLimit`
and `LimiterRuns` are the sliding-window limiter against its full history; `BreakerBooks` and
`Breaker` the circuit breaker; `RedeemedLog` and `Redeemed` the store of redeemed payments. Each class
keeps the original's pruned fields and, as ghost state, everything that ever happened. Clocks are
parameters that do not run backwards; minus infinity is `None`.

**Bookkeeping under interleaving.** `FaucetRows`, `Faucet`, `FaucetDb`, `FaucetSafety` and
`FaucetUnlocked` are the faucet's claim table, in memory and as a READ COMMITTED step system with and
without the advisory lock. `OrderedMap`, `SettleCell` and `SettleStore` are the settle store.
`Completions` and `TransferOutcome` read a submission's outcome off an append-only completion stream
whose reads may fail or deliver only a beginning. `FlightCache` and `KeyedCache` are the single-flight
caches; each method is one stretch of the original between two awaits, so any order of calls is an
interleaving. `PayoutLine` is the promise chain that the faucet's payouts queue on.

**Text and arithmetic.** `Text` and `Amount` are the decimal conversions over byte strings, with the
prepared-transfer sum; `RewardSum` is the rewards client's own sum of decimals. `JsonScan`, `JsonText` and `JsonCut` are the scanner of
cut JSON arrays and the JSON grammar of RFC 8259, sections 2 to 7, that it is measured against.
`Inputs` is greedy input selection.

Bytes are integers from 0 to 255, text is UTF-8 bytes where the original decodes UTF-8 and a
`string` elsewhere, amounts are whole atomic units. A decoder that throws and a transaction that is
not the expected one are both one `Err`.

## Results that are not plain confirmations

Where the code does not do what a reader might expect, the code is kept and the exact condition proved.

- A byte-order mark at the start of a party id is swallowed by the text decoder, so what the party rule
  judges is the ids' texts. Those are the ids as written exactly when none starts with a mark
  (`DamlValue.ShownIsExact`, `Safety.UnmarkedIdsExplained`); otherwise bytes can be accepted in which an
  id as written is nobody's who may stand there (`MarkedSender.MarkedSenderAccepted`).
- The three sums of decimals do not agree on all inputs they accept. The rewards sum pads an amount with
  zeros without trimming it, so "1.234567890 " with its trailing space is read as a tenth of the amount
  (`RewardSum.TenthOfTheAmount`). On amounts that both accept, it prints what the ledger sum prints
  exactly when no amount has white space behind fewer than ten fraction digits of a value that is not
  zero (`RewardSum.RewardSumAgrees`).
- A key that one limiter call lists under several caps is held to the first of them only; all of them
  hold, whatever the history, exactly when no later cap is below the first (`LimiterRuns.SeveralCaps`).
- A success at the breaker forgives a live failure exactly when the oldest failure held is still live;
  an expired one in front absorbs the forgiveness (`BreakerBooks.Forgiveness`).
- `recordSettled` answers false for the same update id too, although its interface promises false only
  for a different one (`SettleCell.SameIdLosesToo`).
- The SQL settle store loses a submission id or participant that is the empty string, and otherwise
  reads what the in-memory store reads (`SettleCell.SqlRefinesMemory`).
- `findCompletion` and `findCommandCompletions` disagree on a completion exactly when it carries a
  status without a code (`Completions.ReadersAgree`).
- On a commit with a blank update id, execute reports a result and a later resolve says unknown; this
  is the only completion on which the two differ (`TransferOutcome.BlankUpdateId`).
- Without the advisory lock the lifetime cap can be passed by all statements in flight but one, and no
  further; the bound is reached (`FaucetUnlocked.OvershootIsBounded`, `FaucetUnlocked.BoundIsReached`).
- A keyed cache that has evicted or invalidated a key starts a second load for it, whatever the first
  one is doing (`KeyedCache.KeyedTtlSingleFlightCache.Get`).

## Model

| member | source | states |
|---|---|---|
| Wire.ReadVarint | packages/core/src/prepared-transfer.ts:49-60 | the loop reads at any position exactly what the front-consuming varint reader reads of the rest, at most ten groups, and refuses what runs off the end |
| Wire.ReadVarint32 | packages/core/src/prepared-transfer.ts:90-100 | a tag or length whose value does not fit 32 bits is refused, any other is the varint itself |
| Wire.DecodeMessage | packages/core/src/prepared-transfer.ts:108-147 | the loop over a buffer equals the message reader that takes one field after another, or fails where it fails |
| WireCodec.MessageRoundTrip | packages/core/src/prepared-transfer.ts:108-147 | decoding undoes the canonical encoding of any list of valid fields |
| WireCodec.RefVarintTruncates | packages/core/src/prepared-transfer.ts:62-100 | the reference reader's 32-bit varint is the full varint modulo 2^32, group by group |
| WireCodec.AgreesWithReference | packages/core/src/prepared-transfer.ts:62-147 | a byte string is accepted exactly when the 32-bit reference reader frames it and no tag or length loses bits; then field numbers, wire types and byte boundaries are the same and cover the bytes without gap |
| DamlValue.AssertSingleValueMember | packages/core/src/prepared-transfer.ts:472-536 | passes exactly when the value decodes and carries at most one of the eleven counted members |
| DamlValue.CollectPartyLeaves | packages/core/src/prepared-transfer.ts:625-705 | the recursive walk that pushes into its list appends exactly what the specification collects, and refuses what it refuses |
| DamlCodec.LeafRoundTrip | packages/core/src/prepared-transfer.ts:549-583 | the leaf of an encoded value is the value's own party, text, numeral, time or integer, and nothing for a container |
| DamlCodec.ContainerRoundTrip | packages/core/src/prepared-transfer.ts:625-705 | records, lists, optionals, variants and both maps show their children in order, gen-map keys included |
| DamlCodec.CollectRoundTrip | packages/core/src/prepared-transfer.ts:549-705 | on the encoding of any value tree the walk returns exactly its party leaves in order when no value sits deeper than 64, and refuses every deeper tree |
| DamlValue.ShownIsExact | packages/core/src/prepared-transfer.ts:198-200 | text decoding shows strings as they are exactly when none begins with a byte-order mark |
| PreparedDecoder.DecodePrepared | packages/core/src/prepared-transfer.ts:1168-1337 | the loops over nodes and input contracts compute the decoded view or refuse, with the bounds on roots and nodes |
| PreparedCodec.NodeRoundTrip | packages/core/src/prepared-transfer.ts:1040-1157 | each of the five node kinds, encoded, is decoded to its id, kind, choice, template, children, values, party lists and key parties |
| PreparedCodec.ContractRoundTrip | packages/core/src/prepared-transfer.ts:1168-1337 | an encoded input contract is decoded to its template, signatories, argument and every party in its lists and key |
| PreparedCodec.TxRoundTrip | packages/core/src/prepared-transfer.ts:1168-1337 | decoding the encoding of any prepared transaction within the bounds shows all of it; one outside the bounds is refused |
| NodeGraph.ReachableFrom | packages/core/src/prepared-transfer.ts:1500-1546 | the worklist ends, on cyclic graphs too, with exactly the nodes reachable from the root, and reports whether an id is missing |
| NodeGraph.CountExercises | packages/core/src/prepared-transfer.ts:1398-1546 | passes exactly when one exercise has the allowed choice and each other one matches a consequence rule |
| NodeGraph.AssertSingleAllowedRootExercise | packages/core/src/prepared-transfer.ts:1398-1546 | accepts exactly when there is one root, ids are distinct, every node is recognised and fully decoded, the root is the only exercise of the allowed choice, the others match a rule, no child is missing and every node is reachable |
| TransferRecord.LabelsCannotDiverge | packages/core/src/prepared-transfer.ts:2369-2415 | on every accepted choice argument, looking a field up by its label finds nothing or the very entry read by position, for each field read, those of the instrument and of the metadata record included |
| Acceptance.PreapprovalLabelsCannotDiverge | packages/core/src/prepared-transfer.ts:2101-2128 | the same for the three parties of a preapproval that can grant its provider a role |
| TransferCodec.RecordRoundTrip | packages/core/src/prepared-transfer.ts:432-462 | the entries of an encoded record are its labels and values in order |
| TransferCodec.MemoRoundTrip | packages/core/src/prepared-transfer.ts:2312-2344 | the memo of an encoded metadata map is its one text under the memo key, nothing, or a refusal when there are two or it is no text |
| TransferCodec.HoldingsRoundTrip | packages/core/src/prepared-transfer.ts:2273-2299 | the input holdings of an encoded list are its contract ids in order |
| TransferCodec.TransferRoundTrip | packages/core/src/prepared-transfer.ts:2478-2564 | from the encoding of any transfer, labelled in declaration order or unlabelled, sender, receiver, amount, instrument, inputs, deadline in milliseconds and memo are recovered |
| PartyRule.NamespaceIsLastSegment | packages/core/src/prepared-transfer.ts:1897-1902 | a party's namespace is what follows its last separator, and there is none exactly when no nonempty segment follows |
| PartyRule.AssertNoForeignParties | packages/core/src/prepared-transfer.ts:1917-2047 | the loops with the budget of two admin mentions accept exactly when every party of every bucket is explained where it stands |
| PartyRule.OrderIrrelevant | packages/core/src/prepared-transfer.ts:1917-2047 | the verdict is the same for any reordering within the buckets |
| PartyRule.NodesCovered | packages/core/src/prepared-transfer.ts:1834-1887 | every value and every listed party of every node lands in a bucket the rule looks at |
| PartyRule.InputsCovered | packages/core/src/prepared-transfer.ts:1834-1887 | every input contract's argument lands in a bucket with its template and signatories |
| Acceptance.AssertPreparedTransferMatches | packages/core/src/prepared-transfer.ts:2820-3035 | the whole check succeeds exactly on bytes that decode to a sole allowed tree whose root is the transfer that was expected, with every party explained |
| LooseReader.PartiesAreLedTo | packages/core/src/prepared-transfer.ts:625-705 | the parties the loose reader finds are exactly those at the end of a chain of values, each written directly inside the one before under any container member |
| LooseReader.CollectIsLoose | packages/core/src/prepared-transfer.ts:549-705 | on any bytes the walk accepts it returns exactly the parties written anywhere inside them, in order and as often, each without a byte-order mark in front |
| LooseCodec.PartiesRoundTrip | packages/core/src/prepared-transfer.ts:625-705 | in the encoding of any value tree, however deep, the loose reader finds exactly its party leaves |
| LooseCodec.MarkedParty | packages/core/src/prepared-transfer.ts:198-200 | a party id with a byte-order mark in front is collected as the id without it |
| LooseTransaction.NodeIsLoose | packages/core/src/prepared-transfer.ts:1040-1157 | any node body that is recognised and fully decoded shows all that is written in it: every listed party, every party of a contract key, every value, its choice and its template |
| LooseTransaction.InputIsLoose | packages/core/src/prepared-transfer.ts:1214-1263 | any accepted input contract shows its argument, template, signatories, listed parties and the parties of its key |
| LooseTransaction.PreparedIsLoose | packages/core/src/prepared-transfer.ts:1168-1337 | from any accepted bytes every node, input contract, root id and acting party that is written is decoded, in order |
| LooseTransfer.ExtractIsLoose | packages/core/src/prepared-transfer.ts:2478-2564 | from any accepted choice argument, labelled wholly, partly or not at all, the terms extracted, the deadline in milliseconds included, are those written at the declared positions, and every field of the record is written once |
| Safety.AcceptedPartiesExplained | packages/core/src/prepared-transfer.ts:2820-3035 | in any accepted bytes there is one root, the transfer; the command acts as the sender alone; and the text of every party written in any node value, the root argument with its budget of two, party list, contract key or input contract is one of those who may stand there |
| Safety.UnmarkedIdsExplained | packages/core/src/prepared-transfer.ts:1917-2047 | where no id begins with a byte-order mark, it is the ids as written that may stand there; the texts judged are those ids exactly then |
| Safety.UnmarkedInputsExplained | packages/core/src/prepared-transfer.ts:1917-2047 | the same for input contracts |
| Safety.AcceptedTermsAreIntended | packages/core/src/prepared-transfer.ts:2820-3035 | in any accepted bytes the intended sender, receiver, instrument, memo, holdings and, by value, amount stand at the declared positions of the root's transfer, each written once |
| TreeSafety.AcceptedTreeExplained | packages/core/src/prepared-transfer.ts:2820-3035 | when the accepted bytes are the canonical encoding of a transaction tree, the same is said of the tree's own nodes and inputs |
| PlainTransfer.PlainTransferAccepted | packages/core/src/prepared-transfer.ts:2820-3035 | a transaction that is one transfer without consequences is accepted exactly when its terms are the intended ones, the pins hold, its values nest no deeper than 64 and its argument names only who it may |
| MarkedSender.MarkedSenderAccepted | packages/core/src/prepared-transfer.ts:198-200 | some bytes are accepted although an id written in their root argument, the sender's with a byte-order mark in front, is not itself one that may stand there |
| Amount.DecimalToAtomicExact | packages/core/src/amount.ts:36-58 | the conversion yields exactly the value times 10^10, and refuses exactly malformed numerals and values that are no whole number of atomic units |
| Amount.AtomicRoundTrip | packages/core/src/amount.ts:36-79 | atomic to decimal and back is the shortest numeral of the same amount |
| Amount.CanonicalAtomicRoundTrip | packages/core/src/amount.ts:36-79 | the round trip is the identity on canonical atomic numerals |
| Amount.DecimalRoundTrip | packages/core/src/amount.ts:36-79 | decimal to atomic and back is the identity on canonical ten-digit decimals |
| Amount.EqualsIsValueEquality | packages/core/src/amount.ts:139-149 | two accepted decimals compare equal exactly when their values are equal |
| Amount.SumLedgerDecimals | packages/core/src/amount.ts:165-171 | the loop prints the exact sum of the atomic values, or refuses if one is refused |
| Amount.CanonicalEqualMeansSameValue | packages/core/src/prepared-transfer.ts:2808-2818 | equal canonical forms of a numeric input mean equal values |
| Amount.AddDecimalsAgrees | packages/core/src/prepared-transfer.ts:4188-4196 | the prepared-transfer sum of two amounts is the ledger sum, on all inputs both accept |
| RewardSum.SumDecimals10 | packages/ledger/src/rewards.ts:315-327 | the rewards loop prints the exact sum of its readings |
| RewardSum.ReadsAlikeExactly | packages/ledger/src/rewards.ts:315-327 | on an amount both accept, the rewards sum reads the ledger's value exactly when no white space follows it, or it has ten fraction digits, or it is zero; else it reads less |
| RewardSum.TenthOfTheAmount | packages/ledger/src/rewards.ts:315-327 | nine fraction digits and a space: both accept, and the rewards sum reads a tenth |
| RewardSum.UnpaddedIsRead | packages/ledger/src/rewards.ts:315-327 | an amount the ledger accepts, with nothing behind it or ten fraction digits, is accepted by the rewards sum |
| RewardSum.RewardSumAgrees | packages/ledger/src/rewards.ts:315-327 | on any number of amounts both accept, the two sums print the same text exactly when each amount is one they read alike |
| Windows.Prune | packages/facilitator/src/rate-limit.ts:129-136 | what is left of a sorted list is its end, exactly the live entries, as many as the whole list has |
| Windows.SpacedWindow | packages/facilitator/src/rate-limit.ts:149-204 | a history whose entries `max` apart are a window apart holds at most `max` in any window |
| RateLimit.SlidingWindowLimiter.Sweep | packages/facilitator/src/rate-limit.ts:141-147 | only empty buckets go, and what is left still stands for the full history |
| RateLimit.SlidingWindowLimiter.AllowKeys | packages/facilitator/src/rate-limit.ts:149-204 | the verdict is the one over the full unpruned history, a refused call leaves that history alone, an admitted one adds one hit per distinct capped key and one to the global budget; after a capped call every bucket was named within the last two windows |
| RateLimit.SlidingWindowLimiter.Peek | packages/facilitator/src/rate-limit.ts:211-217 | answers from the full history and records nothing |
| LimiterHistory.ReflectsPush | packages/facilitator/src/rate-limit.ts:195-203 | pushing into one bucket records one more key and leaves every other bucket standing for its history |
| LimiterRuns.KeyCapHolds | packages/facilitator/src/rate-limit.ts:149-204 | over any run, no window holds more admitted hits of a key than its cap |
| LimiterRuns.GlobalCapHolds | packages/facilitator/src/rate-limit.ts:149-204 | over any run, no window holds more budgeted calls than the global cap |
| LimiterRuns.RefusalLeavesNoTrace | packages/facilitator/src/rate-limit.ts:179-194 | a refused call can be taken out of any run without changing a later state |
| LimiterRuns.SeveralCaps | packages/facilitator/src/rate-limit.ts:182-194 | every cap listed for a key is respected, whatever the history, exactly when the first is the least |
| Breaker.CircuitBreaker.RecordFailure | packages/facilitator/src/rate-limit.ts:438-465 | on pruned lists, both arms judge as on the full books, and a trip sets the opening time and spends the count arm |
| Breaker.CircuitBreaker.RecordSuccess | packages/facilitator/src/rate-limit.ts:477-499 | one failure is forgiven, a dated success is counted, the opening time stays |
| Breaker.CircuitBreaker.IsOpen | packages/facilitator/src/rate-limit.ts:467-470 | open exactly while the books' opening time lies ahead |
| BreakerBooks.SoundNext | packages/facilitator/src/rate-limit.ts:438-499 | every step keeps the count arm below the threshold, made of the latest failures, all after the last trip, and the opening time within a cooldown of the clock |
| BreakerBooks.RunIsSound | packages/facilitator/src/rate-limit.ts:394-501 | so does every run |
| BreakerBooks.CountTripIsEarned | packages/facilitator/src/rate-limit.ts:446-464 | a count trip needs threshold failures inside one window, all recorded after the trip before |
| BreakerBooks.OpenStaysOpen | packages/facilitator/src/rate-limit.ts:477-499 | nothing recorded by some time closes a breaker that is open at that time |
| BreakerBooks.Forgiveness | packages/facilitator/src/rate-limit.ts:479-486 | a success lowers the live count by one exactly when the oldest failure held is live |
| Redeemed.RedeemedStore.Claim | packages/core/src/redeemed-store.ts:113-136 | refused exactly on a live ticket, which the log shows as the id's latest win, and then nothing changes; a granted claim leaves only live tickets, sorted and within the size cap, and the record keeps its promise |
| Redeemed.RedeemedStore.EvictExpired | packages/core/src/redeemed-store.ts:121-126 | stopping at the first live ticket leaves no expired one |
| Redeemed.RedeemedStore.Release | packages/core/src/redeemed-store.ts:137-141 | the ticket is gone and the release is on record |
| RedeemedLog.WinKeepsPromise | packages/core/src/redeemed-store.ts:113-136 | a claim that finds no live ticket may win: two wins of one id closer than the time to live, with no release between, still have at least maxSize wins of other ids between them |
| RedeemedLog.CrowdBehindFirst | packages/core/src/redeemed-store.ts:128-134 | behind the oldest ticket stand as many later wins of other ids as there are other tickets |
| Faucet.FaucetStore.TryClaim | packages/facilitator/src/db/faucet-store.ts:115-142 | admits exactly when party, daily budget and lifetime cap allow, gives the first failing reason, and adds the row or nothing |
| FaucetRows.EveryWindow | packages/facilitator/src/db/faucet-store.ts:207-240 | if each row fitted its own window over the rows before it, every window whatever is within the daily budget, in whatever order the times come |
| FaucetSafety.SerialisedNext | packages/facilitator/src/db/faucet-store.ts:252-263 | each step of claim, rollback or release keeps the table's books, because only the lock holder runs a claim statement |
| FaucetSafety.LockedFaucetKeepsItsLimits | packages/facilitator/src/db/faucet-store.ts:207-264 | in every interleaving: one row a party, every window within the daily budget, the total within a positive cap |
| FaucetSafety.CommitIsAdmissibleNow | packages/facilitator/src/db/pool.ts:122-141 | a row about to be committed is admissible on the table of that moment, not only on the snapshot it was judged by |
| FaucetUnlocked.OneRowPerParty | packages/facilitator/src/db/faucet-store.ts:221-264 | with or without the lock no interleaving gives a party two rows |
| FaucetUnlocked.OvershootIsBounded | packages/facilitator/src/db/faucet-store.ts:221-264 | without the lock, with one fixed payout and at most m statements in flight, the total stays within the cap plus m - 1 payouts |
| FaucetUnlocked.BoundIsReached | packages/facilitator/src/db/faucet-store.ts:221-264 | for every m there is a run that reaches that bound |
| SettleStore.InlineSettleStore.RecordDispatched | packages/facilitator/src/db/inline-settle-store.ts:147-158 | wins exactly on a hash without a row and otherwise changes nothing; no other hash moves, except that in a full store the oldest row goes |
| SettleStore.InlineSettleStore.RecordSettled | packages/facilitator/src/db/inline-settle-store.ts:159-167 | wins exactly when the hash is not settled and otherwise changes nothing; keeps the age of a marker it promotes, which evicts nothing; a new row in a full store costs the oldest |
| SettleStore.InlineSettleStore.ClearDispatched | packages/facilitator/src/db/inline-settle-store.ts:168-171 | removes a dispatch marker and never a settled row; no other hash moves, however full the store |
| SettleStore.InlineSettleStore.Sweep | packages/facilitator/src/db/inline-settle-store.ts:172-182 | deletes exactly the rows older than the limit and counts them |
| SettleStore.YoungGet | packages/facilitator/src/db/inline-settle-store.ts:172-182 | after a sweep a hash has its row exactly when the row is young enough |
| SettleCell.SettledStays | packages/facilitator/src/db/inline-settle-store.ts:147-171 | once settled with an update id, settled with that id after any further calls |
| SettleCell.SettledOnce | packages/facilitator/src/db/inline-settle-store.ts:159-167 | over any run one call settles if the run ends settled, and none otherwise |
| SettleCell.DispatchesArePaidFor | packages/facilitator/src/db/inline-settle-store.ts:147-171 | winning dispatches number at most one plus the clears that took effect, exactly so while a marker stands |
| SettleCell.SameIdLosesToo | packages/facilitator/src/db/inline-settle-store.ts:84-89 | a settle call answers false exactly when some update id is recorded, the same one included |
| SettleCell.SqlRefinesMemory | packages/facilitator/src/db/inline-settle-store.ts:250-346 | after any run the SQL row stands for the in-memory row, and reads the same exactly when the marker names no empty submission or participant |
| Completions.FindCompletion | packages/ledger/src/client.ts:1043-1066 | the first completion of the submission decides |
| Completions.PollCompletion | packages/ledger/src/client.ts:1074-1098 | twenty polls report the first completion any of them finds, or none |
| Completions.ReadsAgree | packages/ledger/src/client.ts:1043-1066 | two reads of one growing stream, each failed or partial, never contradict one another |
| Completions.FindCommandCompletions | packages/ledger/src/client.ts:1110-1128 | the loop returns the command's completions, all of them, in stream order |
| Completions.CommandReadsGrow | packages/ledger/src/client.ts:1100-1128 | a partial read of the stream shows a beginning of the command's completions |
| Completions.ReadersAgree | packages/ledger/src/client.ts:1110-1128 | the two readers of the stream judge a completion alike exactly when it has no status without a code |
| TransferOutcome.TransferCompletedFromResult | packages/facilitator/src/canton/transfer-factory.ts:57-72 | the first transfer exercise's result tag decides, or nothing can be read |
| TransferOutcome.ConfirmTransferred | packages/facilitator/src/canton/transfer-factory.ts:499-600 | the first look that shows any event decides by the rule of the instrument; when none does, the commit is trusted and flagged |
| TransferOutcome.NotMovedIsEvidence | packages/facilitator/src/canton/transfer-factory.ts:499-600 | funds are reported as not moved only on events that were read; the verdict is flagged as a guess exactly when none was |
| TransferOutcome.Execute | packages/facilitator/src/canton/transfer-factory.ts:273-389 | the outcome is the one specified for each answer of the post, the polls and the looks |
| TransferOutcome.AcceptedEndings | packages/facilitator/src/canton/transfer-factory.ts:330-389 | once accepted, a submission ends in a result, a rejection backed by a failed completion of the stream, or outcome unknown |
| TransferOutcome.ResolvesAgree | packages/facilitator/src/canton/transfer-factory.ts:431-488 | two resolves of one submission, whenever and with whatever reads, never contradict: same rejection or same update id |
| TransferOutcome.UnknownExactly | packages/facilitator/src/canton/transfer-factory.ts:431-488 | unknown exactly when nothing was read of the submission or it committed with a blank update id |
| TransferOutcome.ExecuteAndResolveAgree | packages/facilitator/src/canton/transfer-factory.ts:431-488 | the live path, whether the post or the polls gave the update id, and any later resolve tell the same story |
| TransferOutcome.BlankUpdateId | packages/facilitator/src/canton/transfer-factory.ts:471-475 | the two differ exactly on a commit with a blank update id |
| FlightCache.TtlSingleFlightCache.Get | packages/ledger/src/scan.ts:266-293 | a hit comes from a load that finished less than the time to live ago; a load starts only when none is in flight; otherwise callers share it |
| FlightCache.TtlSingleFlightCache.LoadSucceeded | packages/ledger/src/scan.ts:275-282 | the result is cached from the moment the load finished |
| FlightCache.TtlSingleFlightCache.LoadFailed | packages/ledger/src/scan.ts:285-292 | a failed load changes nothing cached |
| KeyedCache.KeyedTtlSingleFlightCache.EvictIfFull | packages/ledger/src/scan.ts:344-354 | a full cache keeps exactly the keys used within a time to live if these are below the cap, and nothing otherwise; slots and stamps keep one key set |
| KeyedCache.KeyedTtlSingleFlightCache.Get | packages/ledger/src/scan.ts:321-330 | never more keys than the cap, at least one; a key with a slot is handed that slot's own value, fresh, or that slot's own load in flight, or starts one; a key without a slot starts its own, and the other keys keep theirs exactly as room had to be made |
| PayoutLine.OneAtATime | packages/facilitator/src/canton/faucet.ts:130-148 | in every interleaving at most one payout is under way, all before it are over, all after it wait, none is tried more than twice |
| JsonScan.CompleteArrayElements | packages/ledger/src/client.ts:244-276 | the loop is the scan that the results below are about |
| JsonScan.CutOnlyShortens | packages/ledger/src/client.ts:244-276 | on any input, the elements of a beginning of the text are a beginning of the elements |
| JsonCut.WholeIsExact | packages/ledger/src/client.ts:240-243 | the elements whole at a cut are exactly those that end by it, with their exact text |
| JsonCut.CutAnywhere | packages/ledger/src/client.ts:244-276 | for every printed array of objects and arrays, cut at any character, the scan returns exactly the elements whole by then |
| Inputs.SelectInputs | packages/facilitator/src/canton/faucet.ts:228-274 | the loop takes the chosen beginning of the sorted holdings, or refuses |
| Inputs.SortedIsPermutation | packages/facilitator/src/canton/faucet.ts:256-257 | the sort is a permutation, largest first |
| Inputs.SelectionIsLeast | packages/facilitator/src/canton/faucet.ts:259-273 | the selection covers amount and margin, or is everything; no smaller choice of usable holdings covers amount and margin |
| Inputs.RefusedExactly | packages/facilitator/src/canton/faucet.ts:267-272 | refused exactly when no holding is usable or all together do not cover the amount |

## Left out

- HTTP routes, start-up, configuration, metrics, token caching and the SQL reports around them: no hard property of their own.
- Signatures, hashing, gzip and base64: library code; the model starts from decoded bytes.
- The other per-shape checks of prepared-transfer.ts from line 3062 on, except the decimal sum: they reuse the same graph check and party rule.
- Which error is thrown: a message that cannot be decoded and one that is not the expected transfer are both an `Err`.
- The floating-point value of a varint field, which nothing reads; tags and lengths are exact.
- Groups, wire types 3 and 4, in the reference reader: it refuses them as the code does, so agreement says nothing about a reader that skips them.
- Encoded messages of 2^32 bytes and more: every round trip asks that lengths fit a 32-bit varint, as the reader does.
- DamlValue.AssertSingleValueMember: unit, bool, date, contract id and enum members are not counted by the code, so nothing is claimed about two of those.
- What a refused rewards sum throws, and which amounts with white space inside them it refuses: the results speak of amounts it accepts.
- compareLedgerDecimals and the scheme wrappers in amount.ts: one more comparison of the same values.
- Radix-prefixed literals of JavaScript's BigInt in the rewards sum: an amount written in hexadecimal is outside the model.
- JavaScript numbers: faucet amounts, holdings and the breaker's failure rate are exact here, so floating-point rounding of those is not modelled.
- A window of zero or negative length in the limiter and the breaker, and negative faucet amounts: no configuration of either makes sense.
- The penalty box of rate-limit.ts and the reason a refused Postgres claim is given, which is read outside the transaction.
- tryReserve, which enforces no budget and is not on the money path, and markPaid, which touches no guarded column.
- Back-off delays, jitter, abort timers and the order in which waiting promises resume; a read that is cut short is a read of a beginning.
- Windows.Prune and the limiter's buckets are sequences in fields: updating an array in place, and sharing one array between the map and a local, is not modelled.
- Sweep, eviction and database errors in the runs of one settle row; the class methods say what sweep and eviction do to each row.
- JsonText: characters are Unicode scalar values instead of UTF-16 units, and scalars and strings are wider than the grammar, which only adds texts.
