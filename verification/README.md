# Verified models of the projects in this repository

A Dafny model of the parts of this repository where a mistake would be silent: the multi-party
computation of project 01, the bond ledger of project 03, the settlement pipeline of project 04, the
Base58 and wire formats of projects 01, 02 and 06, and four smaller algorithms with a simple
specification. `dafny verify dfyconfig.toml` checks all of it.

Code that works step by step is modelled as classes and methods with loops, each proved against a
function of its inputs or of the old state; the results about that function are lemmas. A protocol or a
set of concurrent transactions is a state machine over single steps.

## How it is laid out

- **Multi-party computation** (`Arithmetic`, `Radix`, `Field`, `Sharing`, `Operations`, `Worker`,
  `Lockstep`, `Coordinator`, `Cluster`, `Sessions`, `Progress`, `Completion`, `Uneven`). `Worker.Compute` is the node's loop,
  proved equal to a machine that moves once per round. `Lockstep` runs all machines together and proves
  what the shares stand for. `Cluster` is the distributed system: one step is a send, a delivery (of any
  message ever sent, any number of times, in any order), a gather, a timeout, a submission or the
  coordinator's decision, so nodes may run rounds ahead and messages may be lost. `Sessions` puts the
  three together; `Progress` and `Completion` are about runs without faults, of the nodes and of whole
  sessions; `Uneven` is about nodes that were not dealt alike.
- **Wire format of project 01** (`Options`, `TaskParts`, `Wire`, `Messages`, `Codec`, `Delivery`,
  `Execution`). The varints, tags and length-delimited fields are those of the Protocol Buffers encoding
  guide, sections "Base 128 Varints" and "Message Structure". `Execution` goes from the clients' inputs
  over the wire to the answer.
- **Settlements of project 04** (`Settlements`, `PurchaseEvents`). Transactions are named by the last
  statement they completed; a statement that needs a locked row or key is not enabled until it is free.
  The tables' unique key on purchase and the balance's net column are taken from how the code uses them.
- **Bond ledger of project 03** (`Calendar`, `Bonds`, `BondHoldings`, `BondLedger`, `BondConservation`,
  `BondEffects`, `BondReplay`, `BondCoupons`, `BondRuns`, `BondService`, `Accrual`). `Bonds` gives each
  operation as a function of all tables, `BondEffects` says row by row what it changes, `BondService` is
  the same as a class whose methods work statement by statement, and the other modules prove what every
  serial run keeps.
- **Base58** (`Base58`), as in draft-msporny-base58, sections 3 and 4, and the **Solana parser**
  (`SolanaParser`, `TransactionReader`).
- **Token bucket** (`TokenBucket`), **VPIN** (`Vpin`), **Gini coefficient** (`Gini`), **keyset pager**
  (`Pager`).

## What a reader should know

- The comparison and the maximum are only right within half the field. `Lockstep.GreaterBitExact` gives the
  exact condition for two inputs, `Lockstep.FoldSelectExact` for any number in a given order and
  `Lockstep.MaxExactly` for all orders; the session results carry it over. The project's own README
  states them without one.
- A max session with more inputs than parties plus one aborts on every node, because the number of
  triples depends on the parties (`Lockstep.LockMaxExhausts`).
- An average is divided by the number of parties, not of inputs, as that README says.
- The encoders skip a sub-message that encodes to no bytes. A node whose share of slot 0 is zero therefore
  reads every later slot as the one before it. `Delivery.DeliveredAsDealt` says exactly when a node decodes
  what was dealt, and `Execution` what each operation does when it does not: sums and averages do not
  notice, comparisons do not complete, and neither do maxima unless all nodes lose the same slot
  (`Execution.SumOverTheWire`, `Execution.ComparisonOverTheWire`, `Execution.MaxOverTheWire`).
- A confirmed purchase whose publish fails is never settled (`PurchaseEvents.LosePublishLoses`,
  `PurchaseEvents.LostForGood`); `PurchaseEvents.SettleableExactly` says exactly which can be, and
  `PurchaseEvents.LosingRunLoses` gives the run that loses one.
- The republished row and the API's request use different JSON keys for the purchase id. That is what
  stops the promo worker from answering its own events.
- The token bucket's bound needs a clock that does not step back, not even by a second
  (`TokenBucket.SteppingBackOverAdmits`, `TokenBucket.BoundedExactly`).
- The Solana parser resolves account indices against the static keys only, so it refuses every versioned
  transaction whose instructions use an account from a lookup table (`SolanaParser.ParsedUnlessLookedUp`,
  `SolanaParser.LegalButRefused`).
- The wallet pager asks for pages of a thousand and gets pages of fifty (`Pager.FetchWallet`).

## Model

| member | source | states |
|---|---|---|
| Field.ReduceElement | projects/01-mpc-cluster/internal/protocol/field.go:27-37 | an element is its own residue, so reducing twice changes nothing |
| Field.FromBytesBytes | projects/01-mpc-cluster/internal/protocol/field.go:51-53 | reading back the shortest big-endian bytes of any field element gives the element |
| Field.BytesLength | projects/01-mpc-cluster/internal/protocol/field.go:106-111 | an element below 256^k is written in at most k bytes |
| Sharing.AdditiveShare | projects/01-mpc-cluster/internal/protocol/sharing.go:9-25 | refuses fewer than two parties; otherwise party j gets the element drawn for it, for all but the last, and the n shares add up to the secret modulo P |
| Sharing.AdditiveRecombine | projects/01-mpc-cluster/internal/protocol/sharing.go:27-33 | the loop computes the residue of the sum of the shares |
| Sharing.OneShareHidesTheSecret | projects/01-mpc-cluster/internal/protocol/sharing.go:9-25 | given all shares but one, every secret is completed by exactly one value of the missing share |
| Sharing.OneDrawForEveryView | projects/01-mpc-cluster/internal/protocol/sharing.go:9-25 | whichever party is left out, for every secret exactly one draw deals the other parties any given n - 1 shares |
| Sharing.DealTriple | projects/01-mpc-cluster/internal/protocol/beaver.go:17-47 | a, b and their product are each dealt with the elements drawn for them |
| Sharing.BeaverMultiplies | projects/01-mpc-cluster/internal/protocol/beaver.go:49-63 | with x - a and y - b opened, the finalized shares of all parties add up to x * y |
| Operations.DecodePairEncodePair | projects/01-mpc-cluster/internal/protocol/operations.go:90-119 | decodePair inverts encodePair for all parts below 2^32 bytes |
| Operations.PairLayout | projects/01-mpc-cluster/internal/protocol/operations.go:90-101 | each part behind its length in four bytes, the most significant first |
| Operations.DecodePairExact | projects/01-mpc-cluster/internal/protocol/operations.go:102-119 | a byte string is read as a pair if and only if it starts with the encoding of that pair; everything else is malformed |
| Operations.PeerNetwork.NextRound | projects/01-mpc-cluster/internal/node/peer.go:53-55 | each call opens the next round number |
| Operations.AddAll | projects/01-mpc-cluster/internal/protocol/operations.go:72-75 | the loop over the gathered map opens the same value whatever the order of the senders |
| Operations.SecureCompare | projects/01-mpc-cluster/internal/protocol/operations.go:57-88 | one round: broadcasts the difference, returns the bit share of the opened value, or the error the environment caused |
| Operations.SecureMul | projects/01-mpc-cluster/internal/protocol/operations.go:31-55 | one round: broadcasts the masked pair, returns the share of the product; a malformed pair is an error |
| Worker.Compute | projects/01-mpc-cluster/internal/node/worker.go:122-171 | the loop of a node returns, and broadcasts, exactly what the round-by-round machine of the same module does, against every environment |
| Worker.CompareAndSelect | projects/01-mpc-cluster/internal/node/worker.go:150-165 | one turn of the max fold is two moves of the machine |
| Worker.SortBySlotKeepsOrder | projects/01-mpc-cluster/internal/node/worker.go:173-181 | shares that come in slot order are left in that order |
| Worker.SortBySlotSorts | projects/01-mpc-cluster/internal/node/worker.go:173-176 | whatever order the shares come in, they are put in the order of their slots and none is lost |
| Worker.UnsetBitLen | projects/01-mpc-cluster/internal/node/worker.go:128-131 | a task without a bit length runs as one with 32 |
| Lockstep.GreaterBitExact | projects/01-mpc-cluster/internal/protocol/operations.go:77-82 | the comparison bit is right if and only if -(P - P/2) <= x - y < P/2 |
| Lockstep.FoldSelectIsMax | projects/01-mpc-cluster/internal/node/worker.go:147-166 | the compare-and-select fold over inputs that are all less than half the field below their maximum is the maximum |
| Lockstep.FoldSelectExact | projects/01-mpc-cluster/internal/node/worker.go:147-166 | for any number of inputs in any order, exactly when the fold is the maximum: what it holds where the maximum last stands is at most the upper half of the field below it, and every later input less than the lower half |
| Lockstep.MaxExactly | projects/01-mpc-cluster/internal/node/worker.go:147-166 | the fold is right in every order of the inputs if and only if every input is less than half the field below the maximum |
| Lockstep.OpenedIsSecret | projects/01-mpc-cluster/internal/protocol/operations.go:72-75 | adding everybody else's value to one's own opens the residue of the sum of all shares |
| Lockstep.CompareRound | projects/01-mpc-cluster/internal/protocol/operations.go:57-88 | in a comparison round all nodes learn the same bit of the secret difference and only node 0 keeps it |
| Lockstep.ProductSecret | projects/01-mpc-cluster/internal/protocol/beaver.go:49-63 | opening the masked factors and finalizing leaves shares of the product of the secrets |
| Lockstep.SelectSecret | projects/01-mpc-cluster/internal/node/worker.go:158-164 | after a selection the running shares stand for the larger of the two secrets, by the comparison bit |
| Lockstep.LockMaxFinishes | projects/01-mpc-cluster/internal/node/worker.go:147-166 | with a triple per comparison the fold ends after 2(k-1) rounds in shares of the fold over all k secrets |
| Lockstep.TriplesUsedInTurn | projects/01-mpc-cluster/internal/node/worker.go:155-163 | round 2i+1 of a maximum uses triple i and the even rounds none, so triples 0..k-2 are used once each |
| Lockstep.LockMaxExhausts | projects/01-mpc-cluster/internal/node/worker.go:155-157 | with one input more than that every node gives up after its last triple |
| Lockstep.LockComparisonFinishes | projects/01-mpc-cluster/internal/node/worker.go:141-145 | a comparison ends after one round and the bit shares add up to the bit |
| Lockstep.LockSumFinishes | projects/01-mpc-cluster/internal/node/worker.go:134-139 | adding rows of shares gives shares of the sum of the secrets |
| Coordinator.UsableInputsAre | projects/01-mpc-cluster/internal/session/manager.go:324-341 | the usable inputs are those with exactly the slots 0 to k - 1, all readable, k positive and two for a comparison |
| Coordinator.ShareInputs | projects/01-mpc-cluster/internal/session/manager.go:324-349 | succeeds exactly on the usable inputs and then deals every input with the elements drawn for it |
| Coordinator.BuildTriples | projects/01-mpc-cluster/internal/session/manager.go:351-366 | deals a triple per party for a maximum, two for a comparison and none else, each from its own draw |
| Coordinator.ParseNodeTask | projects/01-mpc-cluster/internal/node/worker.go:173-193 | a node parses its own row of the dealt shares and triples |
| Coordinator.DealtIsValid | projects/01-mpc-cluster/internal/session/manager.go:219-239 | what the nodes hold together are the inputs and valid triples |
| Coordinator.ResultCollector.Add | projects/01-mpc-cluster/internal/session/manager.go:49-66 | a closed collector ignores results; an error closes it as failed; the last missing share closes it |
| Coordinator.Recombine | projects/01-mpc-cluster/internal/session/manager.go:368-392 | fails while a share is missing, else returns the residue of the sum, divided by the party count for an average |
| Cluster.Buffer.Put | projects/01-mpc-cluster/internal/node/grpc_server.go:25-33 | stores under (round, sender): the round gains or overwrites that one entry and every other round is as before |
| Cluster.ArrivalOrder | projects/01-mpc-cluster/internal/node/grpc_server.go:25-33 | a duplicate overwrites itself, and messages may arrive in either order with the same result |
| Cluster.Buffer.Poll | projects/01-mpc-cluster/internal/node/grpc_server.go:51-55 | returns the whole round once enough senders are there |
| Cluster.GatherSeesEverybody | projects/01-mpc-cluster/internal/node/peer.go:79-89 | in every reachable state a node that passes Gather of round r has exactly the round-r broadcasts of all the other nodes |
| Cluster.RunGathersEverybody | projects/01-mpc-cluster/internal/node/grpc_server.go:25-58 | the same over every run |
| Cluster.RunOpensAllShares | projects/01-mpc-cluster/internal/protocol/operations.go:57-88 | in every run a node that leaves a comparison round opens exactly the residue of the sum of all n values broadcast in that round |
| Cluster.RunOpensAllPairs | projects/01-mpc-cluster/internal/protocol/operations.go:31-55 | and after a multiplication round exactly the residues of the two sums |
| Cluster.LockUniform | projects/01-mpc-cluster/internal/node/worker.go:122-171 | in lockstep all nodes start and stop together |
| Cluster.RunInv | projects/01-mpc-cluster/internal/node/grpc_server.go:25-58 | the invariant of every interleaving of sends, deliveries, repeats, losses, timeouts and nodes running ahead |
| Cluster.RunIsSafe | projects/01-mpc-cluster/internal/session/manager.go:252-278 | in every run the session is undecided, failed, or returns the value of the sequential protocol |
| Cluster.AnythingMayFail | projects/01-mpc-cluster/internal/node/peer.go:57-89 | what may always happen: a sent message arrives, again or late; a computing node gives up; an undecided session fails |
| Sessions.SessionResult | projects/01-mpc-cluster/internal/session/manager.go:189-279 | a session that completes returns what recombining the lockstep result gives |
| Sessions.MaxSession | projects/01-mpc-cluster/internal/session/manager.go:189-279 | a completed max session returns the fold over its inputs, with the exact condition for that to be their maximum; inputs less than half the field below it, as all inputs in [0, P/2) are, suffice; none with more than n + 1 inputs completes |
| Sessions.SumSession | projects/01-mpc-cluster/internal/session/manager.go:368-392 | a completed sum session returns the sum of the inputs modulo P |
| Sessions.AverageSession | projects/01-mpc-cluster/internal/session/manager.go:368-392 | a completed average session returns that sum divided by the number of parties |
| Sessions.ComparisonSession | projects/01-mpc-cluster/internal/session/manager.go:368-392 | a completed comparison returns 1 exactly for a larger first input, if and only if the inputs are less than half the field apart |
| Progress.ProductiveWorks | projects/01-mpc-cluster/internal/node/peer.go:57-89 | every productive step without faults strictly reduces the work left |
| Progress.FaultFreeRunIsFinite | projects/01-mpc-cluster/internal/node/worker.go:122-171 | a run of productive steps is no longer than the work at its start |
| Progress.NeverStuck | projects/01-mpc-cluster/internal/node/peer.go:79-89 | without faults some productive step is possible while any node is busy |
| Progress.FinishedTogether | projects/01-mpc-cluster/internal/node/worker.go:122-171 | when none is, every node has finished the same rounds |
| Completion.FaultFreeWorks | projects/01-mpc-cluster/internal/session/manager.go:252-278 | every step of a session without faults, reports and decision included, uses up some of what is left to do |
| Completion.SessionGoesOn | projects/01-mpc-cluster/internal/session/manager.go:252-278 | until every node has stopped and the session is decided some such step is possible |
| Completion.EndIsDecided | projects/01-mpc-cluster/internal/session/manager.go:252-278 | where none is, every node has played all its rounds and the session is decided by the sequential result |
| Completion.SessionEnds | projects/01-mpc-cluster/internal/session/manager.go:252-278 | a run without faults has a bounded length, and one that goes on as long as it can ends so decided |
| Completion.EndingIsResult | projects/01-mpc-cluster/internal/session/manager.go:368-392 | the sequential result of each operation on the inputs, and for which numbers of inputs there is none |
| Completion.SessionAnswers | projects/01-mpc-cluster/internal/session/manager.go:189-279 | every such run of a dealt session ends completed with the result of its operation, or failed where there is none |
| Completion.SessionExists | projects/01-mpc-cluster/internal/session/manager.go:189-279 | and there is one for every deal |
| Completion.MaxCompletes | projects/01-mpc-cluster/internal/node/worker.go:147-166 | a maximum of k <= n + 1 inputs completes with the fold, which is the maximum for close inputs, every node finishing after exactly 2(k-1) rounds; with more inputs it fails |
| Uneven.FullRound | projects/01-mpc-cluster/internal/node/peer.go:79-89 | whatever the tasks, a node leaves a round only when every other node plays it |
| Uneven.CompletedIsEven | projects/01-mpc-cluster/internal/node/worker.go:147-166 | whatever the tasks, a maximum completes only if all nodes hold equally many shares, and triples enough for them |
| Uneven.MuteNeverCompletes | projects/01-mpc-cluster/internal/session/manager.go:368-381 | a session with a node that cannot start never completes |
| Uneven.AlikeRuns | projects/01-mpc-cluster/internal/node/worker.go:134-145 | nodes that start alike and compare the same shares have the same runs, whatever else their tasks hold |
| Wire.VarintInverts | projects/01-mpc-cluster/internal/grpc/proto.go:682-688 | every 64-bit value survives varint encoding, whatever bytes follow |
| Wire.VarintLayout | projects/01-mpc-cluster/internal/grpc/proto.go:682-688 | seven bits a byte, the lowest first, the top bit on all bytes but the last, and no byte wasted |
| Wire.VarintReads | projects/01-mpc-cluster/internal/grpc/proto.go:214-229 | what is read as a varint is a 64-bit number in at most ten bytes, by its groups |
| Wire.TagReads | projects/01-mpc-cluster/internal/grpc/proto.go:347-352 | a tag is any varint whose field number is between 1 and 2^31 - 1 |
| Wire.BytesRead | projects/01-mpc-cluster/internal/grpc/proto.go:354-367 | bytes are read exactly when as many as their length says are there |
| Wire.Int32Survives | projects/01-mpc-cluster/internal/grpc/proto.go:214-229 | int32 survives the detour through uint32 for all values, negative ones included |
| Wire.TwosComplement | projects/01-mpc-cluster/internal/grpc/proto.go:214-229 | a negative number travels as itself plus 2^32, and any value is read modulo 2^32 |
| Wire.FieldInverts | projects/01-mpc-cluster/internal/grpc/proto.go:666-696 | a field that was appended is the field read back |
| Wire.FieldsInvert | projects/01-mpc-cluster/internal/grpc/proto.go:347-439 | a decoding loop stores exactly the encoded fields in order |
| Wire.UnknownFieldsAreSkipped | projects/01-mpc-cluster/internal/grpc/proto.go:430-436 | a field with an unknown number changes nothing |
| Wire.FixedFieldsAreSkipped | projects/01-mpc-cluster/internal/grpc/proto.go:430-436 | so does one of fixed width |
| Wire.GuideExamples | projects/01-mpc-cluster/internal/grpc/proto.go:666-688 | the examples of the encoding guide, byte by byte |
| Messages.PeerSurvives | projects/01-mpc-cluster/internal/grpc/proto.go:164-202 | peer entries round-trip |
| Messages.PeerVanishes | projects/01-mpc-cluster/internal/grpc/proto.go:164-169 | a peer encodes to no bytes exactly when it is all defaults |
| Messages.ShareSurvives | projects/01-mpc-cluster/internal/grpc/proto.go:209-247 | shares round-trip |
| Messages.TripleSurvives | projects/01-mpc-cluster/internal/grpc/proto.go:255-301 | triples round-trip |
| Messages.MsgSurvives | projects/01-mpc-cluster/internal/grpc/proto.go:511-565 | every round message arrives as it was sent |
| Messages.TaskSurvivesPruned | projects/01-mpc-cluster/internal/grpc/proto.go:315-439 | decoding an encoded Task gives it back without its all-default sub-messages |
| Messages.TaskSurvives | projects/01-mpc-cluster/internal/grpc/proto.go:315-439 | it comes back unchanged if and only if no peer, share or triple in it is all defaults |
| Messages.PeerLayout | projects/01-mpc-cluster/internal/grpc/proto.go:164-169 | the bytes of a peer: id behind 0x08, address behind 0x12, defaults left out |
| Messages.ShareLayout | projects/01-mpc-cluster/internal/grpc/proto.go:209-214 | the bytes of a share: slot behind 0x08, value behind 0x12 |
| Messages.TripleLayout | projects/01-mpc-cluster/internal/grpc/proto.go:255-261 | the bytes of a triple: A, B and C behind 0x0a, 0x12 and 0x1a |
| Messages.MsgLayout | projects/01-mpc-cluster/internal/grpc/proto.go:511-518 | the bytes of a round message |
| Messages.TaskLayout | projects/01-mpc-cluster/internal/grpc/proto.go:315-345 | the bytes of a task, its lists in the order peers, shares, triples |
| Messages.KnownNumbers | projects/01-mpc-cluster/internal/grpc/proto.go:347-439 | which field numbers each decoder knows and what value it expects there |
| Codec.AppendBytesField | projects/01-mpc-cluster/internal/grpc/proto.go:674-680 | the append helper adds the encoding of one field, or nothing for the default |
| Codec.MarshalTask | projects/01-mpc-cluster/internal/grpc/proto.go:315-345 | the appending encoder produces the specified bytes |
| Codec.UnmarshalTask | projects/01-mpc-cluster/internal/grpc/proto.go:347-439 | the decoding loop computes the specified decoder, errors included |
| Codec.MarshalMsg | projects/01-mpc-cluster/internal/grpc/proto.go:511-518 | the same for round messages |
| Codec.UnmarshalMsg | projects/01-mpc-cluster/internal/grpc/proto.go:520-565 | the same for round messages |
| Delivery.DeliveredAsDealt | projects/01-mpc-cluster/internal/session/manager.go:219-239 | a node decodes exactly what was dealt to it if and only if its share of slot 0 is not zero, none of its triples is three zeros and no peer is all defaults |
| Delivery.DeliveredIsParsed | projects/01-mpc-cluster/internal/node/worker.go:173-193 | and then it parses the row the protocol results are about |
| Delivery.EnvelopeArrives | projects/01-mpc-cluster/internal/session/manager.go:219-239 | session, node, operation, party count, the bit length 64 and the peers that are not all defaults arrive in any case |
| Delivery.ZeroShareShiftsSlots | projects/01-mpc-cluster/internal/grpc/proto.go:330-336 | with a zero share of slot 0 every later slot is read as the one before it |
| Delivery.ZeroShareAbortsComparison | projects/01-mpc-cluster/internal/node/worker.go:141-144 | so a comparison is aborted by a node whose share of the first input is zero |
| Execution.ReadRow | projects/01-mpc-cluster/internal/node/worker.go:173-193 | what a node reads: its row without a leading zero, and all its triples exactly when none is three zeros |
| Execution.PromiseKept | projects/01-mpc-cluster/internal/session/manager.go:189-279 | as dealt, every run that completes has the result of the operation, runs without faults end so, and there is one |
| Execution.SumOverTheWire | projects/01-mpc-cluster/internal/node/worker.go:134-139 | over the wire a sum or an average keeps that promise unless its only input has a zero share; then it never completes |
| Execution.ComparisonOverTheWire | projects/01-mpc-cluster/internal/node/worker.go:141-145 | a comparison keeps it exactly when no share of the first input is zero; else it never completes |
| Execution.MaxOverTheWire | projects/01-mpc-cluster/internal/node/worker.go:147-166 | a maximum never completes when some but not all shares of slot 0 are zero or too few triples arrive, and keeps the promise when everything arrives |
| Execution.ZeroInputIsDropped | projects/01-mpc-cluster/internal/node/worker.go:147-166 | with all shares of slot 0 zero it is the maximum of the other inputs |
| Execution.Execute | projects/01-mpc-cluster/internal/session/manager.go:189-279 | from the inputs and any draws: shared exactly when usable, and if all that is dealt arrives every run answers the operation on the inputs or fails, and fault-free ones answer |
| Settlements.SettleSums | projects/04-t-vygoda/internal/repo/cfa_repo.go:188-194 | closing a partner's open rows empties its open sums and leaves every other sum |
| Settlements.CreateKeepsTables | projects/04-t-vygoda/internal/repo/cfa_repo.go:36-58 | committing a settlement with its balance keeps both laws of the tables |
| Settlements.ReconcileKeepsTables | projects/04-t-vygoda/internal/repo/cfa_repo.go:177-216 | committing a reconciliation keeps them |
| Settlements.ConfirmKeepsTables | projects/04-t-vygoda/internal/repo/cfa_repo.go:219-231 | so does confirming a row |
| Settlements.LocksProtect | projects/04-t-vygoda/internal/repo/cfa_repo.go:62-81 | a transaction between its statements depends only on rows and keys it has locked |
| Settlements.StepInv | projects/04-t-vygoda/internal/repo/cfa_repo.go:29-231 | every statement of every transaction keeps the invariant |
| Settlements.EveryRunBalances | projects/04-t-vygoda/internal/repo/cfa_repo.go:29-231 | under every statement-level interleaving each committed balance is the sum of the open settlements, reconciled plus open net is the signed sum of all, reconciled is what the settled rows add up to, and no purchase has two settlements |
| Settlements.NoDeadlock | projects/04-t-vygoda/internal/repo/cfa_repo.go:29-217 | while any transaction runs, some transaction can complete its next statement |
| Settlements.CfaRepo.CreateSettlement | projects/04-t-vygoda/internal/repo/cfa_repo.go:29-60 | a duplicate purchase changes nothing; otherwise one created row is appended and the side that owes grows by the amount |
| Settlements.CfaRepo.UpsertBalance | projects/04-t-vygoda/internal/repo/cfa_repo.go:62-81 | adds the amount to the side of one balance that owes, from nothing where there was no row |
| Settlements.CfaRepo.Reconcile | projects/04-t-vygoda/internal/repo/cfa_repo.go:170-217 | settles the partner's rows, zeroes its balance and records what the bank owed less what the partner owed; without a balance nothing |
| Settlements.CfaRepo.ConfirmSettlement | projects/04-t-vygoda/internal/repo/cfa_repo.go:219-231 | a created row becomes confirmed, its other columns and every other row stay; any other row is not found |
| Settlements.ConfirmAgain | projects/04-t-vygoda/internal/repo/cfa_repo.go:219-231 | a second confirmation finds nothing |
| Settlements.ConfirmMarksOne | projects/04-t-vygoda/internal/repo/cfa_repo.go:219-231 | a committed confirmation marks one row and leaves the tables otherwise alone |
| Settlements.StatementsAdvance | projects/04-t-vygoda/internal/repo/cfa_repo.go:29-217 | every statement takes one transaction a stage further or ends it, touches no other, and only commits change the tables |
| Settlements.EndsWithoutTrace | projects/04-t-vygoda/internal/repo/cfa_repo.go:36-52 | a duplicate, a missing balance and a rollback leave no trace |
| Settlements.SerialReconcile | projects/04-t-vygoda/internal/repo/cfa_repo.go:170-217 | undisturbed, the statements add up to the repository's reconciliation |
| Settlements.MarkedSettled | projects/04-t-vygoda/internal/repo/cfa_repo.go:188-194 | the update closes exactly the partner's created and confirmed rows |
| Settlements.SerialCreate | projects/04-t-vygoda/internal/repo/cfa_repo.go:29-60 | undisturbed, the statements of CreateSettlement add up to the repository call |
| PurchaseEvents.RowIsSilentForPromo | projects/04-t-vygoda/internal/workers/promo_handler.go:85-114 | a republished row carries no purchase_id, so handling it does nothing |
| PurchaseEvents.RequestIsSilentForCfa | projects/04-t-vygoda/internal/workers/cfa_handler.go:35-44 | an API request carries no status, so it books nothing |
| PurchaseEvents.DirectSteps | projects/04-t-vygoda/internal/repo/purchase_repo.go:75-86 | what the steps outside the two workers do, and that they touch nothing else |
| PurchaseEvents.PromoConfirms | projects/04-t-vygoda/internal/workers/promo_handler.go:85-114 | a handling that does anything answers a request for a pending purchase, stores amount times percentage and republishes that row |
| PurchaseEvents.EveryRunBooksOnce | projects/04-t-vygoda/internal/workers/cfa_handler.go:35-59 | under any delivery, repetition and order each purchase has at most one settlement, only if confirmed, for its own partner and exactly its stored commission; its row is republished at most once |
| PurchaseEvents.RedeliveryIsSilent | projects/04-t-vygoda/internal/workers/promo_handler.go:96-103 | handling the same event again changes nothing |
| PurchaseEvents.DeliveredIsBooked | projects/04-t-vygoda/internal/workers/cfa_handler.go:42-58 | one delivery of a confirmed row with a positive commission leaves it settled |
| PurchaseEvents.LosePublishLoses | projects/04-t-vygoda/internal/workers/promo_handler.go:105-111 | in every reachable state a failed publish loses the settlement of the purchase it was for |
| PurchaseEvents.LostStaysLost | projects/04-t-vygoda/internal/workers/promo_handler.go:96-111 | no step, redelivery included, brings a lost settlement back |
| PurchaseEvents.LostForGood | projects/04-t-vygoda/internal/workers/promo_handler.go:96-111 | nor does any continuation of the run |
| PurchaseEvents.SettleableExactly | projects/04-t-vygoda/internal/workers/promo_handler.go:105-111 | a confirmed purchase of a reachable state is settled in some continuation if and only if it has a positive commission and its row was republished or waits to be |
| PurchaseEvents.LosingRunLoses | projects/04-t-vygoda/internal/workers/promo_handler.go:85-114 | every purchase has a run that loses it: created, requested, confirmed, and not published |
| PurchaseEvents.LoopUsesUpAPurchase | projects/04-t-vygoda/internal/workers/promo_handler.go:85-114 | each non-silent handling uses up one pending purchase |
| PurchaseEvents.FeedbackStops | projects/04-t-vygoda/internal/workers/promo_handler.go:85-114 | over a run the worker reacts to its own topic at most as often as purchases were created |
| PurchaseEvents.Workers.Confirm | projects/04-t-vygoda/internal/repo/purchase_repo.go:55-73 | confirms a row only while it is pending |
| PurchaseEvents.Workers.Cancel | projects/04-t-vygoda/internal/repo/purchase_repo.go:75-86 | cancels a row only while it is pending |
| PurchaseEvents.Workers.HandlePromo | projects/04-t-vygoda/internal/workers/promo_handler.go:30-114 | the handler makes the specified move; it fails exactly for an unknown partner or a failed publish, which keeps the confirmation and loses the event |
| PurchaseEvents.Workers.HandleCfa | projects/04-t-vygoda/internal/workers/cfa_handler.go:30-73 | the handler makes the specified move on the settlement tables |
| Calendar.BeforeIsEarlier | projects/03-cfa-bonds/internal/api/handlers_issues.go:112 | comparing month and day is comparing points in time |
| Calendar.AddMonthsDayNumber | projects/03-cfa-bonds/internal/api/handlers_issues.go:112 | adding months lands on the requested day counted from the first of the requested month, and later |
| Calendar.FirstOfMonth | projects/03-cfa-bonds/internal/api/handlers_issues.go:112 | the calendar is the Gregorian one |
| Calendar.CouponDatesProperties | projects/03-cfa-bonds/internal/api/handlers_issues.go:107-132 | a schedule is not empty, strictly increasing, after issue and not after maturity, one period apart, and no further period fits |
| Calendar.CouponMonths | projects/03-cfa-bonds/internal/api/handlers_issues.go:109-125 | issued on a day up to 28, coupon k falls on that day in the month 12 * k / frequency months later, for as long as that is not after maturity |
| Calendar.WholeYears | projects/03-cfa-bonds/internal/api/handlers_issues.go:109-125 | over y whole years there are exactly frequency * y coupons, the last at maturity |
| Calendar.BuildDates | projects/03-cfa-bonds/internal/api/handlers_issues.go:112-130 | the loop builds the schedule those are about |
| Bonds.DueHasNext | projects/03-cfa-bonds/internal/repo/coupon_repo.go:54-71 | when any coupon is due the earliest unpaid one is |
| BondHoldings.HoldersHoldAll | projects/03-cfa-bonds/internal/repo/position_repo.go:82-102 | however the holders are enumerated they hold what everybody holds, and nothing is held after zeroing |
| BondHoldings.AverageBetween | projects/03-cfa-bonds/internal/repo/position_repo.go:124-128 | an average price lies between the old average and the price paid |
| BondHoldings.FirstPurchase | projects/03-cfa-bonds/internal/repo/position_repo.go:117-128 | a purchase into an empty or missing position averages to its own price |
| BondLedger.NextWellFormed | projects/03-cfa-bonds/internal/settlement/engine.go:93-143 | every operation keeps balances and quantities non-negative and placed within total |
| BondEffects.CouponNearest | projects/03-cfa-bonds/internal/coupon/service.go:92 | a coupon is the rounded quotient of nominal times rate by frequency, in whole units of the sixth decimal place |
| BondEffects.AverageNearest | projects/03-cfa-bonds/internal/repo/position_repo.go:127 | an average price is the rounded quotient of cost by quantity |
| BondEffects.DepositEffects | projects/03-cfa-bonds/internal/api/handlers_investors.go:58-96 | a positive deposit raises one balance by its amount, is logged and changes nothing else; any other changes nothing |
| BondEffects.NewIssueEffects | projects/03-cfa-bonds/internal/api/handlers_issues.go:27-132 | valid terms append a draft and its schedule of unpaid coupons of one amount; others change nothing |
| BondEffects.StatusEffects | projects/03-cfa-bonds/internal/models/bond_issue.go:35-50 | the five edges along which a status moves, and that nothing else changes |
| BondEffects.PlaceEffects | projects/03-cfa-bonds/internal/api/handlers_placement.go:21-142 | exactly when a placement succeeds; the buyer pays quantity times price, the position and the placed quantity grow, the last unit activates the issue |
| BondEffects.NewTradeEffects | projects/03-cfa-bonds/internal/api/handlers_trades.go:22-89 | a valid trade is appended as submitted; any other changes nothing |
| BondEffects.TradeEffects | projects/03-cfa-bonds/internal/settlement/engine.go:68-214 | exactly when a submitted trade settles: then buyer to seller move quantity times (price plus accrued interest per unit), the quantity moves back, the row holds the total; otherwise it fails and moves nothing |
| BondEffects.CouponEffects | projects/03-cfa-bonds/internal/coupon/service.go:82-138 | a due coupon pays every holder the coupon for each unit held, marks the earliest unpaid coupon and changes nothing else |
| BondEffects.RedeemEffects | projects/03-cfa-bonds/internal/maturity/service.go:75-133 | redemption pays every holder the nominal for each unit held, empties the positions of the issue and marks it matured |
| BondEffects.RedeemWrites | projects/03-cfa-bonds/internal/maturity/service.go:99-133 | and writes one event for each holder and one for the issue |
| BondConservation.PlaceQuantities | projects/03-cfa-bonds/internal/api/handlers_placement.go:75-98 | a placement raises positions and placed quantity alike |
| BondConservation.SettleQuantities | projects/03-cfa-bonds/internal/repo/position_repo.go:104-133 | a trade moves quantity and creates none |
| BondConservation.RedeemQuantities | projects/03-cfa-bonds/internal/maturity/service.go:75-118 | a redemption pays nominal times placed and leaves nothing held |
| BondConservation.NextQuantities | projects/03-cfa-bonds/internal/maturity/service.go:75-133 | every operation keeps the law of quantities |
| BondReplay.TradeConservesCash | projects/03-cfa-bonds/internal/settlement/engine.go:136-141 | settling a trade leaves the sum of all balances unchanged |
| BondReplay.RedeemHoldersReplay | projects/03-cfa-bonds/internal/maturity/service.go:87-110 | while holders are redeemed one by one the log already shows their positions gone |
| BondReplay.NextReplays | projects/03-cfa-bonds/internal/settlement/engine.go:133-163 | every operation keeps the log equal to the books |
| BondRuns.EveryRunIsItsLog | projects/03-cfa-bonds/internal/settlement/engine.go:133-163 | after every serial run replaying the log from empty tables gives every balance and every position |
| BondRuns.EveryRunConservesQuantities | projects/03-cfa-bonds/internal/repo/issue_repo.go:118-132 | after every serial run an issue's positions add up to placed <= total until it is redeemed and to zero after, it is redeemed at most once, for nominal times placed in total |
| BondRuns.TradesAreDecidedOnce | projects/03-cfa-bonds/internal/settlement/engine.go:79-82 | a decided trade stays as it is and processing it again does nothing |
| BondRuns.StatusFollowsTable | projects/03-cfa-bonds/internal/models/bond_issue.go:35-50 | whatever is done, an issue's status moves along the transition table |
| BondRuns.StatusNeverGoesBack | projects/03-cfa-bonds/internal/models/bond_issue.go:35-50 | over a run it never goes back, and an ended issue stays ended |
| BondCoupons.PayCouponPays | projects/03-cfa-bonds/internal/coupon/service.go:82-138 | paying marks the first unpaid coupon, whose date has come, and pays its amount for every placed unit |
| BondCoupons.EveryRunPaysCouponsInOrder | projects/03-cfa-bonds/internal/repo/coupon_repo.go:54-88 | after every serial run a date-ordered prefix is paid, each coupon once, in total amount times placed quantity, and nothing for any other |
| BondCoupons.NoCouponIsEarly | projects/03-cfa-bonds/internal/repo/issue_repo.go:134-149 | the step that paid a coupon was run for its date or a later one |
| BondService.Ledger.UpdateBalance | projects/03-cfa-bonds/internal/repo/investor_repo.go:72-83 | adds to one balance and to no other |
| BondService.Ledger.Buy | projects/03-cfa-bonds/internal/repo/position_repo.go:117-131 | averages a purchase into the position |
| BondService.Ledger.Transfer | projects/03-cfa-bonds/internal/repo/position_repo.go:104-133 | moves a quantity or, if the seller holds too little, nothing |
| BondService.Ledger.GetByIssue | projects/03-cfa-bonds/internal/repo/position_repo.go:82-102 | lists every holder with a positive quantity once |
| BondService.Ledger.IncrementPlaced | projects/03-cfa-bonds/internal/repo/issue_repo.go:118-132 | raises the placed quantity only within the total |
| BondService.Ledger.CreateIssue | projects/03-cfa-bonds/internal/api/handlers_issues.go:27-105 | refuses invalid terms, else adds the draft issue and its schedule |
| BondService.Ledger.UpdateIssueStatus | projects/03-cfa-bonds/internal/api/handlers_issues.go:168-200 | moves the status exactly along the transition table |
| BondService.Ledger.Deposit | projects/03-cfa-bonds/internal/api/handlers_investors.go:58-96 | succeeds exactly for a positive amount and an existing investor, whose balance grows by it |
| BondService.Ledger.PlaceIssue | projects/03-cfa-bonds/internal/api/handlers_placement.go:21-142 | succeeds exactly when the specified conditions hold and then makes the whole specified move |
| BondService.Ledger.Settle | projects/03-cfa-bonds/internal/settlement/engine.go:93-175 | succeeds exactly when the specified conditions hold; then the buyer pays the seller quantity times price plus accrued interest, and the rest of the move is made |
| BondService.Ledger.ProcessTrade | projects/03-cfa-bonds/internal/settlement/engine.go:68-91 | settles or fails a submitted trade, ignores any other |
| BondService.Ledger.ProcessIssue | projects/03-cfa-bonds/internal/coupon/service.go:82-138 | pays one due coupon to all holders |
| BondService.Ledger.ProcessDueCoupons | projects/03-cfa-bonds/internal/coupon/service.go:59-80 | every issue with a due coupon gets exactly one paid, in the order of maturity |
| BondService.Ledger.RedeemIssue | projects/03-cfa-bonds/internal/maturity/service.go:75-137 | credits every holder, zeroes the positions, closes the issue |
| BondService.Ledger.ProcessMaturities | projects/03-cfa-bonds/internal/maturity/service.go:56-73 | every active issue past its maturity is redeemed, in the order of maturity, and none is left |
| Accrual.CalcAccruedInterest | projects/03-cfa-bonds/internal/settlement/accrued_interest.go:12-33 | errors exactly for an unusable frequency or an early settlement, else the interest of the days elapsed, at most a period |
| Accrual.AccruedIsRounded | projects/03-cfa-bonds/internal/settlement/accrued_interest.go:21-33 | coupon and fraction of the period are rounded at the sixteenth place and their product at the sixth, on a 365-day basis |
| Accrual.LastCouponDate | projects/03-cfa-bonds/internal/settlement/engine.go:216-229 | the latest coupon date that has come, or the issue date |
| Accrual.AccruedGrowsToTheCoupon | projects/03-cfa-bonds/internal/settlement/accrued_interest.go:21-37 | accrued interest starts at zero, never falls as days pass and ends at exactly the coupon amount |
| TokenBucket.Limiter.Allow | projects/03-cfa-bonds/internal/redis/ratelimit.go:9-36 | the script's whole effect |
| TokenBucket.ExpiryIsInvisible | projects/03-cfa-bonds/internal/redis/ratelimit.go:33-35 | the expiring bucket is, call for call, in the state of one that never expires |
| TokenBucket.AdmittedIffEveryWindowAllows | projects/03-cfa-bonds/internal/redis/ratelimit.go:24-31 | a request is admitted if and only if every window ending now stays within capacity plus refill |
| TokenBucket.EveryIntervalIsBounded | projects/03-cfa-bonds/internal/redis/ratelimit.go:9-36 | no interval of a run admits more than capacity plus refill over the interval |
| TokenBucket.SteppingBackOverAdmits | projects/03-cfa-bonds/internal/redis/ratelimit.go:24-25 | for every positive limit and every step back of the clock there is a run that admits more than the capacity within one second |
| TokenBucket.BoundedExactly | projects/03-cfa-bonds/internal/redis/ratelimit.go:9-36 | the bound holds for all runs that read a clock if and only if the limit is zero or the clock takes no step back |
| Base58.DecodeEncode | projects/02-wallet-scoring/internal/solana/base58.go:18-84 | decoding the encoding of every byte string gives it back, leading zeros included |
| Base58.EncodeDecode | projects/02-wallet-scoring/internal/solana/base58.go:18-84 | encoding the decoding of every text over the alphabet gives it back |
| Base58.EncodeMeans | projects/02-wallet-scoring/internal/solana/base58.go:18-84 | an encoding has a 1 for every leading zero byte and then, most significant digit first, the same number in base 58 |
| Base58.DraftVector | projects/02-wallet-scoring/internal/solana/base58.go:18-84 | a test vector of the draft |
| Base58.AlphabetCode | projects/02-wallet-scoring/internal/solana/base58.go:5-16 | the 58 characters are distinct and below 128 |
| Base58.InitTable | projects/02-wallet-scoring/internal/solana/base58.go:9-16 | the table inverts the alphabet and is -1 elsewhere |
| Base58.EncodeFits | projects/02-wallet-scoring/internal/solana/base58.go:26 | 256^n < 58^(n*138/100+1) for all n, so the buffer is large enough |
| Base58.DecodeFits | projects/02-wallet-scoring/internal/solana/base58.go:61 | 58^n < 256^(n*733/1000+1) for all n |
| Base58.CarryInRange | projects/02-wallet-scoring/internal/solana/base58.go:30-36 | the carry stays below the old base and nothing is pending above the high index |
| Base58.Push | projects/02-wallet-scoring/internal/solana/base58.go:29-38 | one pass of the in-place loop multiplies by the old base and adds the digit, without an index below zero |
| Base58.ConvertDigits | projects/02-wallet-scoring/internal/solana/base58.go:26-46 | the buffer loop computes the radix conversion |
| Base58.Base58Encode | projects/02-wallet-scoring/internal/solana/base58.go:18-51 | the encoder computes the specified text |
| Base58.Base58Decode | projects/06-orderflow-intelligence/internal/solana/base58.go:53-84 | the decoder computes the specified bytes, or an error exactly for a foreign character |
| SolanaParser.CompactInverts | projects/06-orderflow-intelligence/internal/solana/parser.go:150-163 | compactU16 inverts the compact-u16 encoding for all values below 65536 |
| SolanaParser.CompactLayout | projects/06-orderflow-intelligence/internal/solana/parser.go:150-163 | its bytes: seven bits in each, the lowest first, in as few as it takes |
| SolanaParser.LegacyLayout | projects/06-orderflow-intelligence/internal/solana/parser.go:23-87 | the bytes of a legacy transaction with one of everything |
| SolanaParser.VersionedLayout | projects/06-orderflow-intelligence/internal/solana/parser.go:38-101 | the bytes of a versioned one, its version first and its lookup table last |
| SolanaParser.CountsAreBounded | projects/06-orderflow-intelligence/internal/solana/parser.go:26-58 | no or more than 64 signatures and no or more than 256 keys are errors |
| SolanaParser.CallsInvert | projects/06-orderflow-intelligence/internal/solana/parser.go:62-87 | the instruction loop inverts the serialization of any instructions exactly when their indices are within the keys, and fails otherwise |
| SolanaParser.ParseInvertsSerialize | projects/06-orderflow-intelligence/internal/solana/parser.go:23-109 | every well-formed legacy or versioned transaction, whatever bytes follow, is parsed back if its instructions use its own keys only and refused if not |
| SolanaParser.ParsedReadsBack | projects/06-orderflow-intelligence/internal/solana/parser.go:23-109 | the parsed names decode to the first signature, the keys, and each instruction's program and accounts in their order; its data is the data that was sent |
| SolanaParser.ParsedUnlessLookedUp | projects/06-orderflow-intelligence/internal/solana/parser.go:72-82 | a legal transaction is parsed if and only if no instruction uses an account from a lookup table |
| SolanaParser.LegalButRefused | projects/06-orderflow-intelligence/internal/solana/parser.go:76-82 | a legal versioned transaction that is refused |
| TransactionReader.Reader.Uint8 | projects/06-orderflow-intelligence/internal/solana/parser.go:124-135 | reads one byte or fails for good |
| TransactionReader.Reader.Bytes | projects/06-orderflow-intelligence/internal/solana/parser.go:137-148 | reads n bytes or fails for good |
| TransactionReader.Reader.CompactU16 | projects/06-orderflow-intelligence/internal/solana/parser.go:150-163 | the loop computes the specified length |
| TransactionReader.ParseCalls | projects/06-orderflow-intelligence/internal/solana/parser.go:61-87 | the loop resolves every instruction or fails |
| TransactionReader.ParseRawTransaction | projects/06-orderflow-intelligence/internal/solana/parser.go:23-109 | the routine computes the specified parser on every input, malformed ones included |
| TransactionReader.ParseSerialized | projects/06-orderflow-intelligence/internal/solana/parser.go:23-109 | so it returns what was serialized, or refuses it |
| Vpin.PiecesBound | projects/06-orderflow-intelligence/internal/features/aggregator.go:152-195 | cutting a flow keeps its imbalance within the pieces' imbalances, and those within the volume |
| Vpin.FlowAt | projects/06-orderflow-intelligence/internal/features/aggregator.go:161-190 | unit u of the flow belongs to the swap whose volume it falls into |
| Vpin.TwentyPieces | projects/06-orderflow-intelligence/internal/features/aggregator.go:152-195 | the imbalance of a window is the sum of those of its twenty pieces of equal volume |
| Vpin.Pour | projects/06-orderflow-intelligence/internal/features/aggregator.go:166-190 | pouring one swap ends, loses no volume and counts every bucket it fills |
| Vpin.AccumulateBuckets | projects/06-orderflow-intelligence/internal/features/aggregator.go:161-193 | the loop computes the piecewise imbalance of the flow of single units; full buckets and the rest hold all the volume |
| Vpin.ComputeVpin | projects/06-orderflow-intelligence/internal/features/aggregator.go:152-195 | the piecewise imbalance over forty times the volume, and 20 times the poured volume over the bucket size as the number of full buckets |
| Vpin.ComputeWindow | projects/06-orderflow-intelligence/internal/features/aggregator.go:93-150 | totals, mean size and buy ratio, exactly twenty full buckets, abs(OFI) <= 2 * volume * VPIN <= volume; first and last quote, their change, and the span of the quotes over their mean, which the change never exceeds |
| Vpin.VpinBounds | projects/06-orderflow-intelligence/internal/features/aggregator.go:152-195 | those bounds for every list of swaps |
| Gini.RanksCountPairs | projects/02-wallet-scoring/ml/token_scoring/scorer.py:141-144 | on a sorted list the rank formula is half the sum of all pairwise distances |
| Gini.CoefficientIsPairwise | projects/02-wallet-scoring/ml/token_scoring/scorer.py:138-144 | the computed coefficient is the pairwise one for every list |
| Gini.CoefficientIgnoresOrder | projects/02-wallet-scoring/ml/token_scoring/scorer.py:138-144 | it does not depend on the order |
| Gini.CoefficientInRange | projects/02-wallet-scoring/ml/token_scoring/scorer.py:138-144 | it lies in [0, (n-1)/n] for holdings that are not negative |
| Pager.ListingIsOrdered | projects/02-wallet-scoring/internal/clickhouse/tx_repo.go:140-161 | the listing holds every matching row once, in key order |
| Pager.TextOrder | projects/02-wallet-scoring/internal/clickhouse/tx_repo.go:150-162 | signatures are ordered by the first place where they differ |
| Pager.TimeListing | projects/02-wallet-scoring/internal/clickhouse/tx_repo.go:140-162 | the listing of a time range: rows from its start up to, not including, its end, by slot and signature |
| Pager.WalletListing | projects/02-wallet-scoring/internal/clickhouse/tx_repo.go:52-75 | the listing of a wallet: the rows it sent and those it received, the latest slot first |
| Pager.PageIsSlice | projects/02-wallet-scoring/internal/clickhouse/tx_repo.go:152-162 | asking past the k-th row answers with the listing from the k-th row on |
| Pager.CursorSurvives | projects/02-wallet-scoring/internal/clickhouse/tx_repo.go:241-255 | parsing a formatted cursor gives it back, colons in the signature included |
| Pager.CursorExactly | projects/02-wallet-scoring/internal/clickhouse/tx_repo.go:241-255 | a text is a cursor if and only if it is the digits of a 64-bit number, a colon and the signature |
| Pager.GetByTimeRange | projects/02-wallet-scoring/internal/clickhouse/tx_repo.go:140-181 | one page and its cursor; an unreadable cursor is an error |
| Pager.GetByWallet | projects/02-wallet-scoring/internal/clickhouse/tx_repo.go:52-95 | one page downwards; a limit above 500 is answered with 50 rows |
| Pager.NextPage | projects/02-wallet-scoring/internal/clickhouse/tx_repo.go:175-180 | the page after k rows is the next slice and its cursor says where that ends |
| Pager.FetchTransactions | projects/02-wallet-scoring/internal/aggregator/service.go:131-148 | following the cursor ends with the listing, or its first hundred thousand rows |
| Pager.FetchWallet | projects/02-wallet-scoring/internal/aggregator/service.go:246-266 | a wallet's rows within the span in order; nothing is missed unless more than fifty thousand were found |

## Left out

Of the multi-party computation:

- Starting a session twice, and node ids other than 0..n-1: one Execute per session is assumed, because
  the task and collector maps are overwritten before the status check.
- Parsing of decimal input text: an input is a number or unreadable.
- Randomness: every drawn element is a parameter, and nothing is said about its distribution beyond
  `Sharing.OneShareHidesTheSecret`.
- Primality of the modulus, inverses and the Shamir wrappers, which the protocol does not use.
- The library sort is represented by an insertion sort with the same result on distinct slots.
- The terminal status in the session store, whose updates are unconditional.
- What a maximum returns when a triple of three zeros was left out on some node and the triples left still
  suffice: the nodes then multiply with parts of different triples.

Of the wire format:

- Unknown fields of group type are refused rather than skipped; no message of the project has one.
- Strings are byte strings; a missing and an empty byte string are not distinguished.
- NodeInfo, Ack, TaskRequest, ResultMsg and the heartbeat messages, which repeat the same pattern.

Of the settlement pipeline:

- SQL tables are values; a lost connection is a rollback. Amounts are integers.
- Referral bonuses, promo counters, retry delays and the dead-letter queue.
- Decoding errors: the three kinds of event that are published decode.

Of the bond ledger:

- Amounts, prices and rates have at most eight decimal places, as in the columns, and are integers in units
  of the eighth; requests with longer decimals, which the tables would round, are not modelled. Quotients
  are taken to sixteen places and then rounded to six or eight, as the decimal library and the code do.
- Accrued interest per unit enters a trade as a parameter that is not negative, or an error; `Accrual` says
  how it is computed.
- Concurrent runs: each handler is one step, because it reads balances and holders before its transaction
  opens.
- Failing appends to the event log, caches and published messages.
- Holders are visited in any order instead of by quantity; it only orders the log and the payments.
- "Matured implies no holders" is not claimed: the manual status route can set matured without redeeming.

Of the smaller algorithms:

- The base64 text of instruction data: a parsed instruction keeps its raw bytes.
- A versioned transaction whose lookup-table count is missing is accepted, as in the code; nothing is said
  about what it means.
- Rounding of floating-point numbers in VPIN, Gini and the token bucket; sorting of swaps by time and
  the concurrent swap buffer. Prices are integers in a fixed unit and quotients exact fractions.
- The database behind the pager is a fixed list of rows with unique keys; errors of the database are not
  modelled.
- HTTP, gRPC, Kafka, Redis, Postgres, ClickHouse and Kubernetes clients, configuration and logging.
- Python model training and inference.
