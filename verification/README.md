# STN Chain: a verified model of the node's core

STN Chain is a blockchain node written in C17. This project models the part of it that
decides: byte-level proof-of-work arithmetic, the history validator, fork choice, the
durable store, the replay-protected state machines of the authority lifecycle, the
contracts and the economy, and the schedulers around the pending pool and the peers. It
then proves what those parts promise each other, over every input and every run.

## How it is organised

Each component comes in up to three layers.

- **Specification functions** state what an operation answers and what state it leaves,
  with the program's branches, constants and order of checks (`Ledger`, `Lifecycle`,
  `Contracts`, `Chain`, `Fork`, `Storage`, `Peer`, `Pending`, `Assembly` ...).
- **Imperative methods and classes** run the loops over arrays, counters and buffers the
  way the program does and are proved equal to those functions (`PowArithmetic`,
  `WorkDivision`, `EconomicState`, `LifecycleState`, `ContractSnapshot`,
  `ChainCandidate`, `ChainLoops`, `StorageState`, `StorageCache`, `PeerState`,
  `PendingState`, `AssemblyLoops` ...).
- **Theorems** about the functions say what the operations mean together
  (`LifecycleProofs`, `ContractProofs`, `ChainTheorems`, `StorageTheorems`, `PeerLane` ...).

Byte strings are `seq<byte>`. Identifiers that the program only compares with `memcmp` are
modelled by the big-endian value of their bytes; `BigEndian.CompareIsOrder` shows that the
two orders agree. Hashes stay byte strings.

What the model takes as given arrives as function-valued parameters and is otherwise
arbitrary: SHA-256, Ed25519 checks, identity derivation, the decoders of fixed-layout
records, contract authorization, and the outcome of every I/O call. Only the
results about the common ancestor of two histories, and the store's comparison of two states,
assume anything about the hash: `Fork.NoCollisions` says of two given histories that, height by
height, blocks with different headers or different bodies do not share the digest of the part
that differs. It asks nothing about any other string. That the work rises, that no history is
selected twice and that the store holds an accepted history need no such assumption.

## Where code and documents differ

The model follows the code.

- `docs/ECONOMY.md` gives one unit per share and 100 units per block; the code pays 100
  (SHARE payments) and 10000 (BLOCK payments). `ChainTheorems.SupplyIsPaid` uses the
  code's constants.
- `docs/ECONOMY.md` says a share reward exists exactly once. Consensus keeps replay state for
  share evidence, transfers and block evidence, but not for SHARE issuances.
  `SharePayments.ShareIsPaidAgain`: whatever SHARE issuance an accepted history holds, a later
  block that passes the checks and carries it alone is accepted, and pays it once more, if and
  only if the supply still fits 64 bits. `SharePaidTwice.PaidTwice` gives such a history of five
  blocks, for every hash that answers.
- `docs/POW.md` still carries its historical 256-bit work limits below the note that replaces
  them; work here is 320 bits, as in the code.
- `stn_identity_rotation_apply` does not protect the rotation path by itself
  (`Authority.RotateAloneCanReturn`, with the exact condition, and `Authority.RetiredReturns`,
  with an input); the replay list of the lifecycle around it does
  (`LifecycleProofs.RecordedIsReplayed`).
- Recovery judges each record without the history (`src/stn_storage.c:469-507`), and without it
  share evidence must name the block's own parent as the parent of its template
  (`src/stn_chain.c:981-992`), which the history never confirms. A damaged store that starts with
  an accepted history holding share evidence is therefore not salvaged, although
  `src/stn_storage.c:449-453` wants a valid prefix kept (`RecoveryTheorems.SharesStopRecovery`,
  `AdoptIsStuck`); what is kept is an accepted history exactly when it holds none
  (`ChainRecovery.KeptIsHistory`). Identifiers of neighbouring blocks are taken to differ there.
- A CREATE that is refused for its action or sequence, after its draft was registered, leaves the
  registered draft behind (`ContractSnapshot.Snapshot.Create`); the validator discards that copy.

## Main results

- `ChainTheorems.AcceptedObeysRules`, `WorkAndTarget`, `SupplyIsPaid`, `NothingSpentTwice`,
  `CapacityNeverShort`, `RotationsArePath`, `ContractsHaveMajorities`: what holds of every
  history the validator accepts.
- `ChainCompleteness.AcceptedExactly`, with `ChainTurns`, `LifecycleProgress`,
  `ContractProgress`: exactly what is accepted, down to the single transaction.
- `ChainBalances.BalancesAreFlows`, `ChainRecords.LifecycleIsRun`, `ActionsLeftBehind`,
  `ContractsAreRun`, `ChainTheorems.TargetsInSeconds`: what an accepted history leaves behind,
  wallet by wallet, action by action and target by target.
- `ChainEarnings.AcceptedIsEarned`: what every transaction of an accepted history rests on.
- `SharePayments.ShareIsPaidAgain`, `SharePaidTwice.PaidTwice`: the one payment that consensus
  does not make only once.
- `Fork.EvaluationIsGood`, `Fork.NoHistorySelectedTwice`: fork choice finds the deepest
  common ancestor and never returns to a history it left.
- `Storage.StepKeeps`, `Storage.RunKeeps`, `StorageTheorems.StoreHoldsAcceptedHistory`: any
  number of nodes interleaving their calls on one store, with failures anywhere;
  `StorageProgress`: exactly when each call succeeds.
- `StorageRecovery.SalvageMeaning`, `RecoveryTheorems.RecoveryKeepsHistory`: what is kept of a
  store that no longer decodes.
- `WorkDivision.TargetWork`, `PowArithmetic.TargetNext`, `WorkDivision.WorkAtHeight`: the
  long arithmetic is exact and its overflow exits are dead.
- `LifecycleProofs.RotationSafety`, `RetiredNeverPublishes`, `AcceptedOnce`;
  `ContractProofs.MajorityApproved`; `ContractSnapshot.Snapshot.Register`;
  `StorageCache.Cache.LoadAll`; `PeerLane.EveryCandidateOnce`;
  `ContractQuery.QueryIdentity`; `Assembly.AssembledBody`, `Assembly.AssembledOnce`,
  `AssemblyProgress.AssembledAll`.

## Model

| member | source | states |
|---|---|---|
| BigEndian.CompareIsOrder | src/stn_economic_state.c:42-46 | memcmp on equal-length strings is the order of their big-endian values, in all three outcomes |
| BigEndian.ValueOfBytes | src/stn_wire_internal.h:6-16 | what is written and read back is the integer modulo the field width, and the integer itself when it fits |
| BigEndian.BytesOfValue | src/stn_wire_internal.h:6-16 | what is read and written back is the same bytes |
| BigEndian.WireRead | src/stn_wire_internal.h:6-12 | the shift loop yields the field's big-endian value, exactly for every field of at most eight bytes and modulo 2^64 beyond |
| BigEndian.WireWrite | src/stn_wire_internal.h:13-16 | the low n bytes of the integer are stored most significant first, and no other byte changes |
| PowArithmetic.TargetValidate | src/stn_pow.c:54-61 | accepts exactly the 32-byte targets in 1 .. 2^255-1, with the code's status for the rest |
| PowArithmetic.PowCompare | src/stn_pow.c:63-70 | a hash meets a target exactly when its integer is at most the target's |
| PowArithmetic.WorkAdd | src/stn_pow.c:72-79 | the 320-bit byte addition is exact, and reports overflow exactly when the sum leaves 320 bits |
| PowArithmetic.Propagate | src/stn_pow.c:31-37 | the carry loop conserves the weighted sum of its columns, keeps its carry below the factor, and never leaves 32 bits |
| PowArithmetic.DivideBySpan | src/stn_pow.c:38-43 | long division of 34 bytes by 3600 yields the exact quotient; every digit fits a byte |
| PowArithmetic.Adjust | src/stn_pow.c:31-50 | the scaled, divided and clamped target is min(2^255-1, max(1, floor(T*span/3600))), with no byte lost |
| PowArithmetic.TargetNext | src/stn_pow.c:6-52 | the answer is the difficulty rule's: bootstrap below height 60, the predecessor's target inside a period, the retarget formula at a boundary (in seconds: `Pow.RetargetExactly`), and the code's refusal for an inconsistent window |
| Pow.RetargetBounds | src/stn_pow.c:25-50 | a retarget is always a valid target, at least a quarter of the old one rounded down and at most four times it |
| Pow.RetargetExactly | src/stn_pow.c:25-50 | in seconds: 14400 or more quadruples the target, 900 or less quarters it, 3600 leaves it, and in between it is floor(T*span/3600), all forced into 1 .. 2^255-1 |
| Pow.NextTargetIsValid | src/stn_pow.c:6-52 | whatever the difficulty rule answers is a valid target |
| Pow.WorkFits | src/stn_pow.c:104-117 | up to 2^64 blocks of any valid target's work stay below 2^320 |
| Pow.RepeatedSumIsWorkAt | src/stn_pow.c:72-117 | h+1 successive additions of the unit work agree with the closed form (h+1)*unit, and none of them overflows |
| WorkDivision.SubtractFrom | src/stn_pow.c:95-96 | the borrow loop subtracts exactly, in place |
| WorkDivision.ShiftLeft | src/stn_pow.c:92-93 | doubling a 33-byte remainder below 2^256 loses no bit |
| WorkDivision.DivideStep | src/stn_pow.c:91-100 | one turn of the restoring division keeps numerator prefix = quotient*denominator + remainder with remainder < denominator, and the denominator never fits at bit 256 |
| WorkDivision.Divide | src/stn_pow.c:90-101 | 257-bit restoring division yields exactly floor(2^256/denominator); the overflow return is never taken |
| WorkDivision.TargetWork | src/stn_pow.c:81-102 | every valid target yields exactly floor(2^256/(target+1)), every other the validation status |
| WorkDivision.Multiply | src/stn_pow.c:109-114 | double-and-add yields height*unit whenever that fits 320 bits, without an intermediate overflow |
| WorkDivision.WorkAtHeight | src/stn_pow.c:104-117 | for every valid target and 64-bit height the answer is (height+1)*unit, and no addition overflows |
| PowArithmetic.ShareTarget | src/stn_economy.c:5-39 | the share target is ten times the chain target, saturated at 2^255-1 |
| Transaction.DecodeEncode | src/stn_transaction.c:54-98 | a well-formed transaction decodes from its encoding |
| Transaction.EncodeDecode | src/stn_transaction.c:54-98 | accepted envelopes are canonical: encoding the decoded transaction gives the same bytes |
| Block.DecodeEncodeHeader | src/stn_block.c:57-176 | a valid header decodes from its encoding |
| Block.EncodeDecodeHeader | src/stn_block.c:57-176 | accepted header bytes are canonical |
| Block.BodyRoundTrip | src/stn_block.c:178-313 | a body of up to 32 length-prefixed transactions is read back as exactly those transactions |
| Block.BodyCanonical | src/stn_block.c:178-313 | a body that parses is the encoding of what it parsed to |
| Block.DecodeEncode | src/stn_block.c:315-435 | a well-formed block decodes from its encoding |
| Block.EncodeDecode | src/stn_block.c:315-435 | two byte strings that decode to the same block are the same bytes |
| BlockLoops.BodyValidate | src/stn_block.c:178-237 | the offset-advancing loop accepts exactly the bodies that parse into count transactions filling the bytes, with the same status otherwise |
| BlockLoops.BodyEncode | src/stn_block.c:239-313 | on success the front of the buffer is the body and the rest is untouched; on failure nothing is written |
| BlockLoops.IntactBlockHasNoRepeats | src/stn_block.c:499-569 | a block that passes the integrity check repeats no transaction and its header commits to its body |
| BlockLoops.IntactWhen | src/stn_block.c:499-569 | the check passes if and only if every transaction has an identifier, no two the same one, and the header carries the hash of the body |
| BlockLoops.CheckIntegrity | src/stn_block.c:499-569 | the nested duplicate scan and the commitment check give the integrity verdict |
| TableLoops.Scan | src/stn_economic_state.c:42-46 | the ascending scan stops at the key's position |
| TableLoops.Insert | src/stn_economic_state.c:55-64 | shifting up and storing puts the entry at its place and moves nothing else |
| Table.HasIffPresent | src/stn_economic_state.c:128-145 | in a sorted array the scan with early exit finds a key exactly when it is there, at its only place |
| Ledger.IssueMeaning | src/stn_economic_state.c:30-69 | issuance keeps the ledger valid and adds its units to one wallet, to the supply, and to nothing else |
| Ledger.IssueFailsOnlyWhen | src/stn_economic_state.c:30-69 | on a valid ledger it fails if and only if the supply would leave 64 bits or a new entry has no room; the per-balance overflow return is dead |
| Ledger.MoveMeaning | src/stn_economic_state.c:72-126 | a transfer keeps the ledger valid, moves its units between two wallets and leaves the supply and every third wallet alone |
| Ledger.MoveFailsOnlyWhen | src/stn_economic_state.c:72-126 | on a valid ledger it fails if and only if the source owns too little or a new destination has no room; the overflow return is dead |
| Ledger.LookupExact | src/stn_economic_state.c:128-145 | the balance lookup answers the wallet's units, zero exactly when it has no entry |
| EconomicState.EconomicState.constructor | src/stn_chain.c:180-203 | the clone holds the same ledger with the given number of free entries |
| EconomicState.EconomicState.Issue | src/stn_economic_state.c:30-69 | the array after the call is the specified ledger, and on failure the one before it |
| EconomicState.EconomicState.Move | src/stn_economic_state.c:72-126 | the array after the call is the specified ledger, and on failure the one before it |
| EconomicState.EconomicState.BalanceOf | src/stn_economic_state.c:128-145 | the loop answers exactly the wallet's units, and refuses an address that is not a wallet |
| EconomicPersistence.CheckIsValid | src/stn_economic_persistence.c:9-21 | the self-check accepts exactly the sorted ledgers whose balances sum to a 64-bit supply |
| EconomicPersistence.DecodeEncode | src/stn_economic_persistence.c:30-51 | a valid ledger decodes from its bytes, or is refused exactly when the storage is too small |
| EconomicPersistence.EncodeDecode | src/stn_economic_persistence.c:40-51 | only canonical bytes of valid ledgers decode |
| EconomicPersistence.CheckState | src/stn_economic_persistence.c:9-21 | the running-sum loop gives the self-check's verdict |
| EconomicPersistence.EncodeState | src/stn_economic_persistence.c:30-38 | the buffer holds the encoding on success and is untouched on failure |
| EconomicPersistence.DecodeState | src/stn_economic_persistence.c:40-51 | the reading loop gives the specified ledger or status |
| Replay.ConsumeOnce | src/stn_replay.c:24-27 | consuming appends one key that was not there, and the same key is a repeat from then on |
| ReplayState.ReplayState.Check | src/stn_transfer_envelope_replay.c:20-30 | the scan knows a key exactly when it was consumed |
| ReplayState.ReplayState.Consume | src/stn_share_replay.c:59-80 | scan and append; a repeated key or a full list leaves everything as it was |
| ReplayState.ReplayState.Assign | src/stn_block_compensation_acceptance.c:48-49 | the struct assignment makes the list hold exactly the prepared keys |
| Compensation.AssignMeaning | src/stn_compensation_state.c:12-45 | an assignment binds the identity, keeps the table sorted, and changes no binding that was there |
| Compensation.AssignOnce | src/stn_compensation_state.c:12-31 | an assignment succeeds if and only if the identity already has this wallet, or has none and there is room |
| CompensationState.CompensationState.Assign | src/stn_compensation_state.c:12-31 | the sorted insertion gives the specified table, and on failure the one before it |
| CompensationState.CompensationState.Lookup | src/stn_compensation_state.c:32-45 | the lookup loop answers the bound wallet or the specified status |
| Economy.TransferAccepted | src/stn_transfer_envelope_acceptance.c:4-18 | an accepted transfer was signed, had a fresh key and was covered by its source; its units leave the source and reach the destination, every other wallet and the supply stay, and exactly its key is consumed |
| Economy.TransferAcceptedWhen | src/stn_transfer_envelope_acceptance.c:4-18 | a transfer is accepted if and only if it is signed, its key is fresh and finds room, it moves at least one unit between two different wallets, the source owns them and the destination has an entry or room |
| Economy.PairAccepted | src/stn_block_compensation_acceptance.c:5-51 | an accepted pair pays 10000 units to the wallet its miner registered, consumes a fresh non-zero evidence identifier, and the same pair is a duplicate from then on |
| Economy.ShareAccepted | src/stn_share_replay.c:59-80 | an accepted share had a fresh (work, miner, nonce) key, and exactly that key is consumed |
| Acceptance.TransferEnvelopeAccept | src/stn_transfer_envelope_acceptance.c:4-18 | economy and replay list change together or not at all |
| Acceptance.BindBlockTo | src/stn_issuance_binding.c:34-61 | the binding checks give the specified status in the program's order |
| Acceptance.ConsumeInCopy | src/stn_block_compensation_replay.c:19-64 | the copy holds the list with the evidence consumed, or the refusal's status is reported; the original is untouched |
| Acceptance.BlockCompensationAccept | src/stn_block_compensation_acceptance.c:5-51 | balances, supply and replay list are written back only when every step succeeded |
| Authority.RevokeMeaning | src/stn_authority.c:97-120 | the revoked set stays sorted and gains exactly the revoked grant, or stays as it was |
| Authority.RotateExtends | src/stn_authority.c:140-158 | a rotation not yet on record extends the simple path by one identity that was never on it |
| Authority.RotateAloneCanReturn | src/stn_authority.c:140-158 | without replay protection an accepted rotation keeps a simple path if and only if it is not on record or leads to the current identity; otherwise it is appended again |
| Authority.RetiredReturns | src/stn_authority.c:140-158 | behind 1 to 2 to 3 the recorded rotation from 1 to 2 is answered valid with any signature and makes the retired 2 current again |
| LifecycleProofs.RecordedIsReplayed | src/stn_lifecycle.c:38-46 | a recorded rotation is refused by the replay list before it reaches the rotation list, and changes nothing |
| LifecycleProofs.GrantKeeps | src/stn_lifecycle.c:123-129 | a grant is appended once, or nothing changes; the invariant is kept |
| LifecycleProofs.RevokeKeeps | src/stn_lifecycle.c:130-137 | once its statement is consumed a revocation cannot fail, so no replay identifier is spent in vain |
| LifecycleProofs.RotateKeeps | src/stn_lifecycle.c:138-147 | a refused rotation restores the seeded identity; an accepted one keeps the invariant |
| LifecycleProofs.ApplyKeeps | src/stn_lifecycle.c:118-150 | every action keeps the invariant and only ever adds; a refused one changes nothing |
| LifecycleProofs.RotationSafety | src/stn_lifecycle.c:138-147 | over every run the rotations form one simple path from a genesis identity to the current one, with no identity twice and no root on it |
| LifecycleProofs.RetiredNeverPublishes | src/stn_lifecycle.c:57-106 | an identity that was rotated away from can never publish again, whatever follows |
| LifecycleProofs.AcceptedOnce | src/stn_lifecycle.c:108-116 | a publication that was accepted once is never accepted again, whatever follows |
| LifecycleProofs.PublicationIsAuthorized | src/stn_lifecycle.c:57-106 | an accepted publication is signed, its signer was not rotated away, and an unrevoked root-issued grant covers it |
| LifecycleProgress.GrantWhen | src/stn_lifecycle.c:123-129 | a grant is accepted if and only if a root issued and signed it for valid evidence, and grant and replay identifier find room |
| LifecycleProgress.RevokeWhen | src/stn_lifecycle.c:130-137 | a revocation is accepted if and only if the named grant is on record, its issuer signed it, fewer than 256 are revoked and its identifier is unspent |
| LifecycleProgress.RotateWhen | src/stn_lifecycle.c:138-147 | a rotation is accepted if and only if it leads from the current identity, or first from a genesis identity, to a valid one that never retired and is no root, is signed, unspent, and one of at most 256 |
| LifecycleProgress.PublicationWhen | src/stn_lifecycle.c:57-106 | a publication passes the check if and only if it is signed by a valid identity that did not retire, covered by an unrevoked grant on record, and unspent |
| LifecycleRecords.ApplyRecords | src/stn_lifecycle.c:118-150 | an accepted action puts exactly itself on record: its grant, revocation or rotation, and its replay identifier |
| LifecycleRecords.ApplyTwin | src/stn_chain.c:383-407 | what one store accepts a copy with more room accepts too, and both keep the same records |
| LifecycleProofs.RebuildRestores | src/stn_lifecycle.c:155-162 | rebuilding from the accepted actions restores the state exactly |
| LifecycleState.ShiftInsert | src/stn_authority.c:112-120 | the backward shift puts the identifier at its place in the sorted list |
| LifecycleState.LifecycleState.constructor | src/stn_chain.c:383-407 | the clone holds the same state with the given slack for grants and replay identifiers |
| LifecycleState.LifecycleState.RevokeGrant | src/stn_authority.c:112-120 | the revoked array after the call is the specified list |
| LifecycleState.LifecycleState.RotateIdentity | src/stn_authority.c:155-158 | the rotation arrays and the current identity after the call are the specified ones |
| LifecycleState.LifecycleState.RotateApply | src/stn_lifecycle.c:138-147 | seeding, replay and rotation together leave the specified state, on every exit |
| LifecycleState.LifecycleState.ApplyTransaction | src/stn_lifecycle.c:118-150 | result and state after the call are the specified ones for every action |
| Contract.DecodeEncode | src/stn_contract.c:113-317 | a well-formed contract decodes from its encoding |
| Contract.EncodeDecode | src/stn_contract.c:113-317 | accepted contract bytes are canonical |
| Contract.NextIsForward | src/stn_contract.c:428-516 | the nine states are never left backwards, only an amendment in review stays put, CLOSED is final, and EXECUTED is entered only from ATTESTATION by EXECUTE |
| ContractProgress.EdgesExactly | src/stn_contract.c:428-516 | the machine has exactly its eighteen edges, listed state by state |
| ContractProofs.LineageUnique | src/stn_chain.c:653-660 | a contract descends from at most one registered draft, so the search by lineage is unambiguous |
| ContractProofs.RegisterKeeps | src/stn_contract_state.c:34-79 | registration keeps the store sound: distinct identifiers, disjoint vote regions, an electorate counted from the draft |
| ContractProgress.RegisterWhen | src/stn_contract_state.c:34-79 | a draft is registered if and only if it is one, its address exists and is unused, its approvers exist and differ, and 128 contracts and 4096 votes leave room |
| ContractProofs.VoteFacts | src/stn_contract_consensus.c:85-156 | an accepted vote comes from an approver of the draft who had not voted, and moves the contract to ATTESTATION exactly at the majority |
| ContractProgress.VoteWhen | src/stn_contract_state.c:81-130 | a vote on a contract as it is on record is taken if and only if the contract is in review or collecting approvals, the sequence is the next, and the actor is a valid approver who has not voted |
| ContractProgress.VoteMoves | src/stn_contract_state.c:81-130 | a vote that is taken writes the actor's key and nothing else, moves that contract alone by one sequence, and completes the attestation exactly when more than half have voted |
| ContractProofs.VoteNeverFull | src/stn_contract_state.c:81-130 | a sound store never refuses a vote for lack of room in the contract's region |
| ContractProofs.ApplyKeeps | src/stn_chain.c:612-685 | an accepted action keeps the store sound and moves exactly one contract by one sequence number along an edge of the state machine; no agreed term changes |
| ContractProofs.ActionIsAuthorized | src/stn_chain.c:630-671 | no action takes effect unless it was authorized against the draft on record |
| ContractProofs.RunKeeps | src/stn_chain.c:612-685 | over every run contracts are never dropped or renegotiated and a sequence counts exactly the accepted actions |
| ContractProofs.VotersCounted | src/stn_contract_state.c:104-128 | the count kept with a contract is the number of distinct voters in its region, all of them on the draft's roll |
| ContractProofs.MajorityApproved | src/stn_contract_consensus.c:46-156 | ATTESTATION and EXECUTED mean a strict majority of the draft's approvers voted; APPROVALS means some but no majority; REVIEW and before mean none |
| ContractVoting.FindApprover | src/stn_contract_consensus.c:22-44 | the scan finds an actor exactly when the draft names it as approver |
| ContractVoting.CountApprovers | src/stn_contract_consensus.c:61-74 | the nested loops count the approvers, or report a repeated or an empty roll |
| ContractVoting.InitializeVotes | src/stn_contract_consensus.c:46-83 | the electorate of a draft: number of approvers and strict majority |
| ContractVoting.AlreadyVoted | src/stn_contract_consensus.c:111-114 | the key scan looks at the contract's own region and nowhere else |
| ContractVoting.AcceptVote | src/stn_contract_consensus.c:85-121 | one key is written behind the recorded ones after every check has passed; on refusal the buffer is untouched |
| ContractArena.ReadSeated | src/stn_contract_snapshot.c:16-43 | the addresses kept in a slot lead to exactly the contract the slot stands for |
| ContractArena.RebaseKeeps | src/stn_contract_snapshot.c:16-43 | moving one slot to a new base keeps what it stands for, and moving it back restores it address for address |
| ContractArena.RelocationKeeps | src/stn_contract_snapshot.c:16-43 | relocating a whole arena keeps every entry's draft, progress and votes, and is undone by relocating back |
| ContractArena.GrowthKeeps | src/stn_contract_snapshot.c:108-141 | appending bytes to the arena changes nothing for the slots already seated |
| ContractSnapshot.Snapshot.constructor | src/stn_contract_snapshot.c:45-54 | a new snapshot stands for the empty store |
| ContractSnapshot.Snapshot.Bind | src/stn_contract_snapshot.c:16-43 | the pass succeeds exactly when every slot lay in the old arena and decodes, and then rebases all of them |
| ContractSnapshot.Snapshot.Relocate | src/stn_contract_snapshot.c:16-43 | for seated slots the pass cannot fail and changes addresses only |
| ContractSnapshot.Snapshot.Clone | src/stn_contract_snapshot.c:56-75 | a clone fails only for lack of memory; otherwise it is separate and stands for the same store |
| ContractSnapshot.Snapshot.Register | src/stn_contract_snapshot.c:108-141 | registration after growth is the specified one; a refused one restores base, arena, count and slots exactly |
| ContractSnapshot.Snapshot.RegisterAt | src/stn_contract_state.c:34-79 | registering a draft that lies in the arena gives the specified store, or changes nothing |
| ContractSnapshot.Snapshot.Find | src/stn_contract_state.c:16-32 | the index of the first entry with this identifier, or the count |
| ContractSnapshot.Snapshot.ApplyVote | src/stn_contract_state.c:81-130 | the store after the vote is the specified one: one key in one region, one entry moved, everything still borrowed from the draft |
| ContractSnapshot.Snapshot.Create | src/stn_chain.c:630-651 | the CREATE branch gives the specified store; a refused one leaves the store as it was, or with the registered draft when only the action was refused |
| ContractSnapshot.Snapshot.Act | src/stn_chain.c:653-684 | the other actions give the specified store, and a refused one changes nothing |
| ChainHeaders.PriorAccepts | src/stn_chain.c:506-551 | the validator's check of its own prior state never refuses a state the fold produced |
| ChainHeaders.RequiredIsRule | src/stn_chain.c:553-579 | the required target is never refused for a state the fold produced, short of the last 64-bit height, and is exactly the difficulty rule |
| ChainHeaders.BoundaryTarget | src/stn_chain.c:576-578 | at a multiple of 60 the stored window holds sixty headers and the rule reads its first and last |
| ChainSteps.StepMatches | src/stn_chain.c:704-790 | a block that passes the checks extends height, time, identifiers, work and window in step with the history |
| ChainSteps.FreshTarget | src/stn_chain.c:736-742 | the target of a block that passed is the rule's target at its height, and valid |
| ChainBooks.TxsBooked | src/stn_chain.c:836-1020 | an accepted transaction list grows each replay list by exactly its own keys, in order, and the supply by exactly its payments |
| ChainBooks.OpenedIsRoomy | src/stn_chain.c:54-203 | the 32 free slots the clones add are enough for every block |
| ChainBooks.OnlyPairsAndContractsFill | src/stn_chain.c:836-1020 | whatever else a block carries, the transaction it is refused at for lack of capacity is a contract action, or a compensation pair that finds the list full with 4096 entries |
| ChainBooks.RefusedIs | src/stn_chain.c:839-1020 | everything before the refused transaction was applied, and the refusal is the one its own turn answers |
| ChainHistory.TxsKeepStores | src/stn_chain.c:836-1020 | an accepted transaction list keeps the lifecycle coherent and the contract store sound |
| ChainHistory.StepReached | src/stn_chain.c:687-1076 | one accepted block carries the whole invariant, header state and stores, to the longer history |
| ChainHistory.AcceptedIsReached | src/stn_chain.c:1084-1100 | every accepted history leaves the header state, replay lists and supply its blocks describe, a coherent lifecycle and a sound contract store |
| ChainTheorems.AcceptedObeysRules | src/stn_chain.c:687-1100 | every block of an accepted history is numbered from genesis, linked by identifier, not back in time, commits to its body, carries the rule's target and a hash that meets it |
| ChainTheorems.TargetsInSeconds | src/stn_chain.c:553-579 | every target of an accepted history in numbers and seconds: the bootstrap for the first sixty blocks, then the one before, and at each multiple of sixty that one rescaled by the time the period took |
| ChainCompleteness.AcceptedExactly | src/stn_chain.c:687-1082 | behind an accepted history a block is accepted if and only if it obeys the rules of its height, is well formed, and its transactions take effect |
| ChainCompleteness.AcceptedIsFormed | src/stn_chain.c:704-769 | every block of an accepted history has the right version, transactions that decode under different identifiers, and publications that name the network |
| ChainCompleteness.PublicationsWhen | src/stn_chain.c:745-769 | the first pass lets a body through if and only if each publication decodes and names the network |
| ChainTurns.PairTakesEffect | src/stn_chain.c:848-904 | a compensation pair takes effect if and only if its evidence names an accepted block, the issuance pays 10000 for it to the registered wallet of its miner, the evidence is unpaid, and there is room |
| ChainTurns.PaymentTakesEffect | src/stn_chain.c:906-918 | a SHARE issuance takes effect if and only if an accepted block holds the share it pays 100 for, its wallet is the registered one, and there is room |
| ChainTurns.ShareTakesEffect | src/stn_chain.c:945-998 | a share takes effect if and only if it is proven work on a template of version 3 without reserved nonce below the block, over the accepted parent, by an identity, and was never recorded |
| ChainEarnings.AcceptedIsEarned | src/stn_chain.c:839-1020 | in every accepted history each BLOCK payment stands behind evidence of an earlier block and names its miner, each SHARE payment has its share in an earlier block, each share is proven work on an earlier block, transfers are signed, each contract action was authorized by the lifecycle it was applied in against the draft on record, and each publication is signed by an identity not rotated away and covered by an unrevoked root-issued grant |
| ChainEarnings.PairIsEarned | src/stn_chain.c:848-904 | an applied pair pays 10000 units to the miner its evidence names, for a block of the accepted prefix |
| ChainEarnings.PaymentIsEarned | src/stn_chain.c:906-918 | an applied SHARE issuance pays 100 units to the miner of a share in the accepted prefix, under that share's identifier |
| ChainEarnings.ApplyCovers | src/stn_chain.c:839-1020 | what every successful step establishes, where an invariant holds, holds of every transaction and pair of an applied body in the candidate state it was applied to |
| ChainTheorems.WorkAndTarget | src/stn_chain.c:506-579 | the state's work is the sum of floor(2^256/(T+1)) over the blocks, its window is the current period's headers, and the self-checks accept it |
| ChainTheorems.PrefixAccepted | src/stn_chain.c:1084-1100 | every prefix of an accepted history is accepted |
| ChainTheorems.SupplyIsPaid | src/stn_chain.c:848-929 | supply is 100 per share payment plus 10000 per compensated block, and equals the sum of all balances |
| ChainBalances.BalancesAreFlows | src/stn_chain.c:848-935 | in every accepted history each wallet owns what payments and transfers gave it less what it sent, and an identity is bound to exactly the wallet registered for it |
| ChainTheorems.NothingSpentTwice | src/stn_chain.c:848-998 | no transfer key, block evidence or share key appears twice in a history, and the replay lists hold exactly those spent |
| ChainTheorems.CapacityNeverShort | src/stn_chain.c:180-203 | behind every accepted history a block refused for lack of capacity is refused at a contract action, or at a pair behind exactly 4096 pairs compensated before it; balances, transfers, shares and mappings never run out |
| SharePayments.PayableFits | src/stn_chain.c:906-918 | a SHARE payment whose share is found, whose wallet is bound and has an entry is accepted if and only if the supply still fits |
| SharePayments.PayableStays | src/stn_chain.c:906-918 | what was payable behind a prefix stays payable behind every longer one whose books keep bindings and entries |
| SharePayments.AcceptedStands | src/stn_chain.c:839-1020 | every SHARE payment of an accepted history is still payable in the state the history leads to |
| SharePayments.ShareIsPaidAgain | src/stn_chain.c:906-918 | for every SHARE payment of an accepted history, a next block that passes the checks and carries it alone is accepted, and adds 100 units again, if and only if the supply still fits 64 bits |
| SharePaidTwice.StoryIsAccepted | src/stn_chain.c:687-1100 | genesis, a destination, a share and one payment in two blocks form an accepted history with 200 units of supply |
| SharePaidTwice.PaidTwice | src/stn_chain.c:687-1100 | for every hash that answers there is such a history: concrete records, context and blocks |
| ChainTheorems.RotationsArePath | src/stn_chain.c:999-1020 | in every accepted history's state the rotations form one simple path out of a genesis identity |
| ChainRecords.LifecycleIsRun | src/stn_chain.c:999-1020 | the lifecycle of an accepted history is the run of its actions from the initial state, each accepted, publications from the activation height on; only the room differs |
| ChainRecords.LifecycleOnRecord | src/stn_chain.c:999-1020 | its grants and rotations are those of its actions in order, its revoked grants those they revoke, and its replay list one identifier for each action, none twice |
| ChainRecords.ActionsLeftBehind | src/stn_chain.c:999-1020 | every accepted grant, revocation and rotation is on record in the final state, and no two actions, publications included, spent the same identifier |
| ChainRecords.ContractsAreRun | src/stn_chain.c:937-944 | the contracts of an accepted history are the run of its contract actions from the empty store, none refused |
| ChainTheorems.ContractsHaveMajorities | src/stn_chain.c:937-944 | in every accepted history's state a contract awaiting attestation or executed has a strict majority of its draft's approvers, one collecting approvals some but no majority, one before that none |
| ChainCandidate.ScanPublications | src/stn_chain.c:745-769 | the first pass refuses exactly the bodies with an undecodable publication or one for another network |
| ChainCandidate.TargetHistory.Append | src/stn_chain.c:783-788 | a boundary empties the window, and one header is appended inside its sixty slots |
| ChainCandidate.WindowHasRoom | src/stn_chain.c:783-788 | whatever state a caller hands in, a block that passed the checks never writes behind the sixtieth slot |
| ChainCandidate.CheckCandidate | src/stn_chain.c:704-781 | the checks in program order give the specified refusal |
| ChainCandidate.NextHeader | src/stn_chain.c:773-791 | the header half of the next state is the specified successor |
| ChainCandidate.ValidateCandidate | src/stn_chain.c:687-1082 | the output holds the specified successor when nothing was refused, and is untouched otherwise |
| ChainLoops.FoldBlocks | src/stn_chain.c:1084-1100 | the loop gives the fold's report, and on refusal the first block that fails, with every one before it accepted |
| ChainLoops.ReconstructHistory | src/stn_chain.c:1084-1100 | the reconstruction loop gives the specified report |
| ChainLoops.StopIs | src/stn_chain.c:839-1020 | a refused body stops at one position: the turns before it succeed and the turn there answers the refusal |
| ChainLoops.ApplyTransactions | src/stn_chain.c:839-1020 | the index that advances by one, or by two behind a pair, applies the body as specified |
| ChainLoops.FindBlock | src/stn_chain.c:861-878 | the search finds an evidence's block exactly when the accepted prefix holds it |
| ChainLoops.FindShare | src/stn_chain.c:912 | the nested search finds a binding share evidence exactly when the accepted prefix holds one |
| ChainLoops.CheckWindow | src/stn_chain.c:568-573 | the consistency loop accepts exactly the windows whose heights run up to the parent, whose times never fall and whose target is the current one |
| Fork.OrderWork | src/stn_fork.c:5-13 | comparing the 40 bytes is comparing the work |
| Fork.CountCommon | src/stn_fork.c:71-77 | the scan counts the leading blocks with equal identifiers |
| Fork.SameBlock | src/stn_fork.c:71-77 | blocks with equal identifiers are equal, through the body commitment, when their own header and body digests do not collide |
| Fork.SamePrefix | src/stn_fork.c:71-77 | equality of two accepted histories at one height reaches down to genesis, when their blocks do not collide height by height |
| Fork.ScanFindsAncestor | src/stn_fork.c:71-82 | between two accepted histories whose blocks do not collide height by height, the scan cannot fail, finds genesis, and stops at the deepest common ancestor |
| Fork.PlanIsGood | src/stn_fork.c:53-93 | the plan's kept prefix is shared byte for byte, keeping it and attaching its range yields the candidate, it is actionable exactly when the candidate has more work, and the result says exactly which has more |
| Fork.PreferredWins | src/stn_fork.c:53-93 | whatever the hash does, a candidate is preferred only when both histories are accepted and it has strictly more work |
| Fork.EvaluationIsGood | src/stn_fork.c:53-93 | two accepted histories whose blocks do not collide height by height always evaluate to such a plan |
| Fork.WorkRises | src/stn_fork.c:53-93 | work rises strictly along every run of reorganizations, whatever the hash does |
| Fork.NoHistorySelectedTwice | src/stn_fork.c:53-93 | no history is selected twice along any run of reorganizations, whatever the hash does |
| Fork.ChainIsSound | src/stn_fork.c:25-46 | every block of an accepted history has an identifier and the state has the height of the last one, as fork choice relies on |
| StorageFormat.DecodeEncode | src/stn_storage.c:45-137 | a snapshot decodes to the history it was encoded from, with that history's state |
| StorageFormat.EncodeDecode | src/stn_storage.c:45-137 | only canonical bytes decode: encoding the decoded history gives them back |
| StorageFormat.SpliceIsFraming | src/stn_storage.c:366-369 | patching the count and appending one record is the framing of the longer history |
| Storage.AppendIsEncode | src/stn_storage.c:341-375 | the spliced append publishes exactly what encoding the longer history would, with the same failures |
| Storage.CreatePublishes | src/stn_storage.c:199-235 | a successful create found no store and publishes the encoding of an accepted history |
| Storage.ApplyPublishes | src/stn_storage.c:237-283 | an applied plan matched the caller's state and the store, and the new history has strictly more work |
| Storage.ExtendPublishes | src/stn_storage.c:285-390 | a successful extension matched the caller's state and publishes the stored history plus one block |
| Storage.AdoptPublishes | src/stn_storage.c:545-630 | adoption publishes an accepted history that beats the one a decoding store held |
| Storage.StepKeeps | src/stn_storage.c:199-630 | a failed call changes neither the store nor any node; a successful one publishes an accepted history whose state only its caller takes over |
| Storage.RunKeeps | src/stn_storage.c:199-630 | over every interleaving and every failure the store holds the encoding of an accepted history, never disappears, and only gains work |
| Storage.StaleNeverPublishes | src/stn_storage.c:237-390 | a caller whose state is not the stored history's publishes nothing through apply or extend |
| StorageProgress.CreateWhen | src/stn_storage.c:199-235 | create succeeds if and only if the store is absent, the provider fails nowhere and the accepted history fits |
| StorageProgress.ExtendWhen | src/stn_storage.c:285-390 | extend succeeds if and only if the provider fails nowhere, the caller's state is the stored history's, and the longer history is accepted and fits |
| StorageProgress.ApplyWhen | src/stn_storage.c:237-283 | apply succeeds if and only if the provider fails nowhere, the caller's state is the stored history's, and fork choice prefers the new history with exactly the given plan |
| StorageProgress.AdoptWhen | src/stn_storage.c:545-630 | adopt succeeds if and only if the provider fails nowhere, the history is accepted and fits, and what is stored or recovered gives way |
| StorageProgress.RecoverWhen | src/stn_storage.c:392-516 | recovery reads nothing from an absent store, the history of one that decodes, and what can be salvaged from any other |
| StorageProgress.RefusedBecause | src/stn_storage.c:199-630 | a create over a store, a call by a stale caller and a history without more work are refused under these very statuses |
| StorageRecovery.SalvageMeaning | src/stn_storage.c:469-507 | the kept records lie at the front, each accepted in the state the one before left; the walk stops only at the count, at a record cut short or out of size, or at one rejected there, and fails only at one that cannot be judged there |
| StorageRecovery.HeadedSalvage | src/stn_storage.c:430-516 | the records start behind twelve bytes and are as many as these announce; other framing keeps nothing |
| StorageRecovery.AdoptOverDamage | src/stn_storage.c:545-630 | adopting over a store that does not decode means that what was kept is an accepted history with less work, or with the same work and tip, or nothing |
| ChainRecovery.AcceptedOrUnresolved | src/stn_chain.c:848-998 | a block its history accepts is accepted without it with the same state, or cannot be judged; it is never rejected |
| ChainRecovery.RecheckIsValidate | src/stn_chain.c:964-992 | a block accepted without history is accepted with it, and with the same state, if and only if it carries no share evidence |
| ChainRecovery.KeptIsHistory | src/stn_storage.c:469-507 | what recovery keeps is an accepted history if and only if none of its blocks carries share evidence |
| RecoveryTheorems.RecoveryKeepsHistory | src/stn_storage.c:447-516 | however a store is damaged behind an accepted history, recovery keeps all of that history or reports that it could not be judged |
| RecoveryTheorems.SharesStopRecovery | src/stn_storage.c:447-516 | a damaged store that starts with an accepted history holding share evidence is never salvaged |
| RecoveryTheorems.AdoptIsStuck | src/stn_storage.c:545-630 | and adopting over it fails, whatever history is offered |
| StorageTheorems.ChainIsReliable | src/stn_storage.c:16-23 | under proof of work the chain validator satisfies all that the store relies on |
| StorageTheorems.StateEqualIsSameHistory | src/stn_storage.c:174-188 | two accepted histories whose states agree on the compared fields are the same history, when their blocks do not collide height by height |
| StorageTheorems.StoreHoldsAcceptedHistory | src/stn_storage.c:199-630 | over every interleaving a store that starts absent or valid holds a history the chain validator accepts |
| StorageState.ReadSpans | src/stn_storage.c:65-77 | the record loop finds exactly the length-prefixed blocks that fill the bytes |
| StorageState.EncodeInto | src/stn_storage.c:95-137 | the buffer's front holds the specified snapshot, or the specified status is returned |
| StorageState.AppendInto | src/stn_storage.c:341-375 | copy, patched count, one record and digest give the specified append |
| StorageState.Provider.Replace | src/stn_storage.c:144-151 | replacing publishes all bytes or nothing |
| StorageState.CreateStore | src/stn_storage.c:199-235 | store and caller's state after the call are the specified ones, on every exit |
| StorageState.ApplyPlan | src/stn_storage.c:237-283 | store and caller's state after the call are the specified ones, on every exit |
| StorageState.ExtendStore | src/stn_storage.c:285-390 | store and caller's state after the call are the specified ones, on every exit |
| StorageState.AdoptHistory | src/stn_storage.c:545-630 | store and caller's state after the call are the specified ones, on every exit |
| StorageState.SalvageRecords | src/stn_storage.c:437-516 | the salvage loop gives the specified answer: the records up to the first one that is cut short or rejected in the state reached so far, or the failure of one that cannot be judged |
| StorageCache.CopyView | src/stn_storage_cache.c:11-26 | the copied spans are the same blocks at the other copy's base |
| StorageCache.Relocate | src/stn_storage_cache.c:33-44 | the remembered spans are those of the full decode, at the private copy's base |
| StorageCache.Cache.Remember | src/stn_storage_cache.c:27-49 | the cache stays consistent: its bytes decode, under its context, to its view |
| StorageCache.Cache.Load | src/stn_storage_cache.c:50-65 | a load that reads and finds memory answers what a full decode would, hit or miss; a failed read leaves the cache alone |
| StorageCache.Cache.LoadAll | src/stn_storage_cache.c:50-65 | over every sequence of store contents each load answers what a full decode would |
| Peer.AddMeaning | src/stn_peer.c:198-217 | adding keeps the set strictly sorted and within 64 endpoints, and the result says exactly which case occurred |
| Peer.AdmitIsUnion | src/stn_peer.c:276-300 | admission is all or nothing: the union with the announced endpoints other than self, or no change |
| Peer.AdmitWhen | src/stn_peer.c:276-300 | peers are admitted if and only if self is valid, the message is a count and six bytes for each of at most 64 valid endpoints, and the union without self fits 64 |
| Peer.AdmitEncoded | src/stn_peer.c:276-315 | admitting what was encoded from a set into an empty one gives that set |
| PeerLane.SelectionSurvives | src/stn_peer.c:255-264 | a discovery never loses the selected endpoint, so the search for it never runs off the end |
| PeerLane.StepKeeps | src/stn_peer.c:237-274 | every step keeps the set sorted and growing and the index in range; a connected lane stays on its endpoint |
| PeerLane.StepExactly | src/stn_peer.c:237-274 | a turn does nothing for five seconds after the last one; then it ends connected if and only if it opened or had a connection, synchronised, and its first peer exchange was not spoilt, which alone brings new candidates |
| PeerLane.RunKeeps | src/stn_peer.c:237-274 | over every run the candidates are a strictly sorted set of at most 64 valid endpoints and the selection is in range |
| PeerLane.FailedStep | src/stn_peer.c:237-274 | a turn that fails to open, to synchronise or to exchange peers leaves the set alone, records its time and moves the selection on by one |
| PeerLane.FailuresGoRound | src/stn_peer.c:237-274 | after k consecutive turns that end without a connection, for whatever reason, the selection has moved k places round the unchanged set |
| PeerLane.EveryCandidateOnce | src/stn_peer.c:237-274 | as many consecutive failed turns as there are candidates give every candidate exactly one turn |
| PeerState.Candidates.Insert | src/stn_peer.c:198-217 | validation, scan and shift leave the specified array |
| PeerState.AddEach | src/stn_peer.c:287-298 | the batch loop on a copy gives the specified result |
| PeerState.Outbound.Admit | src/stn_peer.c:276-300 | the lane's set after an admission is the specified one |
| PeerState.Outbound.Step | src/stn_peer.c:237-274 | lane fields and result after a step are the specified ones |
| ContractQuery.RankedIsSorted | src/stn_contract_query.c:15-22 | ranking is a sorted permutation of the matching contracts |
| ContractQuery.RankingIsUnique | src/stn_contract_query.c:15-22 | contracts with distinct identifiers have only one sorted arrangement |
| ContractQuery.InsertTake | src/stn_contract_query.c:50-67 | forgetting all but the first n commutes with inserting, so bounding early loses nothing |
| ContractQuery.FullInsert | src/stn_contract_query.c:60-62 | a full list changes exactly when the newcomer precedes its last element, and then loses that one |
| ContractQuery.BubbleUp | src/stn_contract_query.c:63-66 | one bubbling pass puts the newcomer at its place and moves nothing else |
| ContractQuery.QueryIdentity | src/stn_contract_query.c:37-69 | the one-pass bounded search answers exactly the first results of the full ranking of the matching contracts |
| Pending.InsertMeaning | src/stn_pending.c:233-250 | insertion keeps the pool sorted and adds exactly this transaction, or changes nothing; it succeeds exactly when the transaction is new and fits 128 entries and 262144 bytes |
| Pending.RemoveUndoesInsert | src/stn_pending.c:233-286 | removing what was inserted restores the pool, byte count included |
| Pending.RemoveKeeps | src/stn_pending.c:271-286 | removal keeps the pool proper and the transaction is gone |
| Pending.PruneKeeps | src/stn_pending.c:482-498 | pruning keeps exactly the unmarked transactions and an exact byte count |
| Pending.WalkCovers | src/stn_pending.c:287-303 | asking page after page, with any page size, names every transaction once in ascending order |
| PendingState.PendingPool.FindId | src/stn_pending.c:27-35 | the scan answers the identifier's place and whether it is taken |
| PendingState.PendingPool.Insert | src/stn_pending.c:233-250 | array, count and byte count after the call are the specified pool |
| PendingState.PendingPool.Remove | src/stn_pending.c:271-286 | array, count and byte count after the call are the specified pool |
| PendingState.PendingPool.Prune | src/stn_pending.c:482-498 | the single pass leaves the specified pool |
| PendingState.PendingPool.Enumerate | src/stn_pending.c:287-303 | the caller's array receives the page and nothing behind it is written |
| Assembly.SelectMeaning | src/stn_pending.c:967-1063 | the chosen entries are pooled, judged eligible, in strictly ascending order, and within the 32-transaction limit, the body limit and the capacity |
| AssemblyProgress.SelectExactly | src/stn_pending.c:967-1063 | the selection takes every eligible transaction in order, up to 32 or to the first that leaves the body limit, and fails only at one that does not decode, is aborted or leaves the capacity |
| Assembly.PairsMeaning | src/stn_block_compensation_candidate.c:234-269 | the pair loop only ever appends whole pairs of an evidence and an issuance bound to it, within both limits |
| AssemblyProgress.PairWhen | src/stn_block_compensation_candidate.c:234-259 | an evidence contributes a pair if and only if it decodes, is payable, and some pooled BLOCK issuance is bound to it |
| AssemblyProgress.PairsExactly | src/stn_block_compensation_candidate.c:234-269 | at its turn a pair is appended if and only if two transactions and its bytes with both length words fit, and it stays |
| Assembly.AssembledBody | src/stn_block_compensation_candidate.c:210-270 | a body parses back to exactly its transactions: an ascending generic part without compensation, then whole pairs, within both limits |
| AssemblyProgress.AssembledAll | src/stn_block_compensation_candidate.c:210-270 | an assembled body carries every eligible generic transaction up to the limits and every pair for which there was room at its turn |
| Assembly.AssembledOnce | src/stn_block_compensation_candidate.c:210-270 | no transaction identifier appears twice in an assembled body, so the duplicate scan passes, when no two pooled evidences share an evidence identifier |
| AssemblyLoops.CollectGeneric | src/stn_block_compensation_candidate.c:219-228 | the first loop leaves exactly the compensation transactions aside, or reports an undecodable entry |
| AssemblyLoops.SelectLoop | src/stn_pending.c:967-1063 | the selection loop gives the specified selection or status |
| AssemblyLoops.FindPartner | src/stn_block_compensation_candidate.c:246-259 | the inner search finds the first pooled issuance bound to the evidence |
| AssemblyLoops.AppendTransaction | src/stn_block_compensation_candidate.c:184-195 | one more record behind the body, exactly when it fits; otherwise nothing is written |
| AssemblyLoops.AppendPair | src/stn_block_compensation_candidate.c:197-208 | once the pair is known to fit, neither of the two appends can fail |
| AssemblyLoops.AssembleInto | src/stn_block_compensation_candidate.c:210-270 | the caller's buffer, length and count are those of the specified body, or the specified status is returned |

## Left out

- Platform adapters, sockets, files, threads, RPC framing, configuration, mining dispatch and
  reports: I/O and thin composition over the parts above. A store is a provider whose acquire,
  read and replace may each fail; a peer connection is the outcome of its calls.
- Cryptography: hashing, signature checks and identity derivation are arbitrary functions.
- Record layouts (publications, shares, issuances, transfers, destinations, evidence, contract
  transactions): their decoders are parameters. Their round trips would be easy members.
- Allocation failure and `SIZE_MAX` arithmetic, except where the result of an allocation
  decides what a caller sees: the contract snapshot and the storage cache take it as a
  parameter. Null arguments have no counterpart.
- Reference counts, sharing and the in-place reuse of the lifecycle store during reconstruction:
  states are values, so nothing is claimed about leaks or aliasing there.
- The activation table for early genesis blocks and the opaque contract authorization: both are
  parameters. No progress is claimed for CREATE, whose transaction must carry no evidence while
  authorization asks for some.
- The per-stage fields of a validation report and the failing height; the reason, the detail
  and the acceptance verdict are modelled.
- `stn_block_compensation_replay_copy` re-checks that no stored identifier is zero; the model's
  lists never hold one (`Economy.PairAccepted`), so the check is not repeated.
- Eligibility of a pooled transaction (its share's parent, its issuance's history, its
  publication's authorization) is one opaque verdict per transaction in `Assembly`; the scan that
  finds repeated ones is the flag `scanned` and part of that verdict. Admission into the pool is
  modelled from the duplicate check on.
- `stn_pending_lookup` and `stn_pending_clear`: a copy and a reset beside the modelled scan.
- `stn_fork_evaluate_suffix`, record search, cursors and consumer recovery: easier relatives of
  fork evaluation and reconstruction.
- The peer synchronisation session: its status is a parameter of a lane step.
- The separate approval buffer of `src/stn_contract.c` (validate, accept and rebuild of an
  accepted state) and contract responses; votes are modelled where consensus keeps them.
- ChainLoops.FindShare: decodes the transactions of a block before it searches them, where the
  program decodes and searches in one pass; the two agree on every block that decodes, because
  decoding a block decodes its transactions.
- Recovery of a damaged store: what is salvaged is modelled (`StorageState.SalvageRecords`,
  `StorageRecovery.SalvageMeaning`), and never less than an accepted history the bytes still start
  with, unless it cannot be judged. The run theorems start from a store that is absent or decodes.
- Collisions of the hash: the ancestor results of fork choice and
  `StorageTheorems.StateEqualIsSameHistory` assume that the two histories they compare do not
  collide (`Fork.NoCollisions`), and `Assembly.AssembledOnce` that no two pooled evidences share an
  identifier. The recovery results that compare judging with and without a history assume that
  neighbouring blocks have different identifiers. No other lemma does.
- StorageCache.Cache.Load: a context is a number that fixes what the decoder answers. The program
  compares the bytes of a struct of pointers, so it promises the same only as long as the memory
  those pointers lead to is left alone.
- The pool handed to assembly is taken to be sorted, which the lemmas of `Pending` maintain, and
  no record is taken to be shorter than the shortest layout.
