# XMBL: agreement, sealing and the machines that feed them

This project models the part of XMBL that makes independent nodes end up with the same sealed chain, and proves
properties of the model in Dafny 4.11. `dafny verify dfyconfig.toml` checks all of it.

How to read it. A component the source keeps in an object's fields is a class whose methods are proved equal to a step
function on the object's state, and whose contracts also say, without that function, what each call does; the laws are
lemmas about those functions, over one call, over every reachable state, or over whole runs (a sequence of states and
steps with every interleaving allowed). Modules, in the order they build:

- `Ordering`, `JsMap`: sorting by content key, chunks, filters; a map that remembers insertion order.
- `SealAgreement`, `SealRound`, `SealProtocol`: the candidate, the vote, the per-node round manager, and n nodes over
  gossip that loses, repeats, delays and reorders. `SealSafety` proves where votes come from and that no two resolved
  sets overlap; `SealSplit` proves that its premises are needed; `SealVouching` proves that resolved sets keep being
  answered for and that this brings a late lead along; `SealRefinement` proves that rounds compute the batch seal, and
  `SealInterleaving` that no interleaving seals anything else.
- `Hashing`, `Face`, `PlacementCheck`, `Assembler`, `SlotVersusRank`: merkle roots and ids, faces of nine, the placement
  check, the parallel assembler, and where the last two disagree. `SampleHasher` is a hash function that meets the
  assumptions made of SHA-256, so they are consistent.
- `CubeSync`, `CubeStore`, `RepeatedHash`: cubes that certify themselves; adoption, rows on disk and serving again; the
  cubes that cannot be.
- `Extraction`: coordinates of blocks and of the leaves of cubes of cubes.
- `LedgerLock`: one ledger write at a time and signed readings no write disturbed.
- `Workflow`, `Tiers`, `Resubmission`, `Clock`, `Reports`, `Retry`, `Tasks`: the validation quorum, what becomes of a
  promoted transaction and of one submitted twice, the averaged clock, report routing, the retry policy and the index of
  validation tasks.
- `Gossip`, `CanonicalJson`, `Release`, `DigitalRoot`: batching, canonical JSON, the release back-off and the digit sum.

What the proofs found in the code:

- The argument that a node contributes one set to the vote (packages/consensus/src/seal-agreement.js:44-45) holds at one
  moment, not over time: a node's old vote stays in its peers' tallies when its candidate changes. A key that arrives
  below the top of a candidate is enough for two overlapping sets to be sealed, for every number of leads from three on
  and every chunk from two on, and with fewer it never is (`SealSplit.SplitIffUndercut`). So can a key that comes back
  (`SealSplit.SplitIffReturns`), and a key that no node had resolved dropped from pools, as the ledger does with an
  invalid transaction (packages/cubic-ledger/src/ledger.js:717-718; `SealSplit.StrayEvictionSplits`). In runs without these three, evictions by cube adoption
  included, it cannot happen (`SealSafety.NoSplitBrain`).
- A pool with two blocks of one hash in a nine gives a face that never completes, and its blocks are in no remainder
  (`Face.FaceOfGroup`, `Face.SealBlocksIntoFaces`).
- Cube verification does not ask that the 27 hashes be distinct across faces. A cube that repeats one is accepted and
  adopted (`RepeatedHash.RepeatingIsAccepted`), but rows are keyed by hash, so the node can never serve it
  (`CubeStore.AdoptedCubeIsServed`, `RepeatedHash.PermissiveRepeats`).
- The assembler numbers a cube's faces by slot, the placement check by rank; its cubes pass the check only when their
  roots ascend in slot order, which some do and some do not (`SlotVersusRank.PlacedCubePassesIff`,
  `SlotVersusRank.PassesByChance`).
- The report guard is skipped by reports that arrive before their transaction: they are applied unseen when it comes, and
  the workflow counts any new name (`Reports.FlushedAreMembersIff`, `Reports.AnyNameCompletes`).
- A local submission is not checked against what was processed. One submitted again is pooled without attestations, is
  never promoted in any continuation, and is passed by reports, sweeps and age reaping until a drain, the bound or an
  eviction takes it out (`Resubmission.ResubmittedSits`, `Resubmission.PromotableIffNew`).
- An answer off the node's release line clears the back-off without confirming anything, so one forged claim can be
  looked up again at once, any number of times (`Release.ClaimRepeatsIffOffTrack`, `Release.LooksWithoutEnd`). The
  comment that a forged claim costs a bounded number of lookups (packages/core/release.js:233-240) holds between resets.
- A batch gives a raw transaction sent without a key the key another of its signer's messages carried
  (`Gossip.BatchMeansSinglesIff`).
- Repeating an odd last hash keeps a merkle root (`Hashing.OddLeafCollision`); the fixed sizes of faces and cubes are what
  makes the roots binding.

Assumptions stated as hypotheses, never built in: SHA-256 and its 16-digit truncation have no collisions on the shapes
the ledger hashes (`Hasher.CollisionFree`); the two transaction hashes of the workflow tell transactions apart
(`Config.Faithful`; the source hashes `{...txData, validationTimestamp}`, so transactions that differ only in a
`validationTimestamp` field of their own are taken as one). A fixed-width lower-case hex string is the number it
writes, so string order is numeric order.

## Model

| member | source | states |
|---|---|---|
| `SealAgreement.CandidateShape` | packages/consensus/src/seal-agreement.js:22-27 | a candidate is empty exactly below one chunk; otherwise it is the chunk of lowest keys, each below every key left out |
| `SealAgreement.CandidateChunks` | packages/consensus/src/seal-agreement.js:22-27 | for any limit on chunks the candidate is the most whole chunks allowed, the lowest keys of the pool |
| `SealAgreement.CandidateUnique` | packages/consensus/src/seal-agreement.js:14-27 | any sorted chunk of pool keys with nothing smaller left out is the candidate, so the candidate is determined by its meaning |
| `SealAgreement.CandidateStable` | packages/consensus/src/seal-agreement.js:14-21 | the candidate does not move when a key above its top arrives |
| `SealAgreement.CandidateSurvives` | packages/consensus/src/seal-agreement.js:14-27 | removing keys outside the candidate leaves it as it was |
| `SealAgreement.CandidateOrderFree` | packages/consensus/src/seal-agreement.js:22-27 | two pools with the same keys propose the same set, for any arrival order and any number of chunks |
| `SealAgreement.HashAgrees` | packages/consensus/src/seal-agreement.js:29-34 | equal digests exactly for equal contents |
| `SealAgreement.DecideMeans` | packages/consensus/src/seal-agreement.js:36-58 | a decision other than stall names a set with at least quorum ballots and no fewer than any other set; stall exactly when no set reaches the quorum; seal exactly when the winner is my own |
| `SealAgreement.DecideBreaksTies` | packages/consensus/src/seal-agreement.js:46-58 | the order of the ballots breaks ties: a set first named before the winner has strictly fewer ballots, and an adopted set's members are those of its first ballot |
| `SealAgreement.DecideRound` | packages/consensus/src/seal-agreement.js:46-58 | the vote-counting loops compute the decision |
| `SealAgreement.SealQuorumFrom` | packages/core/index.js:48-51 | the least strict majority of the configured leads, so two quorums always share a lead |
| `SealRound.SealRoundManager.OnPeerProposal` | packages/consensus/src/seal-round.js:73-85 | a resolved set whose members are held is answered at once with them and nothing is recorded; any other is recorded for its sender, every other record stays and nothing is sent |
| `SealRound.SealRoundManager.DoTick` | packages/consensus/src/seal-round.js:88-119 | the whole new state, ledger, announcements and action of one agreement step |
| `SealRound.SealRoundManager.RebroadcastDone` | packages/consensus/src/seal-round.js:64-70 | appends, in order, one announcement for each of the last three resolved sets whose members are held |
| `SealRound.SealRoundManager.DoMarkDone` | packages/consensus/src/seal-round.js:123-137 | a newly resolved set is remembered last, with its members held; its tally goes, the others stay, at most 4096 sets are remembered, and the members of the last twelve are held |
| `SealRound.SealRoundManager.CollectVotes` | packages/consensus/src/seal-round.js:104-105 | the votes are exactly the recorded ones, each once recorded and listed set by set in the order the sets were first heard of |
| `SealRound.SealRoundManager.CarryOut` | packages/consensus/src/seal-round.js:108-118 | what each decision does: an adoption succeeds exactly when the pool holds all the named members and they are the set; a stall changes nothing; sealing and adopting move keys into one new face and neither lose nor repeat any |
| `SealProtocol.RunInv` | packages/consensus/src/seal-round.js:64-137 | invariants of every node and every announcement over every run: distinct pools, tallies that were really announced, faces that were really resolved |
| `SealProtocol.TickLedger` | packages/core/index.js:687-693 | what one step may do to the ledger: nothing, or move exactly the resolved set from the pool to the faces |
| `SealSafety.TallyOfRound` | packages/consensus/src/seal-round.js:104-106 | the flattened tally counts, per digest, the distinct nodes recorded for it plus the node itself |
| `SealSafety.VoteProvenance` | packages/consensus/src/seal-round.js:64-119 | whatever is sealed or adopted in any run was the own candidate of at least a quorum of distinct leads |
| `SealSafety.AnnouncementProvenance` | packages/consensus/src/seal-round.js:64-70 | so was, or is, whatever is announced: re-announcing resolved sets never manufactures a vote |
| `SealSafety.SharedProposer` | packages/consensus/src/seal-agreement.js:44-58 | any two resolved sets share a lead that proposed both |
| `SealSafety.Leaving` | packages/cubic-ledger/src/cube-sync-manager.js:172-176 | whatever leaves a pool, resolved or evicted by adopting a cube, leaves with the rest of a set some node had resolved by then |
| `SealSafety.NoSplitBrain` | packages/consensus/src/seal-round.js:88-119 | in a run where no key that left a pool comes back to it, only resolved sets are evicted, and nothing arrives below the top of a candidate (or there are at most two leads, or sets of one key), any two sets resolved anywhere at any times are equal or disjoint |
| `SealSafety.ChainsNeverFork` | packages/consensus/src/seal-round.js:108-111 | the same for the faces any two nodes hold at any two times |
| `SealVouching.AnswersAreKept` | packages/consensus/src/seal-round.js:123-137 | in every reachable state every lead remembers what it resolved, holds the members of its last twelve sets, and keeps no tally of any of them |
| `SealVouching.PeerIsAnswered` | packages/consensus/src/seal-round.js:77-82 | in a run, a lead that holds the members of a resolved set answers whoever announces it |
| `SealVouching.RecentIsAnnounced` | packages/consensus/src/seal-round.js:64-70 | in a run, every tick of a lead announces each of its last three resolved sets again, members and all |
| `SealVouching.VotesStay` | packages/consensus/src/seal-round.js:83-84 | in a run, a recorded vote stays until its node resolves the set |
| `SealVouching.OneMoreVoteSeals` | packages/consensus/src/seal-round.js:88-119 | a lead one vote short on a set that another lead announces to it seals the set at its next tick with it as candidate, whatever happened in between |
| `SealVouching.LateLeadSeals` | packages/consensus/src/seal-round.js:64-119 | a lead one vote short on its own candidate, with no rival set at a quorum, seals it after four steps: it ticks, its announcement reaches a lead that resolved the set and holds its members, the answer comes back, and it ticks |
| `SealVouching.LateLeadArises` | packages/consensus/src/seal-round.js:64-119 | such a lead and such a resolver arise together in a run of every number of leads from two on |
| `SealSplit.SplitIffUndercut` | packages/consensus/src/seal-agreement.js:44-45 | the premise on arrivals is exact, for any leads and chunk: a run whose only undercutting arrivals hand k to nodes proposing x can resolve two overlapping sets if and only if there are three leads or more, chunks of two or more, and k lies below the top of x |
| `SealSplit.SplitIffReturns` | packages/consensus/src/seal-round.js:123-137 | the premise on returning keys is needed: without undercuts and stray evictions a lone lead handed resolved keys again can resolve overlapping sets if and only if its chunks hold two keys or more |
| `SealSplit.StrayEvictionSplits` | packages/cubic-ledger/src/ledger.js:690-721 | the premise on evictions is needed: with three leads or more and chunks of two or more, evicting one unresolved key of a proposed set is enough for two overlapping sets, whatever the set |
| `SealSplit.SplitRun` | packages/consensus/src/seal-round.js:83-84 | such a run, built for every number of leads, candidate and lower key, from votes kept after a node changed its candidate |
| `SealRefinement.RoundSeals` | packages/consensus/src/seal-round.js:88-119 | with equal pools and full delivery one round seals the next chunk at every lead |
| `SealRefinement.RoundsRefineBatch` | packages/cubic-ledger/src/face-sealing.js:60-80 | after r rounds every lead has sealed the first r faces the one-pass seal computes, in order; in the end all of them, with the same remainder shorter than a chunk |
| `SealRefinement.RoundCanHappen` | packages/consensus/src/seal-round.js:88-119 | such a round can always happen, from any state |
| `SealInterleaving.AnyOrderSealsChunks` | packages/consensus/src/seal-agreement.js:14-21 | from equal pools with no arrivals, under every interleaving, loss and repetition, the faces a lead has sealed are different chunks of the sorted pool and its pool is exactly the keys in none of them |
| `Hashing.MerkleBinds` | packages/cubic-ledger/src/cube-sync.js:31-37 | among sequences of one length the merkle root determines the sequence, the duplicated odd leaf included |
| `Hashing.OddLeafCollision` | packages/cubic-ledger/src/cube-sync.js:35-35 | across lengths it does not: repeating an odd last hash keeps the root, for every hash function |
| `Hashing.ComputeMerkle` | packages/cubic-ledger/src/cube-sync.js:31-37 | the pairing loop computes the root |
| `Hashing.MerkleOfFew` | packages/cubic-ledger/src/cube-sync.js:31-37 | the root of one to four hashes spelled out; above that the root is that of the level of neighbours joined in order |
| `Hashing.TxHashAgrees` | packages/cubic-ledger/src/block.js:21-36 | transactions share a hash exactly when xid and kind agree and, for anchors, event, hash and time; none has a hash without a well-formed xid |
| `Hashing.RootsOfSorted` | packages/cubic-ledger/src/cube-sync.js:38-39 | over ascending hashes face and cube roots are merkle roots, and a cube's id is that of its three roots joined in that order |
| `Hashing.FaceRootBinds` | packages/cubic-ledger/src/cube-sync.js:38-38 | face roots agree exactly when the hashes agree as a multiset |
| `Hashing.CubeIdBinds` | packages/cubic-ledger/src/cube-sync.js:39-39 | cube ids agree exactly when the three roots agree as a multiset |
| `Face.Face.AddBlock` | packages/cubic-ledger/src/face.js:13-49 | one arrival: skipped when its hash waits, refused when the face is full, kept otherwise, and the ninth puts all nine in place by hash; a refusal changes nothing |
| `Face.FaceIsOrderFree` | packages/cubic-ledger/src/face.js:13-60 | for any arrival order and repeats, nine distinct hashes give one position map (the rank order) and one root |
| `Face.SealBlocksIntoFaces` | packages/cubic-ledger/src/face-sealing.js:60-80 | for any pool: face k is what the k-th nine of the sorted pool fills, complete exactly when the nine hashes differ; without repeats the faces hold the chunks of the sorted hashes; fewer than nine are left over |
| `Face.FaceOfGroup` | packages/cubic-ledger/src/face.js:13-60 | nine sorted blocks complete a face, in place, exactly when their hashes differ; otherwise the face never fills and holds each hash once |
| `PlacementCheck.VerifyPlacement` | packages/cubic-ledger/src/deterministic-placement.js:208-244 | accepts exactly the legal payloads, answers with every block and face at the number of hashes or roots below its own, and refuses with something wrong |
| `PlacementCheck.RankCounts` | packages/cubic-ledger/src/deterministic-placement.js:215-238 | the place of a key in the sorted list is the number of keys below it |
| `PlacementCheck.CheckerIsExact` | packages/cubic-ledger/src/deterministic-placement.js:208-244 | a cube with all claims present is accepted if and only if its positions are those the Face class assigns, for any arrival order, and its indices the places that sorting the faces by root assigns |
| `PlacementCheck.RankIsPlace` | packages/cubic-ledger/src/deterministic-placement.js:228-238 | with distinct roots the rank the check derives is the index the sorting of faces writes |
| `PlacementCheck.RootOrderSorts` | packages/cubic-ledger/src/placement.js:29-42 | the root order is a permutation of the faces along which the roots ascend |
| `PlacementCheck.SortFacesByHash` | packages/cubic-ledger/src/placement.js:29-42 | orders faces, complete or not, by root and writes each face's place in that order as its index |
| `SlotVersusRank.PlacedCubePassesIff` | packages/cubic-ledger/src/deterministic-placement.js:161-180 | every cube the assembler places from blocks with distinct keys passes the placement check if and only if its roots ascend in slot order: the one numbers faces by slot, the other by rank |
| `SlotVersusRank.PassesByChance` | packages/cubic-ledger/src/deterministic-placement.js:95-98 | for a collision-free hash function and three runs of nine keys, the placed cube passes or not by the residues of the first keys alone, and both occur |
| `Assembler.Route` | packages/cubic-ledger/src/deterministic-placement.js:126-128 | the columns hold the keyed members of each slot in key order |
| `Assembler.SlotByLowDigits` | packages/cubic-ledger/src/deterministic-placement.js:92-98 | keys that agree in their low eight digits share a slot, and a key of no more digits goes by its remainder |
| `Assembler.Assemble` | packages/cubic-ledger/src/deterministic-placement.js:126-138 | complete rows and open rows: as many complete ones as the shortest column is long, row k holding the k-th member of every slot |
| `Assembler.AssembleConserves` | packages/cubic-ledger/src/deterministic-placement.js:122-138 | the complete and the open containers hold each keyed member once |
| `Assembler.LateMembers` | packages/cubic-ledger/src/deterministic-placement.js:34-37 | late members leave every complete container as it was if and only if each sorts after the completed members of its own slot |
| `Assembler.OrderedIsOrderFree` | packages/cubic-ledger/src/deterministic-placement.js:85-90 | with distinct keys the order is a property of the set |
| `Assembler.PlaceFaces` | packages/cubic-ledger/src/deterministic-placement.js:143-158 | the blocks with a key that are stamped or come from above level 1, in key order, fill the faces nine by nine, numbered from the start, each under the root of its own nine; the rest waits, and exactly the others are set aside |
| `Assembler.PlaceCubes` | packages/cubic-ledger/src/deterministic-placement.js:161-180 | one cube per complete row, numbered in order, with the id and root of its own three faces and every location |
| `Assembler.Place` | packages/cubic-ledger/src/deterministic-placement.js:183-187 | blocks to faces to cubes, with the remainders and the blocks set aside, as one function of the blocks |
| `Assembler.CubesFollowSlots` | packages/cubic-ledger/src/deterministic-placement.js:95-98 | the face in slot s of a cube has low-digit root s modulo 3, and later cubes take later roots of the slot |
| `Assembler.RowPlacesEach` | packages/cubic-ledger/src/deterministic-placement.js:168-176 | every block of a cube is placed once, at its position in the face of its slot |
| `Assembler.PlaceIsOrderFree` | packages/cubic-ledger/src/deterministic-placement.js:46-47 | any permutation of blocks with distinct keys gives the same cubes, faces and remainders, and sets the same blocks aside |
| `Assembler.PlaceLosesNothing` | packages/cubic-ledger/src/deterministic-placement.js:143-187 | cubes, open rows, pending and unplaceable blocks hold the input between them, with multiplicity |
| `CubeSync.VerifyCube` | packages/cubic-ledger/src/cube-sync.js:59-106 | a payload is verified exactly when it is acceptable; then its id is the one asked for, its roots are those claimed, and every member carries its transaction's hash and passed the xid, shape and signature checks; a refusal names something wrong |
| `CubeSync.OwnIdOnly` | packages/cubic-ledger/src/cube-sync.js:89-90 | a payload acceptable when nothing is asked for is acceptable for its own id and for no other |
| `CubeSync.SelfCertifying` | packages/cubic-ledger/src/cube-sync.js:6-16 | two accepted payloads have one id if and only if they hold the same three sets of nine hashes with the same consensus bodies, whoever sent them and whatever else was checked |
| `CubeSync.SameHashSameBody` | packages/cubic-ledger/src/block.js:21-36 | blocks accepted with one hash carry one consensus body |
| `CubeSync.PlanAdoption` | packages/cubic-ledger/src/cube-sync.js:119-151 | skip when held; else a row for every member, at the ranks of its face's root and of its hash, and exactly the members in the pool to evict |
| `CubeStore.CubeSyncManager.BuildPayload` | packages/cubic-ledger/src/cube-sync-manager.js:64-84 | serves the join of the rows naming the cube, three faces of nine by face index, or nothing |
| `CubeStore.CubeSyncManager.Adopt` | packages/cubic-ledger/src/cube-sync-manager.js:156-183 | a held cube changes nothing; otherwise cube row and member rows are written, and the pool loses exactly the cube's members |
| `CubeStore.PutAllFacts` | packages/cubic-ledger/src/cube-sync-manager.js:168-172 | the row that survives under a key is the last one written there; others stay |
| `CubeStore.AdoptedCubeIsServed` | packages/cubic-ledger/src/cube-sync-manager.js:64-84 | after adoption into a store where no other row names the cube, it can be served if and only if its 27 hashes are distinct, and what is served is accepted under the same id and root |
| `RepeatedHash.RepeatingIsAccepted` | packages/cubic-ledger/src/cube-sync.js:59-106 | any 26 acceptable transactions with distinct bodies make a cube that repeats a hash across two faces and is accepted, for every collision-free hash function |
| `RepeatedHash.PermissiveRepeats` | packages/cubic-ledger/src/cube-sync-manager.js:64-84 | with permissive checks such a cube exists; adopted into an empty store, it cannot be served |
| `CubeStore.OnlyNamedRowsMatter` | packages/cubic-ledger/src/cube-sync-manager.js:69-75 | later writes that leave the cube's rows alone leave what is served alone |
| `Extraction.AbsoluteIsExact` | packages/cubic-ledger/src/geometry.js:76-162 | coordinates determine cube, face and position, for unboundedly many cubes: locating a block's coordinate gives the block back |
| `Extraction.ExtractInto` | packages/cubic-ledger/src/cube-extraction.js:78-127 | succeeds exactly on whole cubes and appends exactly the leaves of the cube's place |
| `Extraction.ExtractCube` | packages/cubic-ledger/src/cube-extraction.js:135-147 | the leaves depend on the level alone |
| `Extraction.FacesInOrder` | packages/cubic-ledger/src/cube-extraction.js:55-67 | three faces or nothing, always the same three: each at its own index when the indices are 0, 1 and 2, and by hash otherwise |
| `Extraction.LeavesDistinct` | packages/cubic-ledger/src/cube-extraction.js:36-42 | units tile space: the first n units of a level hold n times 27^(level-1) leaves, pairwise apart, each in its unit |
| `Extraction.ExtractionIsInjective` | packages/cubic-ledger/src/cube-extraction.js:78-147 | a level-n cube extracts to 27^n leaves at pairwise different coordinates, for every n |
| `Extraction.PlainCubeLeaves` | packages/cubic-ledger/src/cube-extraction.js:78-127 | a plain cube's leaves are its 27 blocks about the origin, face by face and position by position |
| `LedgerLock.LedgerLock.RunLedgerWrite` | packages/core/control-socket.js:1233-1246 | a running write is joined by its own call and refuses others; an answer is repeated exactly when call, holdings and root are those last applied; otherwise a write starts and what was applied is forgotten |
| `LedgerLock.LedgerLock.SettleWith` | packages/core/control-socket.js:1249-1251 | the reading a write ends with is kept when it is good and signed |
| `LedgerLock.LedgerLock.PromiseResolved` | packages/core/control-socket.js:1255-1259 | the lock is freed only by its own write, and a successful rebuild is remembered with its call, holdings, root and result |
| `LedgerLock.LedgerLock.StartRead` | packages/core/control-socket.js:1277-1283 | during a write a chain call is handed the settled reading, or none; otherwise it reads, noting how many writes have started |
| `LedgerLock.LedgerLock.ReadReturned` | packages/core/control-socket.js:1283-1289 | a reading no write started under is answered as it is and kept when good; any other loses its signature and is not kept |
| `LedgerLock.OneBodyAtATime` | packages/core/control-socket.js:1233-1262 | over every interleaving at most one write body runs |
| `LedgerLock.JoinersGetThatResult` | packages/core/control-socket.js:1235-1236 | whoever starts a write or repeats it while it runs is answered with that write's outcome, and asked for that write |
| `LedgerLock.BodyEndsOnce` | packages/core/control-socket.js:1252-1260 | a write's body ends once, so its callers share one outcome |
| `LedgerLock.RepeatedIsLast` | packages/core/control-socket.js:1240-1242 | a repeated answer is the successful outcome of the last write started, with none running |
| `LedgerLock.RepeatedIff` | packages/core/control-socket.js:1238-1262 | over every interleaving, a call is answered by repetition if and only if the last write started was a rebuild by that very call, completed with that result, leaving exactly the holdings and root there are now |
| `LedgerLock.UndisturbedIsPassedOn` | packages/core/control-socket.js:1283-1289 | over every interleaving, a chain reading that no write started under is answered as it was read, signature and all |
| `LedgerLock.UndisturbedIsHandedOut` | packages/core/control-socket.js:1264-1290 | and, if good, is what a chain call during the next write is handed, until another reading ends |
| `LedgerLock.SignedRepliesAreClean` | packages/core/control-socket.js:1264-1290 | every signed chain reply carries a reading during whose whole interval no write body ran |
| `LedgerLock.SignedRepliesAreFresh` | packages/core/control-socket.js:1245-1251 | when every write closes with a signed reading, a signed reply began after the body of every write that is over |
| `Workflow.Workflow.CompleteValidation` | packages/consensus/src/workflow.js:676-761 | a processed transaction, an unknown task and a failed check change nothing, an invalid signature evicts; any other report promotes exactly when its transaction is pooled and has, with it, enough distinct validators |
| `Workflow.Workflow.MoveToProcessing` | packages/consensus/src/workflow.js:764-833 | the transaction is processed, out of its submitter's pool, stored under the hash of content and clock where this node finalizes, and reported with what it was judged by; reports of one time give that time |
| `Workflow.Workflow.AddValidationTimestamp` | packages/consensus/src/workflow.js:1033-1069 | one attestation per validator, the first one kept |
| `Workflow.Workflow.AverageTimestamps` | packages/consensus/src/workflow.js:1150-1168 | the summing loop: an average lies between the least and the greatest reading, is the reading when all agree, and is the clock when nothing was reported |
| `Workflow.SumAppend` | packages/consensus/src/workflow.js:1162-1167 | the sum over two lists of reports is the sum of their sums, and that of one report its reading |
| `Workflow.Workflow.PromoteSatisfied` | packages/consensus/src/workflow.js:481-517 | promotes exactly when the transaction is pooled and unprocessed, has its validators, and has a recorded set or a node that sees no other lead; otherwise nothing changes |
| `Workflow.Workflow.FinalizeTransaction` | packages/consensus/src/workflow.js:888-958 | the entry's transaction is stored in the final tier under its hash, leaves processing and is reported, or nothing happens |
| `Workflow.Workflow.IngestRemoteTransaction` | packages/consensus/src/workflow.js:322-344 | unless already processed or not admitted, pooled afresh unless refused, with submitter and leader set recorded; no other entry changes |
| `Workflow.Workflow.SubmitTransaction` | packages/consensus/src/workflow.js:275-300 | the same for a local submission, with no check against what was processed |
| `Workflow.Workflow.RecordLeaderSet` | packages/consensus/src/workflow.js:357-365 | a non-empty set is recorded for the transaction and on its pooled entry |
| `Workflow.Workflow.EvictRawTx` | packages/consensus/src/workflow.js:598-606 | out of the pool of the submitter it is mapped to, with the mapping |
| `Workflow.Workflow.AddRawTransaction` | packages/consensus/src/mempool.js:350-405 | refused, unless pooled already, for a tombstone or a full share, otherwise a fresh entry without attestations; no other entry changes |
| `Workflow.EveryEventIsDue` | packages/consensus/src/workflow.js:464-833 | over every run from any restored pool: whatever moved to processing had distinct validators in the required number, or as many as its set has when that is smaller, and goes by its own hashes; whatever was finalized had been promoted before |
| `Workflow.EveryEventIsOnce` | packages/consensus/src/workflow.js:464-833 | over every such run a transaction moves to processing at most once, and a processing entry is finalized at most once |
| `Workflow.RestoredAsSaved` | packages/consensus/src/workflow.js:367-383 | a restart takes a pooled transaction up as it was saved, leader set included, and overrides nothing known since |
| `Workflow.RecoveredIsKnown` | packages/consensus/src/workflow.js:428-438 | recovery names the submitter of a pooled transaction that has none and records the leader set it found |
| `Workflow.BoundedIsOut` | packages/consensus/src/mempool.js:418-436 | bounding the pool takes the entry out and buries it when told to; a mapping to another submitter stays |
| `Tiers.FinalizedIsStored` | packages/consensus/src/workflow.js:888-958 | over every run a finalized transaction is in the final tier, as the transaction promoted earlier under that hash |
| `Tiers.PromotedIsKept` | packages/consensus/src/workflow.js:764-833 | over every run of a node that finalizes, what was promoted waits in processing, is final, or was dropped from processing: it is never lost otherwise |
| `Resubmission.SubmissionIsPooled` | packages/consensus/src/workflow.js:275-300 | an admitted submission is pooled, with no attestations, unless it is tombstoned or its submitter is over its share; whether it was processed plays no part |
| `Resubmission.PooledStep` | packages/consensus/src/workflow.js:656-680 | what was processed and is pooled again leaves a pool exactly by a drain, the bound, or eviction through its submitter; a report, sweep, age reap or peer's copy of it changes nothing |
| `Resubmission.ResubmittedSits` | packages/consensus/src/workflow.js:275-300 | over every run, a processed transaction submitted again with room and no tombstone is pooled in every later state until one of those takes it out |
| `Resubmission.PromotableIffNew` | packages/consensus/src/workflow.js:332-336 | a pooled local submission is promoted in some continuation of the run if and only if it had not been processed when it was submitted |
| `Clock.SumOfPermutation` | packages/consensus/src/workflow.js:1162-1167 | the sum does not depend on the order of the reports |
| `Clock.PanelAverage` | packages/consensus/src/workflow.js:1015-1019 | a quorum of distinct members of a set no larger than the cap is the whole set, so its average is the set's clock |
| `Clock.SameClockEverywhere` | packages/consensus/src/workflow.js:764-791 | two nodes with one recorded leader set, hearing only its members with one time each, promote under the same clock and hash, for any order, repetition and interleaving |
| `Reports.ReportRouter.OnReport` | packages/core/index.js:499-515 | an echo, a repeat and, with the set known, an outsider change nothing; a member's is handed over and marked; before the set is known it waits in order |
| `Reports.ReportRouter.FlushPendingReports` | packages/core/index.js:526-531 | hands over, in order of arrival, the first waiting report of each validator not counted yet, and leaves none waiting |
| `Reports.HandedOnce` | packages/core/index.js:518-531 | the workflow is handed at most one report of each validator for each transaction |
| `Reports.FlushedAreMembersIff` | packages/core/index.js:526-531 | a flush hands over members only if and only if only members were waiting |
| `Reports.OutsiderIsFlushed` | packages/core/index.js:510-514 | an outsider's report that arrives before the transaction is handed over, although the guard would refuse it afterwards |
| `Reports.AnyNameCompletes` | packages/consensus/src/workflow.js:729-759 | one attestation short, any new name completes the quorum |
| `Retry.RetrySweep.RunTick` | packages/consensus/src/validation-retry.js:25-46 | one sweep: which counts and reports survive, each stuck entry's turn taken while its count is below the limit, what each turn sends, in order, and how many were given up |
| `Retry.RetriesRepeatVerbatim` | packages/consensus/src/validation-retry.js:18-23 | a sweep sends only reports stored before, unchanged, and no more often than the retry count has room for |
| `Tasks.TaskNamesItsTx` | packages/consensus/src/validation-tasks.js:14-14 | a task id leads back to its transaction exactly when that id has no colon |
| `Tasks.ValidationTaskManager.AddToIndex` | packages/consensus/src/validation-tasks.js:23-36 | appends to the leader's list unless the id is there, and keeps the index consistent |
| `Tasks.ValidationTaskManager.AssignTasks` | packages/consensus/src/validation-tasks.js:74-81 | each leader gains, in order, the first task of each id it does not have among those that name it, whatever the others get; no task object changes |
| `Tasks.ValidationTaskManager.Hydrate` | packages/consensus/src/validation-tasks.js:38-57 | the same for the stored tasks of the transactions still wanted, each under the leader it was stored for |
| `Tasks.ValidationTaskManager.CompleteTask` | packages/consensus/src/validation-tasks.js:83-89 | completion goes through the one shared object |
| `Tasks.ValidationTaskManager.GetTasksOf` | packages/consensus/src/validation-tasks.js:102-104 | the lookup by transaction is the leader's list filtered by transaction, in order |
| `Tasks.ValidationTaskManager.ClearTasksForRawTx` | packages/consensus/src/validation-tasks.js:125-135 | each leader keeps its other tasks in order |
| `Tasks.InsertKeeps` | packages/consensus/src/validation-tasks.js:23-36 | taking a task in keeps both sides of the index in agreement |
| `Tasks.ClearKeeps` | packages/consensus/src/validation-tasks.js:125-135 | so does clearing a transaction, and no empty leader remains |
| `Tasks.IndexAlwaysConsistent` | packages/consensus/src/validation-tasks.js:16-135 | after any sequence of restores, assignments and clears both sides hold the same task objects in the same order, with no empty leader or transaction |
| `Tasks.AssignAgainChangesNothing` | packages/consensus/src/validation-tasks.js:26-28 | a re-assignment leaves the index as it was, so a completed task is not reset |
| `Gossip.ConsensusGossip.Enqueue` | packages/consensus/src/gossip.js:164-180 | the message joins what waits, unless it would take a non-empty outbox over the cap: exactly then what waited goes out as one batch first; order is kept |
| `Gossip.ConsensusGossip.Flush` | packages/consensus/src/gossip.js:183-199 | everything waiting goes out as one wire message, once; a single message goes out as it came in, key and all |
| `Gossip.Receiver.HandleMessage` | packages/consensus/src/gossip.js:216-250 | the events of a message or of each item of a batch |
| `Gossip.EventsTellAll` | packages/consensus/src/gossip.js:216-250 | events are equal exactly for equal messages, so a receiver learns all a message says |
| `Gossip.BatchMeansSinglesIff` | packages/consensus/src/gossip.js:236-247 | a batch causes the events of its messages one by one if and only if each raw transaction carries the last key its signer gave in the batch |
| `Gossip.SentMeansSinglesIff` | packages/consensus/src/gossip.js:183-199 | the same over everything sent, in order and exactly once |
| `Gossip.OneKeyEachIsEnough` | packages/consensus/src/gossip.js:6-16 | so signers that keep to one key are never misread, wherever the flushes fall |
| `Gossip.ChargeCovers` | packages/consensus/src/gossip.js:170-178 | the accounted bytes are never less than those of the items and keys sent, so a batch of several stays within the cap |
| `CanonicalJson.DecodeCanon` | packages/cubic-ledger/src/anchoring-normalizer.js:42-53 | a decoder recovers the normal form from the tokens, whatever follows them |
| `CanonicalJson.CanonIsFaithful` | packages/cubic-ledger/src/anchoring-normalizer.js:42-53 | two plain values get the same text if and only if they are equal up to field order and undefined fields |
| `CanonicalJson.NormIffSame` | packages/cubic-ledger/src/anchoring-normalizer.js:42-53 | normal forms agree exactly for equal values |
| `CanonicalJson.CanonIsOrdered` | packages/cubic-ledger/src/anchoring-normalizer.js:48-52 | what is written reads back with the keys of every object, at every depth, in ascending code-unit order and no field undefined |
| `Release.PeerReleaseTrigger.OfferVersion` | packages/core/release.js:247-257 | a look exactly for a claim on the line, newer than what runs and what is confirmed, once the wait is over; it starts the next wait and doubles the one after up to the cap; the highest claim is kept, granted or not |
| `Release.PeerReleaseTrigger.SettleVersion` | packages/core/release.js:259-263 | a newer release on the line is confirmed; one no older than the highest claim ends the wait and clears the claim, on the line or not |
| `Release.Compare` | packages/core/release.js:55-63 | versions compare as numeric triples |
| `Release.LooksAreSpaced` | packages/core/release.js:233-240 | between resets, look k+1 comes at least min(minMs * 2^k, maxMs) after look k, counted from 0, whatever is offered |
| `Release.ResetConfirmsNewer` | packages/core/release.js:259-263 | a reset confirms a strictly newer version exactly when the answer is on the node's line; otherwise it confirms nothing |
| `Release.ClaimRepeatsIffOffTrack` | packages/core/release.js:259-263 | after a reset the same claim is granted another look at once if and only if the answer was off the line |
| `Release.LooksWithoutEnd` | packages/core/release.js:233-263 | one claim of a relevant version, answered each time by a latest at least as new and off the line, is looked up any number of times at one moment |
| `Release.ResetsNeedNewerVersions` | packages/core/release.js:259-263 | when answers are on the line and never decrease, each reset needs a strictly newer answer than every reset before it |
| `DigitalRoot.DigitSumFacts` | packages/cubic-ledger/src/digital-root.js:28-30 | digit summing keeps the remainder modulo 9 and shrinks every number above 9 |
| `DigitalRoot.DigitalRootOf` | packages/cubic-ledger/src/digital-root.js:28-32 | the loop ends at 1 + (n - 1) mod 9, the Rust closed form, for every n except 0, which gives 9 |
| `DigitalRoot.DigitalRootOfHash` | packages/cubic-ledger/src/digital-root.js:39-48 | the same over the sum of a hash's hex digits |

## Left out

- SealProtocol: a tick is one atomic step, although `sealSet` and `adoptSet` are awaited inside it; the voters are the configured leads, each known by its number, because sender ids are not authenticated in the source either.
- SealProtocol: member ids are the keys themselves, and a proposal always carries them; at level 1 the source's ids are prefixes of the keys.
- SealRound.SealSet: sealing by its contract: exactly the given items leave the pool, or nothing happens; the ledger behind it (`ledger.js`) is not part of this model.
- SealProtocol: which keys an eviction takes is an input of the step; that an adopted cube's faces are sets the leads resolved is the premise `EvictsResolved`, not derived from the cube.
- SealSplit.SplitIffReturns: the run that splits is built for a single lead; that the premise is needed with more leads is not shown.
- SealVouching.LateLeadSeals: one fixed schedule of four steps; that delivery ever happens is up to the network, which loses messages. SealVouching.OneMoreVoteSeals allows any steps in between.
- SealInterleaving.AnyOrderSealsChunks: no arrivals or evictions; that every chunk is sealed in the end is shown for rounds with full delivery only (SealRefinement.RoundsRefineBatch).
- SealRefinement.RoundsRefineBatch: every lead starts from one pool and hears every announcement of a round before its second tick; loss and late arrivals are the subject of SealSafety.
- Hashing: SHA-256 is a parameter. Locale-aware comparison of hashes is code-unit order, which it is on lower-case hex.
- PlacementCheck.VerifyPlacement: a block without a hash is refused; the source falls back to its id. The whole payload being absent or shaped as `members` is not modelled.
- PlacementCheck.SortFacesByHash: returns the faces as places in the input instead of a map; a face that holds nine pending blocks unsorted, which adding blocks never leaves, is not sorted first.
- Assembler: `placeLevel` (the same rule one level up), and keys of mixed width, whose string order is not numeric.
- CubeSync.VerifyCube: the xid proof, the shape check and the signature check are predicates; malformed objects that are not faces or blocks at all.
- CubeSync.PlanAdoption: the `neverSeen` mark and the constant flags of the plan, which adoption does not read.
- CubeStore: rows that do not parse, database errors, requests in flight and their expiry, digests and `diffWanted`. Face indices of rows are compared as numbers; the source sorts them as text, which agrees on single digits.
- Cube.addFace, average timestamps, `Block` objects and their coordinates fields.
- Extraction.ExtractCube: magnitudes (square roots) and the bytes of the serialization; the fallback sort does not write the face indices back; the timestamp fallback of cube numbers.
- LedgerLock: the bodies of the writes, running times in replies, and operations outside the lock. A write whose key computation throws.
- Workflow: each method is one atomic step; at the granularity of `await`, `moveToProcessing` has no check of its own. The ingress guards, the signature check and the lookup of the validation task are inputs of the step. UTXO locks, persistence and time stamps of entries are left out, so eviction by age or by the pool bound is a step that may happen at any time.
- Workflow.AverageTimestamps: how a reported number becomes nanoseconds is a parameter, since the source multiplies floating-point milliseconds.
- Clock.SameClockEverywhere: assumes what routing does not enforce for early reports (see Reports.FlushedAreMembersIff), and that recovery re-records the same set.
- Tiers.PromotedIsKept: an entry may be dropped from processing at any time; the rule for dropping it, and the sweep that drops aged entries of the final tier, are not part of this model.
- Recovery's rule for which transactions are stranded, and its claim that it only shrinks a requirement, which fails when no set was recorded.
- Reports: a report whose application throws is not taken back; the node's own reports enter through the workflow.
- ValidationWorker: claim-before-await and the pruning of claims.
- Tasks: the store behind the index, of which `CompleteTask` and `AssignTasks` also write a slice.
- Gossip: transports, the list of recent broadcasts, the choice to batch, and the order of unbatched messages relative to waiting ones. Commas between items and the envelope of a batch are not in the byte count, as in the source.
- CanonicalJson: the text of a scalar or a key is one token; an undefined array element or top value.
- Release: how a version is parsed from text; the release line is a predicate on versions.
- DigitalRoot.DigitalRootOf: unbounded integers; the JavaScript sum of 64 hex digits stays far below any limit.
- LevelDB, libp2p, WebTorrent, sockets, wall clocks and environment tuning; zero-knowledge and signature schemes; the other crates, the UI, browser and desktop code; the visual contract builder.
