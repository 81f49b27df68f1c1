# The commit pipeline of a DAG-based BFT node, in Dafny

Loom is a consensus node in which every member proposes a line of blocks that reference
blocks of other members. This project models what one node does with them: it stores blocks in
per-author windows, learns leaders from elections, pulls the uncommitted history of a leader
block, executes it in a fixed order, and cleans up. Around that sit the counters that decide
when the node proposes or reveals a leader, the transaction ring buffer, and the book of
outstanding block requests.

`dafny verify dfyconfig.toml` checks the whole project.

## How it is built

- `CausalGraph`, `CommitOrder`, `Anchors`, `Pull`, `Batches`: what a commit does, said without its
  loops. A history is the set of slots reachable along references; the k-th batch is the k-th
  anchor's history minus the earlier ones, in the one order the comparator allows.
- `Commitor`: the two procedures of the commitor as loops over a queue and a shrinking map,
  proved to compute exactly that.
- `Replay`: the log of a sequence of submissions as a function of blocks and submissions.
- `Store`, `Window`, `Dag`, `References`: the dag as a plain map with watermarks; the class over
  sliding windows refines it handler by handler.
- `Pipeline`, `Leaders`, `Contiguity`, `Progress`: the dag, the commitor and the environment as one
  state machine over events, and theorems about every run of it.
- `Witnesses`, `HonestNet`: runs of that machine, from its initial state, at which the code does not
  keep what its comments promise.
- `Quorum`, `Aggregator`, `Elector`, `Elections`, `Proposer`: thresholds, counters, leader
  elections and the proposing node, with theorems about every run.
- `TxQueue`, `Retriever`, `Retrievals`: the ring buffer and the request book.

Each imperative entity is a class whose methods are proved equal to a function on values; the
whole-run theorems are about those functions.

## What the results assume

The code does not enforce these; each is an explicit hypothesis where it is used.

- One block per slot (`Keyed(u)`, and the network delivers from one map `u`); authors lie in 0 .. n-1.
- `Descends`: no block reaches a higher block of its own author. Where a commit needs it, the exact
  condition (`NotRaised`) is proved, and `RaisedAnchorLosesBlock` shows the loss without it.
- `Acyclic`, and that the submitted slot is of the submitted round: only where a raised anchor is
  shown to lose a block (`PartitionExact`, `LosesWhenRaised`). `AnchorRound` gives the second for
  every leader that is `Honest`, that is, whose headers form one chain of proposals.
- `Agreed`: every request for a round names the same leader (`ParentClosedRun`, `CoveredRun`).
- `ParentClosed`: every block references its author's previous block. The code does not keep this
  (see below); `CoveredRun` needs no such hypothesis and says exactly when nothing is lost.
- `Disciplined`: no commit request is handled while a submission is under way, and requests are
  for distinct even rounds. The second half follows from the election (`ElectedDiscipline`). On
  the first, `CleanupFindsItsOwn` proves that, over all runs whose requests are for new even rounds,
  a submission stays the pending one exactly as long as no request is handled; `CleanupCanCrash`
  is a run that violates it and ends in a nil dereference.
- Peers send one elect per round (`Proper`), fewer than a threshold of them elect odd rounds
  (`MostlyEven`), and echoes carry a header the node proposed (`Runs`).

## Where the code falls short of its comments

- "Only take once" (core/aggregator.go:33) is true exactly for committees not of size 2, 3 or 6; for
  those sizes a node can propose one slot twice and reveal one leader twice.
- "If collected n-f refs, enter a new round" (core/core.go:116): the test `len(ref) > 1` is a quorum
  test except in the two corner cases of `QuorumTestExact`. `EntryWithoutQuorum` is a run of four
  honest members in which one enters a round on two of the three references it needs.
- "Otherwise the ref is Plain and only points to the parent block" (core/dag.go:127): when the other
  references make a quorum, the parent is left out unless it qualifies itself
  (`OwnHeaderReferenced`). A commit can then put an honest block under the watermark without
  executing it: `HonestBlockLost` is such a run, and `CommitCoversExact`, `ReplayCoversExact` and
  `CoveredRun` say exactly when it does not happen.
- "Commit anchors in sequence to guarantee total order" (core/commitor.go:123): a commit executes all
  it pulled exactly when the submitted round's anchor is not raised. `RaisedAnchorLosesBlock` is a
  run in which a leader that equivocates loses the block the dag submitted.
- A parked pull is not unregistered when answered (core/dag.go:94-96); `RepeatedPushBlocks` says when a
  second delivery of a block would block the dag, and `RepeatedDeliveryBlocks` is a run up to one.
- A request handled between a commit and its cleanup replaces the pending commit the cleanup reads
  (core/dag.go:155-181, 222): `CleanupFindsItsOwn` and `CleanupCanCrash`.
- The pool loses or reorders transactions exactly when a batch is not smaller than the ring.
- A digest asked for again after its reply makes the request book loop a block back too early.

## Model

| member | source | states |
|---|---|---|
| Commitor.CommitAnchor | core/commitor.go:20-64 | executes exactly the anchor's history inside the pulled map and deletes exactly it: the anchor's author last, the other authors in ascending order, each author by height |
| Commitor.Traverse | core/commitor.go:24-40 | the queue traversal terminates and visits each slot of the history once and no other |
| Commitor.Execute | core/commitor.go:59-63 | executes the ordered slots once each and removes just those |
| Commitor.Commit2 | core/commitor.go:66-137 | the executed sequence is the declarative commit log and the cleanup carries the highest pulled height per author; an already committed slot sends no cleanup |
| Commitor.CommitRounds | core/commitor.go:123-132 | committing over the shrinking map equals the reference that never shrinks it |
| Commitor.PullAll | core/commitor.go:71-109 | terminates with exactly the uncommitted history of the submitted slot and its anchor table |
| Commitor.Watermarks | core/commitor.go:115-121 | each author with a pulled block is mapped to its highest pulled height |
| Commitor.SortedRounds | core/commitor.go:123-128 | the anchor rounds in ascending order |
| CommitOrder.SortSlots | core/commitor.go:42-57 | the result is the unique listing of the input set with the leader last, other authors ascending, heights ascending |
| CommitOrder.OrderExact | core/commitor.go:42-57 | a list is sorted by the comparator if and only if it is in that order |
| CommitOrder.ListingUnique | core/commitor.go:42-57 | two sorted listings of one set are equal: traversal order and sort algorithm cannot show |
| CommitOrder.PrefixExtension | core/commitor.go:42-57 | raising an anchor along plain own blocks only appends them, if and only if the lower history holds no higher block of that author |
| Anchors.RaiseAnchorKeeps | core/commitor.go:96-104 | one table update keeps every round at its highest candidate |
| Anchors.AnchorsUnique | core/commitor.go:96-104 | the anchor table is independent of the order in which blocks are pulled |
| Anchors.AnchorsExact | core/commitor.go:71-104 | which rounds get an anchor, in numbers: every pulled block of a known leader's uncommitted round above the round's first block is at or below its round's anchor, and every anchor but the submitted slot is such a block |
| Batches.AnchorFirst | core/commitor.go:123-132 | the history of a round's anchor is executed before any slot outside the histories of the anchors up to that round |
| Batches.EarlierLeaderFirst | core/commitor.go:96-132 | a pulled block of an earlier known leader gives an anchor of that leader and round, at or above it, whose whole history is executed first |
| Pull.PullTake | core/commitor.go:88-109 | pulling a block keeps the pulled set inside the history with every open reference queued |
| Pull.PullDone | core/commitor.go:77-109 | an empty queue means the pulled map is the whole uncommitted history and nothing was missing |
| Batches.LogPartition | core/commitor.go:130-132 | the batches partition the union of the anchors' histories: each slot once, no other |
| Batches.ShrinkStep | core/commitor.go:59-63 | an anchor's history in the shrunken map is its history minus the earlier ones |
| Batches.AnchorPartition | core/commitor.go:123-132 | if the submitted round's anchor is not raised, nothing pulled is left once it is done and the log is the pulled set without repetition |
| Batches.PartitionExact | core/commitor.go:96-132 | in an acyclic history a commit executes all it pulled if and only if no pulled leader block of the round is above the submitted slot |
| Batches.CommitCausal | core/commitor.go:24-40 | every reference of an executed block is in the same or an earlier batch, or was at or below the watermark |
| Commitor.DescendsNotRaised | core/commitor.go:96-104 | if no block reaches a higher block of its author, anchors are never raised |
| Commitor.LosesWhenRaised | core/commitor.go:96-137 | every raised anchor leaves the submitted block unexecuted below the new watermark |
| Witnesses.RaisedAnchorLosesBlock | core/commitor.go:96-137 | a run (deliveries, request, commit) after which the slot the dag submitted is not in the log and lies below the watermark |
| Replay.CommitWindow | core/commitor.go:88-137 | a commit executes only slots above the old watermark and at or below the new one, once each; watermarks never fall |
| Replay.ReplayOnce | core/commitor.go:157-162 | no sequence of submissions executes a slot twice |
| Replay.CommitCoversExact | core/commitor.go:77-132 | a commit that is not raised executes exactly what it puts under the watermarks if and only if the pulled history skips no height |
| Replay.ReplayCoversExact | core/commitor.go:77-132 | over any sequence of sound submissions the log is exactly what the watermarks moved over if and only if none of them pulled a gap |
| Replay.ReplayParentClosed | core/commitor.go:106-132 | over parent-closed histories the executed set is exactly what lies at or below the watermarks |
| Replay.ReplayProjection | core/commitor.go:106-132 | each author's executed heights are 0, 1, 2, ... up to its watermark |
| Window.PushRefines | core/dag.go:81-91 | writing at the offset, growing the line if needed, is a map update |
| Window.CutRefines | core/dag.go:211-219 | slicing at a held slot is a cut at the new watermark and the bound is inside the line |
| Dag.Dag.constructor | core/dag.go:22-40 | starts with no blocks, watermarks -1 and committed round -2 |
| Dag.Dag.Get | core/dag.go:42-49 | agrees with lookup in the plain map |
| Dag.MissingExact | core/dag.go:51-65 | what is reported are the items whose slot is neither held nor at or below the watermark, and a longer request reports an extension |
| Dag.Dag.Check | core/dag.go:51-65 | reports, in order, exactly the headers neither held nor committed |
| Dag.Dag.Push | core/dag.go:68-97 | inserts unless committed; tells whether a parked pull is answered |
| Dag.Dag.Pull | core/dag.go:183-204 | committed, found or parked exactly as the plain map says |
| Dag.Dag.Clean | core/dag.go:206-233 | cuts the map at the new watermarks, retires leaders up to the pending round, forgets parked pulls |
| Dag.Dag.IsAnchorReady | core/dag.go:139-146 | true if and only if every second round up to the given one has a known leader |
| Dag.Dag.ScanTop | core/dag.go:166-178 | finds the leader's highest block two or more above its round's first, or that there is none |
| Store.SubmissionExact | core/dag.go:148-181 | for every store and request, in numbers: which commit is considered, if and only if when it is submitted, which slot, with which leaders, and what stays pending |
| Dag.Dag.HandleCommitReq | core/dag.go:148-181 | the exact new state and submission for every request, including delayed and failed ones |
| Dag.Dag.QualifiedLatest | core/dag.go:106-124 | the author's latest header if and only if it counts towards round entry |
| Dag.Dag.HandleRefReq | core/dag.go:100-137 | the reply is the qualified latest headers, or the own latest block |
| References.ReplyExact | core/dag.go:100-137 | which headers a reply holds, in numbers: later rounds, or two blocks above the first in even rounds and one in odd ones; below a threshold of them the own latest header |
| References.QualifiedExact | core/dag.go:105-125 | the list has one header per author and holds exactly the qualified latest headers |
| References.QuorumTestExact | core/core.go:116-118 | a reply longer than one header means a quorum if and only if neither of two corner cases holds |
| References.OwnHeaderReferenced | core/dag.go:106-134 | a reply holds the own latest header if and only if fewer than a threshold qualify or that header does |
| References.RoundEntryNeedsQuorum | core/dag.go:100-137 | for n >= 4 and a non-empty own line the reply is the own block alone or a threshold of distinct qualified authors |
| Pipeline.InvStep | core/dag.go:235-255 | every event keeps the pipeline invariant: log and watermarks are a replay of the finished submissions |
| Pipeline.ExecutedOnce | core/commitor.go:88-137 | in no reachable state of any interleaving has a slot been executed twice |
| Pipeline.Confluence | core/commitor.go:66-137 | runs that finished the same submissions have the same log and watermarks, whatever the arrival order and schedule |
| Pipeline.PrefixConsistency | core/commitor.go:157-162 | a run that finished more of the same submissions extends the log |
| Pipeline.SubmissionsInOrder | core/commitor.go:157-162 | in every run the submissions finished, under way and waiting are all those made, in order: none lost, repeated or overtaken |
| Pipeline.CleanupUnblocks | core/dag.go:228-232 | right after a cleanup no delivery, first or repeated, blocks |
| Pipeline.RepeatedPushBlocks | core/dag.go:93-96 | in every reachable state a delivery blocks the dag exactly if the slot is registered, uncommitted and was delivered before |
| Witnesses.RepeatedDeliveryBlocks | core/dag.go:93-96 | a run in which a parked slot is delivered once and a second delivery would block |
| Pipeline.HandlersSafe | core/dag.go:210-219 | no first delivery blocks, and every cleanup names slots inside the windows |
| Leaders.ParentClosedRun | core/commitor.go:106-132 | in every run over a parent-closed, descending history each author's log is 0, 1, 2, ... up to its watermark |
| Leaders.CoveredRun | core/commitor.go:77-132 | in every run over a descending history the log is exactly what the watermarks moved over if and only if no finished commit pulled a gap |
| Progress.CommitCompletes | core/commitor.go:66-137 | from every state that satisfies the pipeline invariant, an idle commitor finishes the next submission whose history has arrived by its own steps alone |
| HonestNet.HonestBlockLost | core/dag.go:100-137 | a run of four members whose every block is what the proposer's rule gives, after which a delivered block is below the watermark and not in the log |
| HonestNet.EntryWithoutQuorum | core/core.go:116-118 | the same run after its cleanup: an empty own line, two qualified authors of the three needed, and a reply of more than one header |
| Leaders.SubmissionOfRound | core/dag.go:166-177 | a submission two below an honest leader's strong block is of the submitted round |
| Leaders.AnchorRound | core/dag.go:166-177 | so is every finished submission of every run |
| Contiguity.LeaderContiguity | core/dag.go:139-227 | in every disciplined run the committed round is even, leaders up to a submission under way are all known, and each cleanup raises the committed round strictly to its own submission |
| Contiguity.HighestSubmitted | core/dag.go:153-177 | in every disciplined run each submission is for the highest round whose leader is known when it is made |
| Contiguity.FreshIsHigher | core/dag.go:153-162 | a fresh request is always above a submission under way |
| Contiguity.CleanupFindsItsOwn | core/dag.go:155-222 | in every run from a state with a submission under way, with requests for new even rounds at any points between pushes, pulls and cleanups, that submission is still the pending commit if and only if no request was handled |
| Contiguity.ElectedDiscipline | core/core.go:213-229 | if fewer than a threshold elect odd rounds, requests handled in the order the elector announced them, each with nothing under way, make a disciplined run |
| Witnesses.CleanupCanCrash | core/dag.go:180-222 | a concrete run in which a cleanup finds no pending commit |
| Quorum.ThresholdsExact | core/config.go:76-86 | the thresholds are 2f+1 and f+1 exactly for 3f+1 up to 3f+3 members |
| Quorum.TwoQuorumsFit | core/config.go:76-80 | two disjoint quorums fit exactly for n = 2, 3, 6 |
| Quorum.QuorumOverlap | core/config.go:76-86 | quorums overlap in at least 2T - n members, which is the low threshold exactly for n = 3f + 1 |
| Aggregator.Aggregator.Push | core/aggregator.go:21-27 | one message per author is kept, in arrival order |
| Aggregator.Aggregator.Take | core/aggregator.go:29-41 | hands out all items but consumes a threshold of them, or nothing below the threshold |
| Aggregator.TakesConserve | core/aggregator.go:21-41 | in every run the batches consumed, concatenated and followed by the waiting items, are the first message of each author in order of arrival |
| Aggregator.FirstTakeReturns | core/aggregator.go:29-41 | the first successful take returns exactly the first message of each author counted before it |
| Aggregator.TakeBound | core/aggregator.go:21-41 | successful takes times the threshold never exceed n |
| Aggregator.TakeOnceExact | core/aggregator.go:29-41 | at most one take succeeds in every run if and only if n is not 2, 3 or 6 |
| Aggregator.TakesOverlap | core/aggregator.go:21-41 | the authors of what the first successful takes of any two counters return overlap in at least 2T - n members |
| Aggregator.Count | core/core.go:179-189 | counts a vote under its key, creating the counter on first use; the other counters stay as they were |
| Elector.Reveal | core/aggregator.go:91-97 | the leader is (((b0 * 256 + b1) * 256 + b2) * 256 + b3) modulo n for the first four signature bytes |
| Elector.Elector.Add | core/aggregator.go:59-89 | counts the elect, and on a quorum stores the leader or fails with the quorum consumed |
| Elector.Elector.RemoveBy | core/aggregator.go:106-109 | forgets the round's leader and counter and nothing else |
| Elector.Elector.HandleElect | core/core.go:213-229 | the commit request sent, if any, and the exact new state |
| Elections.RevealsCostVoters | core/core.go:213-229 | each reveal of a round, and each quorum that fails to combine, costs a threshold of its distinct voters although the counter is dropped |
| Elections.FailedRoundSilent | core/aggregator.go:69-86 | for n not 2, 3 or 6, once a combination fails the round's leader is never revealed |
| Elections.OneRevealExact | core/core.go:213-229 | at most one commit request per round in every run if and only if n is not 2, 3 or 6 |
| Elections.DistinctEvenRounds | core/core.go:213-229 | if fewer than a threshold elect odd rounds, the dag is asked for even rounds only, each at most once (n not 2, 3 or 6) |
| Elections.AnnouncedLeader | core/core.go:213-229 | a leader is announced exactly if the elect completes a quorum and the shares combine; it is the member the bytes name, the round starts over without votes and other rounds keep theirs |
| Proposer.GenerateBlock | core/core.go:108-134 | the block continues its round or opens the next, with an elect exactly on leaving an even round |
| Proposer.Proposer.HandleEcho | core/core.go:170-194 | proposes the next height exactly when the echo completes a quorum |
| Proposer.ChainRounds | core/core.go:116-134 | all heights from a block's first reference height up to it share its round |
| Proposer.NoSelfEquivocation | core/core.go:170-194 | in every run heights are proposed once each in order, each after a quorum of echoes, each in its predecessor's round or first of the next, and elects are 0, 2, 4, ... |
| Proposer.NoEquivocationExact | core/core.go:170-194 | no run proposes one slot twice if and only if n is not 2, 3 or 6 |
| TxQueue.TxQueue.constructor | pool/pool.go:21-39 | an empty ring with read index -1 |
| TxQueue.TxQueue.Receive | pool/pool.go:43-54 | one transaction is refused, queued, or completes a batch |
| TxQueue.TxQueue.Run | pool/pool.go:41-55 | the ring after a whole input stream |
| TxQueue.TxQueue.Make | pool/pool.go:57-73 | the next entries in ring order leave as one numbered batch |
| TxQueue.RingConserves | pool/pool.go:41-73 | batches sent followed by what is queued are the input in order, and nothing is refused |
| TxQueue.ConservationExact | pool/pool.go:41-73 | that holds for every input if and only if a batch is smaller than the ring |
| TxQueue.BatchNumbersUnique | pool/pool.go:57-73 | of all batches any two nodes send on any inputs, two have the same number if and only if they are the same batch of the same node |
| Retriever.Retriever.Request | core/retriever.go:74-96 | enters a request and asks only for digests not already pending |
| Retriever.Retriever.Reply | core/retriever.go:97-113 | answers the request's digests for all their waiters; unknown replies change nothing |
| Retrievals.BookTheorem | core/retriever.go:73-113 | in every run pending is the disjoint union of outstanding digests and no request loops back twice; without repeats loopback fires exactly when the last reference is answered |
| Retrievals.LoopsBackItsOwn | core/retriever.go:74-106 | in every run the block kept for the id-th request is the one it was made for, and only entered requests are looped back |
| Retrievals.RequestCountedExact | core/retriever.go:74-96 | a new request keeps all counts right if and only if it repeats no answered digest |
| Retrievals.RepeatLoopsBackEarly | core/retriever.go:97-113 | a concrete run in which a repeat loops a block back too early |

## Left out

- Agreement between nodes that commit different submissions: the code does not establish it; the same submissions give the same log (`Pipeline.Confluence`).
- Sharing of the leader map between dag and commitor: a submission carries a snapshot, so the data race on that map is not captured.
- Channel capacities and delivery: each handler is one atomic step, and a pull waits until its block is delivered; that every block is delivered is not claimed.
- Dag.Dag.Check: the handler exists but the dag's loop never dispatches to it (core/dag.go:241-253).
- Retriever: nothing in the repository calls its request entry point (core/retriever.go:131-139); retries after a timeout re-send the same digests and change no modelled state.
- SortSlots: the library sort is replaced by insertion; the result is proved independent of the algorithm.
- Elector.Elector.Add: combining threshold shares is an input of the model, including its failure; hashing and key encoding are not modelled.
- Elector.Reveal: the seed is an unbounded integer, as four bytes never exceed a 64-bit integer.
- Validation of blocks, echoes and requests by signature, block storage, and answering other nodes' requests (core/core.go:147-168, core/retriever.go:141-184): they drop a message or pass it on unchanged, so the model starts from the messages that got through.
- Payload batches inside blocks and taking a batch from the pool (pool/pool.go:75-84): no modelled decision reads them.
- Networking, message encoding, configuration, logging, transaction generation and the benchmark scripts.
