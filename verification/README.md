# Runkod's change protocol, modelled and proved

`runkod` is a daemon that receives git pushes as Changes, derives stacks of them, keeps
the stacks rebased, lands them on trunk, and mirrors trunk to another host. This project
models that protocol and the algorithms around it in Dafny, and proves what it promises:
over every push, every run and every interleaving the model allows.

## How it is modelled

- **Changes and git.** A commit is a first parent, a Change-Id trailer, a message and a
  tree (a map from cell to content). A repository is a sequence of commits in which
  parents come first; a commit's index is its name, so a minted commit is fresh. Trunk is
  an append-only sequence. A rebase is a cell-wise three-way merge that is clean or
  conflicts. Change-Ids, principals, workspaces and branches are opaque names, 0 standing
  for the empty string. (`Changes`, `Git`)
- **The store** is one `State` value: rows, refs, approvals and check runs, workspaces,
  and a `log` that no operation reads and that lets run properties speak of the past.
  `Receive`, `Sync`, `Landing` say what one request does to it, and `Runs.After` what any
  sequence of requests does. `Server` holds the same state in fields, and its loops are
  proved to compute exactly those functions.
- **What an operation does, exactly**: `PushLaw`, `ReviewLaw`, `SyncClean`, `SyncLaw` and
  `LandLaw` say for pushes, reviews, syncs and lands when they are taken and what they leave,
  entry by entry, in terms of commits, rows, trees and reviews alone.
- **Overlapping requests**: `SyncRaces` and `WritePhases` take a sync's write phase step by
  step (the swap of a ref, the write of its row, the carried results) and let anything happen
  before each step; `LandRaces` lets anything happen after a land read its row, between its
  gate and its first attempt, between each attempt's read of trunk and its compare-and-swap,
  and between the swap that holds and the mark of the row. `SyncRaceRuns` and `LandRaceRuns`
  hold the runs in which that goes wrong.
- **The gate**: `Owners` finds who owns a path, `Policy` what the trees, the org and the
  caller ask of a Change, `MergeGate` exactly when it may merge and land, and `Governed` what
  that guarantees over whole runs. How a tree
  names its cells and declares its projects is a parameter (`Policy.Org`).
- **Stacks** are never stored: `Stacks` derives them from base and head as the daemon
  does, and `Forest` says what that derivation lists on any parent relation, cyclic ones
  included.
- **The mirror** (`Mirror`) is a state machine in which every read and write of the worker
  is a step of its own, between lands, foreign writers and unfreezes; `MirrorWorker` is
  the worker's code, whose runs are runs of that machine.
- **The event bus** (`BusMachine`, `EventBus`) has the same two forms: interleaved steps,
  and objects whose methods are runs of them.
- **Parsers and the rest**: the dependency cone (`Cone`), the unified-diff and blame
  parsers with printers to round-trip against (`Diff*`, `Blame*`), and the in-place
  sliding-window limiter (`Limiter`).

## Facts worth knowing

- A Change's approval is bound to its head alone. Pushing the series A, B, A twice records
  B's head on trunk first and on the lower A the second time, and the approval then counts
  for a change nobody approved (`Rebinding`). It cannot happen to a Change as long as every
  push knows the Change named by the nearest commit below it that names another one; `Bound`
  proves that this guard is exactly when a head keeps the base it determines, and
  `Trails.TrailsCoverIff` exactly which recorded bases do no harm.
- A sync has no step that mints the policy check, so a rewritten head whose findings were
  not acknowledged loses its policy run (`SyncReviews.SyncCarriesRun` says exactly when it
  keeps one).
- An unfreeze sanctions one overwrite, and each lost cursor write one more
  (`Mirror.OverwritesOnce`, `Mirror.StuckOverwritesTwice`).
- A sync promises to leave alone what a push moved meanwhile (`runkod/sync.go:141-146`). The
  compare-and-swap guards the ref, and the row is written after it unconditionally: a push
  taken in between is overwritten, and leaves the row at a head its ref does not have
  (`SyncRaceRuns.PushOverwritten`; `WritePhases.OverwritesExactly` says exactly when).
- Neither landing nor abandoning moves a ref. A Change that lands between a sync's plan and
  its write has its landed row rewritten (`SyncRaceRuns.SyncMovesLanded`,
  `WritePhases.KeepsLandedExactly`), and one that is abandoned there is reopened, even in a
  workspace that closed with it (`SyncRaceRuns.SyncReopensAbandoned`,
  `WritePhases.RowKeepsLiveIff`).
- A land puts on trunk the version it read and marks the row as it is by then. A push in
  between leaves a row that is landed at a version which never landed, perhaps stacked on a
  Change that has not landed (`LandRaceRuns.LandsOutOfOrder`) or, between the swap and the
  mark, on one that landed after it (`LandRaceRuns.StacksTooLate`). The order holds exactly
  when the base the row has at the mark was reachable at the swap
  (`LandRaces.MarkedInOrderIff`). Two overlapping lands of one Change can both be recorded
  (`LandRaceRuns.LandsTwice`).
- Before anything has landed an imported trunk tip can be an open Change's head, and then a
  second sync derives another stack (`Tips.ImportedTipJoins`).
- The mirror can freeze on its own writes when a cursor write fails, a push is applied but
  reported failed, or an unfreeze writes a stale observation; each is shown by a run.
- The comment on `inviteLimiter` calls it a fixed window; the code is a sliding window, and
  is modelled as one.
- The diff parser's comment says the `---`/`+++` headers cover every normal path. `OldPath`
  still comes from the `diff --git` line, so a path with " b/" that is not a rename gets one;
  and where a labelled name that has a space ends with a TAB, the parser keeps the TAB in
  the path.

## Model

| member | source | states |
|---|---|---|
| Stacks.StackForChange | runkod/rpc.go:603-665 | the listed keys are exactly the pre-order of the requested Change's tree in the forest of alive Changes, each listed value is one of them, and the returned position holds the requested Change |
| Forest.StackExact | runkod/rpc.go:610-665 | on any parent relation, cyclic or not: the climb's top leads, no duplicates, the requested node is listed, every other member comes after its own parent, and the members are exactly the nodes below the leader |
| Forest.StackSiblings | runkod/rpc.go:629-641 | children of one parent come in key order |
| Forest.SameStackFromAnyMember | runkod/rpc.go:610-665 | every member of a stack with a parentless root derives the same list |
| Stacks.ParentsExactly | runkod/rpc.go:610-628 | a Change has a parent exactly when some participating Change's head is its base, and its parent is such a Change |
| WellFormed.ForestParent | runkod/rpc.go:610-641 | the derived parent relation is exactly "base is the head of an open Change" |
| Server.Server.SeriesMembers | runkod/prereceive.go:1124-1174 | the loop computes the pushed series bottom-up, one member per Change-Id, skipping landed ones below the tip |
| Server.Server.NearestPendingChangeBase | runkod/prereceive.go:1253-1284 | the loop finds the nearest commit below of another Change the store knows |
| Server.Server.EnforceOneStackPerBranch | runkod/prereceive.go:555-591 | accepted exactly when every open Change of the branch rides along in the pushed series |
| Server.Server.CommitMembers | runkod/prereceive.go:969-1097 | recording members bottom-up leaves exactly the specified rows, refs, approvals and check runs |
| PushLaw.RevListExactly | runkod/prereceive.go:1124-1174 | the walk lists the first parents in order and stops only at trunk, past a root or after a hundred |
| PushLaw.SeriesExactly | runkod/prereceive.go:1124-1174 | the members of a push are exactly the commits of that walk that are the nearest of their name, of Changes that have not landed unless it is the tip's; or the tip alone where trunk has it |
| PushLaw.SeriesAscends | runkod/prereceive.go:1124-1174 | and they are listed from the bottom up |
| PushLaw.BasesExactly | runkod/prereceive.go:1216-1284 | a base is the nearest commit below, within a hundred off trunk, that names another known Change, or without one the place where the line meets trunk |
| PushLaw.AcceptsExactly | runkod/prereceive.go:252-442 | a push is accepted exactly when its objects are sound and its scans passed, its workspace is registered, open and the pusher's (or trunk is unborn), the tip's Change has not landed, and every open Change of its branch is a member |
| PushLaw.ReceivesExactly | runkod/prereceive.go:969-1097 | an accepted push leaves each member open at its commit, on the base above, by this pusher, its ref with it and its results as the move allows; nothing of any other Change moves; a refused push changes nothing |
| Server.Server.ReceivePush | runkod/prereceive.go:252-442 | the code takes a push exactly when accepted and leaves exactly that state |
| Authors.AuthorIsLastPusher | runkod/store.go:635-672 | in every run, syncs and lands included, a Change's author is who made the last accepted push that recorded it |
| Pushes.SeriesMember | runkod/prereceive.go:1124-1174 | every recorded member lies on the tip's first-parent line under its own Change-Id, and none revives a landed Change |
| SeriesStack.SeriesBases | runkod/prereceive.go:1216-1284 | in a clean series each recorded base is the head of the member directly below, the bottom one's is trunk's merge-base |
| SeriesStack.PushedRows | runkod/prereceive.go:969-1097 | after the push every member is open, at its commit, based on the member directly below |
| SeriesStack.SeriesIsStack | runkod/rpc.go:603-665 | writer and readers agree: any member derives the pushed series, bottom-up, as one path exactly when no other open Change is stacked on it or below it |
| WellFormed.PushKeepsWf | runkod/prereceive.go:969-1097 | every push keeps rows, trunk and repository consistent, and refs at their rows' heads |
| RunTheorems.RefsAlwaysFollow | runkod/prereceive.go:969-1097 | in every run of whole requests each Change's ref is at its row's head |
| Branches.OneBranchOneStack | runkod/prereceive.go:555-591 | in every run without syncs the open Changes of a workspace branch lie on the first-parent line of that branch's last pushed tip, adoption by other branches included |
| Branches.OriginsAlwaysLive | runkod/workspace.go:543-671 | in every run an open Change's origin is a registered workspace that is not closed |
| Git.ChainCovers | runkod/trivialrebase.go:32-60 | along a chain of trivial rebases, whatever the last version changes the first already changed, to the same content |
| Server.Server.CarryForwardTrivialRebase | runkod/trivialrebase.go:88-134 | the loops re-bind exactly the old head's approvals, copy green runs, and report whether all required checks are green |
| Server.Server.CopyPassingCheckRuns | runkod/store.go:1091-1112 | only green runs move, and a run already at the new head wins |
| Git.TrivialRebaseExactly | runkod/trivialrebase.go:32-60 | cell by cell: a move is a trivial rebase exactly when both versions are real, at different heads with one message, and the new head has the old one's content where that changed anything, the new base's elsewhere, and no cell where they disagree |
| ReviewLaw.CarriesExactly | runkod/trivialrebase.go:88-134 | carrying re-binds the old head's approvals to the same approvers, copies passing runs where none is, and touches no other entry |
| ReviewLaw.MemberReviewed | runkod/prereceive.go:1007-1066 | recording a member leaves, entry by entry, its results carried exactly over a trivial rebase, and a failing policy run for findings unless the move is covered and brought a passing one |
| Approvals.CountedApprovals | runkod/api.go:1306-1372 | in every run an approval counted at the current head goes back, along recorded versions each a trivial rebase of the one before or the same head again, to an explicit one by the same approver for the same owner; and it covers the current version if re-recorded heads agree |
| Trails.TrailsCoverIff | runkod/trivialrebase.go:32-60 | over any recorded versions of a Change: each of its trails of trivial rebases and re-records ends in changes its first version made too if and only if, wherever a head was recorded with two bases, it leaves the same cells of both alone |
| Bound.BaseIsOwn | runkod/prereceive.go:1216-1284 | the recorded base is the one the commit itself determines if and only if the nearest commit below that names another Change names one the store knows |
| Bound.PushOwnIff | runkod/prereceive.go:969-1097 | after a push every head recorded for a Change has the base it determines if and only if it was so before and the push satisfies that guard for its member of the Change |
| Bound.AlwaysOwnIff | runkod/prereceive.go:1216-1284 | over every run, syncs and lands included: each head recorded for a Change has the base it determines if and only if every push satisfied the guard for it |
| Bound.CleanSeriesKnown | runkod/prereceive.go:1124-1174 | a series in contiguous blocks, within the walk limit and with nothing landed always satisfies the guard |
| Bound.CleanApprovalsCover | runkod/trivialrebase.go:32-60 | in every run whose pushes satisfied the guard for a Change, a counted approval of it covers everything its current version changes, with the same content |
| Rebinding.RebindingUncovers | runkod/prereceive.go:1216-1284 | a concrete run in which an approval of a diff that changes one cell counts for a version that changes another cell too |
| Approvals.FindingsStay | runkod/prereceive.go:1007-1066 | in every run, a current head whose push carried findings has a policy run, and a green one traces through trivial rebases to an acknowledgement |
| Approvals.LandedWasApproved | runkod/actions.go:553-683 | in every run, every Change landed without force was open, at the version that landed, when its land request met a gate that held: a traced approval from every required owner not spared, every required check green, findings acknowledged |
| Governed.ApprovalsAreOwners | runkod/actions.go:138-178 | in every run whose approvals are checked against the tree, each approval on record was given for an owner of something the approved version itself changed |
| Governed.LandedWithOwners | runkod/actions.go:553-683 | in every run held to the trees, every Change landed without force was open, at the version that landed, when it could merge: every declared, org-wide and lane check passed at that head; and unless a bot lane landed it, whoever owned anything it changed had backed it through a traced approval by a human who was not its last pusher, had made that push, or owned only what trunk's own zones spare |
| SyncReviews.SyncCarriesRun | runkod/sync.go:147-199 | after a sync a rewritten member has a run of a check, the policy check included, exactly when the old head's was green, its trailer matched and checks carry; then it is green |
| SyncReviews.SyncCarriesApproval | runkod/trivialrebase.go:88-134 | after a sync an approval counts at a rewritten head exactly when it counted at the old one and that head carries the Change-Id |
| PushReviews.PushCarriesApproval | runkod/prereceive.go:1007-1066 | after a push an approval counts at a member's new head exactly when it did before, or counted at the old head and the move is a trivial rebase |
| Provenance.LogIsTrue | runkod/actions.go:88-181 | in every run each approval on record was given by a human who had not made the last accepted push of the Change, to an open Change, for an owner the request required; each acknowledgement by a human, of a run that was not green; each finding by an accepted push of that head |
| Provenance.TipsWerePushed | runkod/prereceive.go:252-442 | in every run the tip a workspace branch is held to was pushed there by an accepted push |
| Server.Server.ListStack | runkod/sync.go:61-74 | the listing and the walk give the derived stack |
| Server.Server.ComputePlan | runkod/sync.go:76-135 | the compute loop gives exactly the plan and moves nothing |
| SyncClean.PlanIsExact | runkod/sync.go:88-134 | a plan is clean if and only if every member has a base and, replayed on what lies under it, changes no cell that this also changes, to something else; it then has each member's replayed tree, and otherwise names the first member that fails and exactly the cells |
| Server.Server.SyncChange | runkod/sync.go:44-212 | both phases leave exactly the specified state, and the answer says what happened: not open, in sync already with nothing moved, synced with something moved, or the first member in the way for its reason |
| SyncLaw.SyncMovesExactly | runkod/sync.go:147-199 | after a clean sync each rewritten member has its planned version and ref, its author, and its results carried exactly when its old head names it; nothing of any other Change has moved |
| SyncStack.PlanMinted | runkod/sync.go:88-134 | each minted commit sits on its new base, under its own Change-Id and message, with the tree of the Change's delta replayed there |
| SyncStack.SyncedRows | runkod/sync.go:147-199 | a clean sync moves the members to their planned versions and touches nothing else |
| SyncTheorems.SyncKeepsStack | runkod/sync.go:76-164 | after a clean sync the root's base is the trunk tip and every other member is based on its own parent's new head; rows outside the stack are untouched |
| SyncTheorems.SyncedRelation | runkod/sync.go:76-164 | the stacked-on relation after a sync is the old one without the root's parent |
| SyncTheorems.SyncIsTrivialRebase | runkod/trivialrebase.go:32-60 | a rewritten member is a trivial rebase of what it was if and only if its old head carries its Change-Id trailer |
| SyncTheorems.SyncTwice | runkod/sync.go:61-139 | with trunk unmoved, a second sync derives the same keys in the same order if and only if no open Change outside the stack has the trunk tip as its head, and then it changes nothing |
| Tips.TipFreeOnceLanded | runkod/land.go:143-160 | in every run, once something has landed, the tip names a landed Change and is no open Change's head |
| Tips.SyncTwiceOnceLanded | runkod/sync.go:61-139 | from the first land of a run on, every clean sync is idempotent |
| Tips.ImportedTipJoins | runkod/rpc.go:610-641 | a concrete store, before any land, in which the second sync derives another stack |
| WritePhases.OverwritesExactly | runkod/sync.go:147-164 | from a state in which every planned Change's ref is at its row's head, and whatever happens before and inside the writes: the writes made are the first of those planned, each swap met its planned head in ref and row, and the row write replaces another head exactly when the ref has left both the planned and the written one; ref and row part exactly when the ref has left the written one |
| SyncRaceRuns.PushOverwritten | runkod/sync.go:141-164 | a concrete run in which an accepted push between swap and row write is overwritten and its ref and row part |
| WritePhases.CalmPhase | runkod/sync.go:147-199 | with nothing in between, the write phase makes every write and leaves the state the atomic sync leaves |
| WritePhases.KeepsLandedExactly | runkod/sync.go:153-170 | whatever happens in between: a landed row the phase does not write never moves, and from each row write on everything landed stays exactly when no row write met a landed Change and changed it |
| SyncRaces.LeadsExactly | runkod/sync.go:147-164 | a sync next to another writes up to the first Change whose ref is not at its row's head |
| SyncRaceRuns.SyncMovesLanded | runkod/sync.go:147-170 | a concrete run in which a Change lands between plan and write, and its landed row moves to another head |
| WritePhases.RowKeepsLiveIff | runkod/store.go:635-672 | a row write keeps every open origin live exactly when it does not reopen an abandoned Change of a workspace that is closed or gone |
| SyncRaceRuns.SyncReopensAbandoned | runkod/store.go:635-672 | a concrete run in which a Change abandoned between swap and row write is open again in a closed workspace |
| LandRaces.RacedLandOnTip | runkod/land.go:117-168 | whatever happens during the retries, the commit landed sits on the tip of that moment and carries, cell by cell, the delta of the version the gate saw, under its message |
| LandRaces.RacedLandExactly | runkod/actions.go:553-648 | whatever happens after an unforced land read its row, at each point up to the mark: what lands is the version it read, on the tip of its swap, with its base on trunk or landed by then; the row marked has landed in order exactly when the base it has at the mark was reachable at the swap, and holds the version that landed exactly when it still did before the mark, and then it is in order unless that version's base is its own head |
| LandRaces.MarkedInOrderIff | runkod/store.go:772-786 | whatever happens between the swap of trunk and the mark, the row marked has landed in order if and only if the base it has at the mark was, at the swap, on trunk or the head of another Change landed there |
| LandRaceRuns.LandsOutOfOrder | runkod/actions.go:612-648 | a concrete run in which a push between gate and swap leaves a landed, unforced row at a version that never landed, on a Change that has not landed |
| LandRaceRuns.StacksTooLate | runkod/actions.go:612-648 | a concrete run in which, between swap and mark, another Change lands and a push stacks this one on it: the row's base is landed at the mark, and yet landed after it |
| LandRaces.MarkKeepsLandedIff | runkod/store.go:772-786 | whatever happens between swap and mark, the mark keeps what has landed as it is if and only if the Change itself has not landed by then |
| LandRaceRuns.LandsTwice | runkod/land.go:100-170 | a concrete run in which a rival lands the Change first, the retry lands it again and a landed row moves |
| MergeGate.MergesIff | runkod/api.go:1089-1251 | a Change may merge if and only if every declared check, every org-wide and lane check that has a name, and the policy check where it has a run outside a zone passed at its head; its base has landed; and, but for a lane, every owner of a changed path consented there or trunk's zones spare them, some policy speaks of it, and its description and threads are in order |
| Server.Server.MergeRequirements | runkod/api.go:1089-1251 | the loops answer exactly that, and say exactly when a zone stood in for someone |
| Owners.OwningProject | runkod/api.go:1421-1435 | the project found owns the path and no other that does lies deeper; none is found only if none owns it |
| Owners.OwnsExactly | runkod/api.go:1421-1435 | character by character: a project owns its own directory and what goes on from it with a slash |
| Owners.SameDepthSamePlace | runkod/api.go:1418-1435 | two projects equally deep that own a path are the same directory, so which one is deepest is never in doubt |
| Owners.AutoApproved | platform/index/autoapprove.go:32-53 | a path is in a zone exactly when the deepest declaring project that owns it says so |
| Owners.InZoneExactly | platform/index/autoapprove.go:32-53 | a path is in a zone exactly when, of all projects that own it and declare anything, the deepest says yes |
| Owners.OwnerRequirements | runkod/api.go:1306-1372 | exactly the owners of the touched projects, in order; each satisfied exactly by consent at this head or by being required through zone paths only; and whether a zone stood in for anyone |
| Owners.GateAgrees | runkod/api.go:1306-1372 | under the gate the tree defines, none is listed exactly when none is required, and the owners are satisfied exactly when every requirement is |
| Policy.ListedAgrees | runkod/api.go:1089-1159 | the requirements listed for a Change stand for the gate read from the trees, and a zone stood in exactly when the gate waives an owner who did not consent |
| Owners.MergeCheckNames | runkod/api.go:1255-1272 | the names and, once each, the new ones among the extra, in order; no extra names change nothing |
| Server.Server.RefuseUnlandedParent | runkod/land.go:59-98 | refused exactly when the base is off trunk and an open Change owns it as head |
| Server.Server.AttemptLand | runkod/land.go:100-170 | the bounded loop, reading repository and trunk afresh each turn, answers with the first turn that does not lose its compare-and-swap, and gives up exactly when all five lost |
| LandLaw.AttemptsExactly | runkod/land.go:100-170 | exactly why an attempt does not land: no trunk or no base, a revalidation that is due, or the cells that both sides change differently |
| LandLaw.LandsExactly | runkod/actions.go:553-683 | a request lands its Change exactly when it is open, force is asked by who may, no open parent waits off trunk, the gate holds or is forced, a swap is won and the delta is clean; the row is marked forced exactly when the gate did not hold, and its workspace closes exactly when its last open Change concluded |
| MergeGate.AskedExactly | runkod/actions.go:553-683 | the same for what a caller asks, with the gate read from the trees |
| Server.Server.LandChange | runkod/actions.go:553-683 | the code lands exactly so, and reports landed exactly when the row is |
| LandTheorems.LandReplaysDelta | runkod/land.go:100-170 | a land either changes nothing or puts one fresh commit on trunk that, cell by cell, carries the Change's content where the Change touched it and trunk's elsewhere, under the head's own message, with the Change-Id appended exactly where the head lacks it; no other row, ref or review moves |
| LandTheorems.LandsIff | runkod/actions.go:553-683 | exactly when a request lands its Change |
| RunTheorems.LandedForever | runkod/store.go:772-786 | in every run a landed row never changes again, and rows, trunk and repository only grow |
| RunTheorems.ParentsLandFirst | runkod/land.go:59-98 | in every run an unforced landed Change had its base on trunk before it, or the head of a Change whose landed commit precedes its own |
| LandStack.WalkChain | runkod/landstack.go:57-79 | the loop gives the ancestor chain: open parents whose head is the next one's base, no repeats, and nowhere further to go |
| LandStack.SweepBottomUp | runkod/landstack.go:81-121 | whatever happens between members, a sweep that stops has everything below the stop landed and landed nothing from there up |
| LandLaw.SweepStopsRightly | runkod/landstack.go:81-121 | whatever happens between members, a sweep stops only at one whose own unforced land is refused there, and lands nothing by force |
| LandLaw.CalmSweepLands | runkod/landstack.go:81-121 | left alone it lands, in order, exactly the members below its stop that had not landed |
| MergeGate.AskedStopsRightly | runkod/landstack.go:81-121 | and with gates read from the trees it stops only at a member that may not land |
| Server.Server.LandStack | runkod/landstack.go:48-121 | the walk and the loop are that chain and that sweep, each member under its own gate; an abandoned Change is refused with nothing changed |
| LandTheorems.SweepLandsContent | runkod/landstack.go:81-121 | whatever happens between members, as long as it leaves them and the cell alone: in a cell trunk has not touched since the stack's base, a sweep that lands the whole stack leaves exactly what the stack's top has, at least one trunk commit per member |
| LandLaw.AbandonsExactly | runkod/actions.go:688-719 | abandoning marks any Change that has not landed, and closes its workspace exactly when that was its last open one |
| Server.Server.AbandonChange | runkod/actions.go:688-719 | the code abandons exactly so and refuses a landed Change |
| Server.Server.ApproveChange | runkod/actions.go:88-181 | an approval is taken exactly when the Change is open, the approver is a named human who is not its author, and the owner owns something it changes; then it counts at the current head and no other approval or run has moved, and otherwise nothing changes |
| ReviewLaw.ApproveExactly | runkod/actions.go:88-181 | the specification of that: taken exactly so, recorded for that owner alone and at the version on record, everything else unchanged |
| ReviewLaw.AckExactly | runkod/actions.go:804-880 | an acknowledgement turns that policy run green and touches nothing else |
| ReviewLaw.ReportExactly | runkod/api.go:1613-1655 | a report replaces one run at the current head, never the policy run |
| ReviewLaw.RerunExactly | runkod/actions.go:726-767 | a rerun puts back one required run of an open Change |
| Server.Server.Acknowledge | runkod/actions.go:804-880 | an acknowledgement is taken exactly when a named human gives it to an open Change with a policy run at its head that is not green yet; then that run is green, and otherwise nothing changes |
| Server.Server.MaybeCloseAgentWorkspace | runkod/workspace.go:543-572 | a workspace closes exactly when its last open Change has concluded |
| LandLaw.MaybeClosesExactly | runkod/workspace.go:543-572 | closing touches that workspace's status alone, and exactly when none of its Changes is open |
| LandLaw.CreatesExactly | runkod/workspace.go:386-443 | a workspace is created once, with an owner, on a born trunk |
| LandLaw.DeletesExactly | runkod/workspace.go:613-666 | and deleted by who may, once none of its Changes is open |
| Mirror.NeverOverwritesForeign | runkod/mirror.go:155-209 | under any interleaving, whatever a leased push replaced was empty, once our own tip, or adopted by an unfreeze; a known cursor holds empty or a value the mirror really had |
| Mirror.FrozenMeansNoPush | runkod/mirror.go:166-209 | between a freeze and the next unfreeze nothing is pushed and the cursor stays frozen |
| Mirror.OverwritesOnce | runkod/mirror.go:286-322 | in every run a value that was never ours is replaced no more often than unfreezes adopted it and last writes over it were lost |
| Mirror.StuckOverwritesTwice | runkod/mirror.go:191-209 | with a lost cursor write one unfreeze can sanction two overwrites |
| Mirror.NeverFreezesItself | runkod/mirror.go:189-209 | with no foreign writer, whole unfreezes, kept cursor writes and pushes that fail only on a lost lease, no interleaving of lands freezes trunk |
| Mirror.SyncCatchesUp | runkod/mirror.go:155-209 | such a sync ends with mirror and cursor at the tip it started from, whatever landed meanwhile |
| Mirror.FailedRecordFreezes | runkod/mirror.go:208 | a failed cursor write and one land freeze the next sync |
| Mirror.LostReplyFreezes | runkod/mirror.go:200-206 | so does a push applied but reported failed |
| Mirror.StaleUnfreezeFreezes | runkod/mirror.go:310-322 | and an unfreeze that writes an observation a sync has overtaken |
| Mirror.MovesExactly | runkod/mirror.go:155-209 | the mirror moves only by a foreign write or a push whose lease holds; the worker freezes exactly where the mirror was neither expected nor at the tip or its push did not end well, and records exactly where the mirror is at the tip |
| Mirror.CursorsExactly | runkod/mirror.go:155-209 | the cursor is written only by an unfreeze, a freeze that keeps the commit, and a record of the tip; and a sync goes on exactly from a cursor that is neither frozen nor current |
| Mirror.HistoryExactly | runkod/mirror.go:189-206 | what the mirror had and what a leased push replaced is kept exactly, so the bounds below speak of every overwrite |
| Mirror.AdoptsExactly | runkod/mirror.go:286-322 | an unfreeze adopts what it observed, each observation once |
| MirrorWorker.MirrorWorker.SyncTrunk | runkod/mirror.go:155-209 | with anything going on between its steps, the code takes at each the step the machine calls for and gives up only where something failed; it pushes whenever it finds the mirror where the cursor says and not at the tip; and where nothing fails and only lands and whole unfreezes go on around it, it ends with the mirror at the tip it read |
| MirrorWorker.StaysInStep | runkod/mirror.go:155-209 | such a worker keeps the cursor in step with the mirror |
| BusMachine.NoLostWakeup | runkod/eventbus.go:98-120 | for any subscriptions and any interleaving, a pending event has a signal queued, a publisher about to signal or a consumer about to take; what is pending is the newest that reached the subscription |
| BusMachine.TakeReturnsNewest | runkod/eventbus.go:53-63 | a successful take returns the newest event that reached the subscription |
| BusMachine.LastEventTaken | runkod/eventbus.go:11-15 | once nothing is in flight the last event published to a subscription has been taken |
| BusMachine.SignalsExactly | runkod/eventbus.go:98-120 | step by step: a signal is queued by a publisher alone and consumed by one receive, and an event is offered exactly to the registered subscriptions of its workspace |
| BusMachine.DeliversOnce | runkod/eventbus.go:53-63 | an event is pending from its store until one take or poll returns it |
| BusMachine.DoneClosedOnce | runkod/eventbus.go:65-138 | `done` is closed at most once across cancel and close, and exactly when the subscription is over |
| EventBus.EventBus.Publish | runkod/eventbus.go:98-120 | the loop is a run of the machine from begin to finish, leaves every registered subscription of the workspace holding the event with its signal queued, and touches no other |
| EventBus.EventBus.Cancel | runkod/eventbus.go:68-96 | cancelling is the machine's step, and never closes `done` twice |
| EventBus.EventBus.Close | runkod/eventbus.go:124-138 | closing ends every subscription once |
| Cone.ExpandConeToDeps | runkod/workspace.go:183-238 | the worklist ends and returns, strictly sorted, exactly the allowlist, the paths of projects reachable by build and test dependencies, and the contract directories those consume |
| Cone.LeastFixedPoint | runkod/workspace.go:193-217 | reachability is closed under dependencies and inside every closed set that holds the affinity |
| Cone.ConeExactly | runkod/workspace.go:183-238 | the cone is the allowlist and, for each project that the affinity leads to by build and test dependencies, its path and the directories of the contract, OpenAPI file and schemas of what it consumes |
| Cone.LessExactly | runkod/workspace.go:230-237 | the order is by the first character that differs, a prefix first |
| Cone.SortedUnique | runkod/workspace.go:230-237 | what is sorted without duplicates is determined by its elements, so the cone is |
| Cone.ConeDirOfSurface | runkod/workspace.go:248-260 | a surface naming a file contributes its directory, nothing at the root, and a directory contributes itself |
| Diff.ParseUnifiedDiff | runkod/diff.go:65-153 | the loop computes the fold of the line steps, malformed headers included |
| Diff.FailsExactly | runkod/diff.go:65-153 | the parser fails exactly on a hunk header that does not parse, inside a file |
| Diff.SplitPathsExactly | runkod/diff.go:157-167 | a file header is put together from its two paths, split at the last " b/" |
| Text.AtoiSigned | runkod/diff.go:195-212 | a count with a sign is read, one out of range or not a number is refused |
| Diff.BinaryMarks | runkod/diff.go:112 | either of git's two lines marks a file binary |
| DiffShape.ParsedIsTallied | runkod/diff.go:129-145 | for any text, line numbers are consecutive from each hunk's starts and Adds and Dels are the line counts |
| DiffTheorem.RoundTrip | runkod/diff.go:65-212 | printing any list of file diffs, notes of a missing final newline included, and parsing it gives the list back if and only if every file is legible: no removed "-- " or added "++ " line, no " b/" in a path that is not a rename's, and no labelled name that gained a TAB |
| DiffRoundTrip.HeadPaths | runkod/diff.go:157-167 | a header's two names agree exactly for a path without " b/" |
| DiffPrint.HunkHeader | runkod/diff.go:170-212 | any hunk header, counts of one left out, parses back to itself |
| DiffTheorem.ExtendedHeaders | runkod/diff.go:62-64 | git's other extended headers change nothing |
| Blame.ParseBlamePorcelain | runkod/history.go:220-290 | the loop computes the fold of the line steps with the metadata attached |
| Blame.FailsExactly | runkod/history.go:220-290 | the parser fails exactly on a group header whose line number does not parse |
| BlameRoundTrip.RoundTrip | runkod/history.go:220-290 | for any attribution: the lines come back unchanged, the regions tile 1..n, are maximal, expand back to the attribution and carry their own commit's metadata |
| BlameRoundTrip.CoverUnique | runkod/history.go:215-219 | an attribution has one maximal tiling, so the regions are determined |
| Limiter.InviteLimiter.Allow | runkod/invite.go:196-214 | the in-place compaction leaves exactly the times still in the window, plus this call when fewer than five were, and no other key's |
| Limiter.AdmitsBelowLimit | runkod/invite.go:196-214 | in calls with non-decreasing times, a call is admitted exactly when fewer than five admitted calls of its key lie in the preceding window |
| Limiter.WindowBound | runkod/invite.go:34-39 | any interval of one window's length holds at most five admitted calls |

## Left out

- Races other than a sync's write phase, a land's retries, a stack sweep, the mirror and the
  event bus: in runs each push, sync, land or review is one step, and also where it happens
  between the steps of another request (a sync among those still stops at a swap that fails).
  Closing a workspace after a land's mark or an abandon is not taken apart from it.
- Batches of several refs, snapshot pushes and direct pushes to trunk.
- Web flows that create Changes without a workspace origin.
- Policy, affected-path and secret evaluation of a push: their verdicts are inputs
  (`Push.allowed`, `Push.findings`, `Push.required`). The platform libraries they come from
  are not part of this model.
- Merge commits, renames inside trees (git may list a renamed file under its new name alone)
  and textual merges within a cell.
- Which checks the affected projects declare: an input of the gate (`Policy.Terms`), as are
  the org's settings, the description and the review threads.
- The hash that derives a missing Change-Id: only that it is a function of the commit.
- Store and network errors outside the mirror, and the SQL store.
- The mirror's tag and change-ref namespaces, which have no lease.
- A nil event bus.
- `strings.Fields` and `sort.Slice` are written out; their library code is not part of this
  model.
- Non-UTF-8 bytes: text is a sequence of characters.
- Clocks that go backwards in the limiter.
- Server.Server.ReceivePush: the verdicts of the scans and policies on a push are inputs, and
  one magic ref is received at a time.
- Server.Server.SyncChange: one uninterrupted request; WritePhases.OverwritesExactly,
  WritePhases.KeepsLandedExactly and WritePhases.CalmPhase say what its write phase does when
  it is interrupted and when it is not.
- Server.Server.MergeRequirements: the declared checks of the affected projects are an input.
- Provenance.LogIsTrue: "required" is what the request met; Governed.ApprovalsAreOwners reads
  it from the tree.
- Approvals.LandedWasApproved: likewise for the gate's owners, which Governed.LandedWithOwners
  reads from the trees; the names of the checks stay what the request met.
- Governed.LandedWithOwners: a bot lane has no owner gate, so its lands promise the checks only.
- Server.Server.LandChange: one uninterrupted request, in which only lost swaps are counted;
  LandRaces.RacedLandExactly lets anything happen between its steps up to the mark.
- Bound.CleanApprovalsCover: a head recorded with a base other than the one it determines may
  still be covered; Trails.TrailsCoverIff says when, but from what is recorded, not from what
  a push can see.
- Diff.ParseUnifiedDiff: line numbers do not wrap at 64 bits.
- DiffTheorem.RoundTrip: paths git prints without quoting.
- BlameRoundTrip.RoundTrip: author times from 1970 on that fit 64 bits.
- Cone.ExpandConeToDeps: string order is by character, which is UTF-8's byte order.
