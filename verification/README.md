# Headboard, verified

Headboard manages a Headscale network. These files model four of its parts in Dafny 4.11 and prove
what they promise.

**SSH key sync.** Policy hosts, people, keys, bindings and assignments say who may log in where.
`Desired` turns them into what one agent must hold; the server serves that under an entity tag made of
the tables' revision, the snapshot's revision and the process's boot id. The agent rewrites a marked
block in each `authorized_keys` file, reports, and adopts the tag only when nothing was skipped. Reports
become managed rows and suspensions, and an uninstalling agent clears what is on record before it is
deleted.

| file | what it holds |
|---|---|
| `Key`, `Block` | what a line may be, and the managed block of a file |
| `Desired` | the reconciliation, against a definition by sets |
| `Apply` | one call of `Apply` on host files, each pair's commands answered by the host |
| `Store` | the tables and their revision; `SshStore` has one method per transaction |
| `Snapshot`, `SyncApi`, `Approval` | the poller's revision, the tag, the handlers |
| `Retire`, `Loop` | the uninstall, one cycle of the agent, and the poll loop |
| `Protocol` | all of it as one machine: server, requests in flight, agents and their files |
| `Adoption`, `Suspension`, `Convergence` | what holds over the machine's runs |
| `Tracking`, `Stranding` | where keys can be left behind: by event, and over runs |
| `Admin`, `Revocation` | the admin handlers, what the tables grant, and what each write gives or takes |
| `Effects` | what each write leaves of each table, row by row |
| `Delivery` | what an answer holds for each binding, what an approval does, and whose files a call may change |

A cycle is cut where others may run in between: the snapshot is taken, then the revision is read, then
the tables, then the agent works, reports and adopts. Writes, polls, restarts, edits of files and other
agents may come anywhere.

**Diffs and patches.** `Lcs` is the dynamic program and its greedy walk; `Diff` builds line diffs and
hunks on it; `ArrayPatch` uses the same idea to turn a changed array into patch operations. `Cascade`
deletes a group or tag with everything that refers to it, `Pruning` says what that leaves of each entry,
`SchemaPatch` replays operations on a JSON document, `CascadePatch` joins the two, on the JSON of a
document (`Encoding`), and `Pointer` is the JSON pointer (RFC 6901, section 4).

**Sudo.** `PinLock` counts wrong secrets per account and per address; `Sessions` holds accounts,
sessions, grants and the handlers, which work on the caller as the middleware read it. `Requests` is
the machine of requests in flight, whose check, write and grant are steps of their own; `Resets` says
when a PIN reset is safe in its runs, `Grants` where sudo comes from, `Guesses` how often a secret can
be guessed, and `Accounts` what each step makes of accounts, sessions and requests.

**Versions.** `Semver` parses and compares versions and decides what is a downgrade.

`Common`, `Strings`, `Sequences`, `Decimals` and `Json` hold what several of them use.

## Where the code and its description part

- A suspended binding is said to get nothing until it is approved again. If its host leaves the policy
  the binding counts as orphaned, not suspended, and the rows of its target are cleared, on whatever
  machine answers to the ref. `Suspension.HeldGoals` gives the exact condition, `Suspension.HeldNamed`
  an input.
- Two policies that differ only in whether the last line ends with a line break are not identical, but
  their diff has no hunk (`Diff.SameLines`).
- The array patch is replayed in another order when a gap other than the last has more new than old
  elements (`ArrayPatch.ReplayExact`), and a deletion can stage such a patch
  (`CascadePatch.DeletionCanReorder`).
- An operation on the empty key is ignored by the draft (`SchemaPatch.MergedExact`), and a deletion can
  stage one (`CascadePatch.DeletionCanMissAKey`).
- Cleaning drops every SSH test without a destination, whether or not it refers to the target
  (`Cascade.PlainExactly`, `Cascade.EmptySshTestGoes`).
- A deletion is said to leave a document Headscale accepts, but a deleted tag stays listed wherever it
  owns another tag: owners are cleaned of the deleted group only (`Cascade.OwnersKept`,
  `Cascade.DeletedOwner`).
- A pre-release identifier that is a hyphen before a number, which section 9 of Semantic Versioning
  2.0.0 allows, is compared as a negative number, and a number that does not fit 64 bits as text;
  `Semver.PlainIsNeeded` shows that these are all the versions ordered against section 11.
- A reset is said to make the account set a new PIN when it next signs in. A request that came in
  before the reset still works on the account as it read it: a setPin past its checks stores its PIN
  after the reset, and sudo read before it still passes. `Resets.ResetSafe` gives the exact condition,
  `Resets.ResetCanFail` a run. Likewise endSudo does not stop a request already in (`Grants.Stands`).
- Blocks are meant to stay known to the server. Track of one is lost exactly when a first write fails
  after its rename, a report that alone names written keys never arrives, a pair is reported cleared
  whose file holds keys, or somebody else plants a block (`Stranding.TrackedThroughout`). A pair is
  reported cleared with keys left exactly when its user is reported gone and its home was not under
  `/home` (`Tracking.SparesMeans`), or keys are put back before the report is in
  (`Stranding.SparedMeans`). `Tracking.FailureStrands`, `Tracking.LostReport`, `Tracking.GoneStrands` and
  `Tracking.RetiredWithKeys` are inputs; `Stranding.OrderlyLeavesNothing` says what holds without them.

## Model

| member | source | states |
|---|---|---|
| Protocol.NotModifiedSound | internal/api/ssh_agent_sync.go:80-121 | In every interleaving of writes, polls, restarts and two-step syncs, a request told 304 for a tag it was once served under would be served the same targets now |
| Protocol.ServerRun | internal/api/ssh_agent_sync.go:80-121 | Every event of every run keeps it true that a tag of the running process never runs ahead of the tables, and that a tag still current was served with what the tables hold |
| Protocol.LoadKeeps | internal/api/ssh_agent_sync.go:95-118 | Reading the revision before the tables is safe: what is served is what the tag says, or the tag is already out of date |
| Protocol.PollKeeps | internal/tailnet/snapshot.go:167-230 | A poll keeps every installed snapshot revision standing for one policy and one set of users |
| Protocol.RestartKeeps | internal/api/ssh_agent_sync.go:38-41 | A restart keeps the 304 invariant: under a boot id never used before, revisions that start again cannot be mistaken for old ones |
| Adoption.AdoptedWasCarriedOut | internal/agent/loop.go:43-81 | At every point of every run, the tag an agent holds was served with targets that one call of Apply completed without a warning, every user pair applied and every clear cleared, in a report the server recorded |
| Adoption.NotModifiedMeansDone | internal/agent/loop.go:43-81 | An agent told 304 has at some point carried out and reported exactly what the server would send it now |
| Adoption.AgentStep | internal/agent/loop.go:43-109 | Every event keeps the adoption invariant: requests in flight, answers in hand and tags held are backed by what was served and recorded |
| Adoption.CleanWork | internal/agent/apply.go:135-232 | Work without a warning names every pair of the targets, leaves every written file with exactly its lines, and every cleared file without keys or, where the user is reported gone with nothing left behind, as it was; and it reports no mismatch |
| Adoption.AnswersSound | internal/sshsync/desired.go:97-131 | Whatever the tables hold, no pair of an answer is both written and cleared, and none is cleared twice |
| Suspension.MismatchSilences | internal/store/ssh.go:536-544 | Once a mismatch is recorded, until re-approval or removal no answer to that agent writes to the ref, and while the host stays in the policy none names it |
| Suspension.HeldGoals | internal/sshsync/desired.go:44-55 | While a binding is suspended an answer names its ref if and only if the host has left the policy and rows remain for the ref, and then only to clear them |
| Suspension.HeldNamed | internal/sshsync/desired.go:44-55 | A suspended host that leaves the policy with a row on record: the next answer names its target, to clear it |
| Suspension.HeldOverRuns | internal/sshsync/desired.go:82-109 | The suspension survives every event that is not a re-approval or a removal, over whole runs |
| Suspension.NamedRun | internal/sshsync/desired.go:82-109 | With the host in every policy of the run, no later answer names the ref |
| Suspension.MismatchTouchesNothing | internal/agent/apply.go:165-183 | A target that is not the approved machine is reported, is not clean work, and has none of its files changed |
| Suspension.MismatchExact | internal/agent/apply.go:151-183 | A ref is reported as a mismatch if and only if it is in the targets, was found running, everything to compare could be read, and the address or the host name is another |
| Suspension.UnreadableStays | internal/agent/apply.go:155-163 | Work on an answer and the delivery of its report leave the binding of a target that was not running or could not be read as it was |
| Suspension.ChangedIsExpected | internal/agent/apply.go:151-183 | A file changes only on a target found last under its ref with the expected address and host name, as far as these were recorded |
| Suspension.UnnamedUntouched | internal/agent/apply.go:151-229 | A ref an answer does not name has none of its files changed |
| Suspension.MismatchHolds | internal/api/ssh_agent_sync.go:134-177 | A delivered report suspends the agent's binding of every ref it calls mismatched |
| Stranding.NothingUntracked | internal/agent/apply.go:210-228 | In every run of guarded events none of which loses track, any registered agent's file that holds managed keys has a managed row, or its pair is named in the report being sent |
| Tracking.TrackStep | internal/store/ssh.go:506-548 | For each guarded event, from a state in which everything is tracked: something is untracked afterwards if and only if the event is one of those that lose track, said in terms of the state and the event before it |
| Stranding.TrackedThroughout | internal/agent/apply.go:135-232 | Over every run of guarded events, with any failures, restarts, edits and late or repeated reports: everything is tracked at every point if and only if no event loses track; what a delivered report or a retirement is wrong about is said by the answers and edits since the work |
| Stranding.OrderlyLeavesNothing | internal/agent/retire.go:26-55 | If reports of new writes arrive, nobody plants a block or reports out of turn, first writes do not fail after their rename, and a user reported gone has no keys left, then in every run keys left are on record or being reported, and an agent the server deletes after its uninstall has left none |
| Stranding.SparedMeans | internal/agent/apply.go:210-228 | Over every run, a pair an agent is about to name as cleared still holds keys if and only if the host spared it in the work reported, or somebody put keys there since |
| Stranding.RevokedLeavesNothing | internal/api/ssh_agents.go:269-312 | An unforced revoke, on what the tables then hold, of a tracked agent: keys it left are named in a report it is sending, or there are none |
| Tracking.StrandsMeans | internal/agent/apply.go:109-133 | One pair's work leaves keys where there were none without success if and only if its target proceeds, its lines are safe and not empty, the user is found, the file is read, and the write fails after its rename |
| Tracking.FailureStrands | internal/agent/apply.go:20-31 | A first write that fails after its rename leaves keys the server does not know of |
| Stranding.RetiredLeavesNothing | internal/agent/retire.go:26-55 | After any run that lost no track: the server deletes a leaving agent if and only if every row it has for it is named as cleared, and then its files hold no keys if and only if the host spared none of them and nobody put keys back since |
| Tracking.LostReport | internal/agent/loop.go:70-72 | A first write whose report never arrives leaves keys the server does not know of |
| Tracking.WorkAt | internal/agent/apply.go:185-228 | Per pair, whatever the host answers: a call of Apply leaves unreported keys where there were none if and only if a due, safe, non-empty write failed after its rename |
| Tracking.SparesMeans | internal/agent/apply.go:210-228 | A clear counts as done with keys left in the file if and only if its target proceeds, the user is reported gone, nothing is found under its home, and the file held keys |
| Tracking.ClearedAt | internal/agent/apply.go:210-228 | Per pair, whatever the host answers: a call of Apply names it as cleared with keys left exactly under that condition |
| Tracking.WorkSpares | internal/agent/apply.go:65-78 | A report names as cleared some well-formed pair whose file holds keys if and only if the host spared one |
| Tracking.LeavingSpares | internal/agent/retire.go:26-55 | The same for the list of a leaving agent |
| Tracking.ClearThenLeave | internal/agent/retire.go:26-55 | Clearing and leaving, from a tracked state: if the server deletes the agent, its files hold no keys if and only if the host spared no recorded pair |
| Tracking.GoneStrands | internal/agent/apply.go:65-78 | A user reported gone whose home was elsewhere: recording the report drops the row and the keys stay |
| Tracking.RetiredWithKeys | internal/agent/apply.go:65-78 | The same in an uninstall: the server deletes the agent and the keys stay |
| Convergence.Converges | internal/agent/loop.go:43-81 | From any state, two undisturbed cycles on a healthy host leave every active block with exactly its lines, unfrozen rows equal to the desired pairs and nothing to clear; the second moves no revision, the third is a 304, and cycles then change nothing |
| Convergence.FirstCycle | internal/agent/loop.go:43-81 | One clean cycle settles files and rows, and changes no row or revision if they were settled before |
| Convergence.GoalsFollow | internal/sshsync/desired.go:61-131 | Once rows follow a clean report, the next goals name the same users on the same machines, have nothing to clear, and unfrozen rows are exactly their pairs |
| Convergence.IdleCycle | internal/agent/loop.go:43-81 | A 304 cycle leaves the whole system as it was |
| Loop.Process.Once | internal/agent/loop.go:43-81 | The imperative cycle ends in the same server state, files and tag as the machine's cycle, or as the machine's cycle with its report lost; it succeeds exactly when the host is found, the report arrives, and the server knows the agent and has an answer; a failure returns the old tag |
| Loop.Headboard.Sync | internal/api/ssh_agent_sync.go:80-121 | The handler answers exactly what the server's state allows: unauthorised, unavailable, 304, or the targets of the goals under the current tag |
| Loop.RunLoop | internal/agent/loop.go:84-127 | The poll loop keeps tag, last full sync and wait as the fold of its turns, stops exactly at a rejected token, and pauses after each turn as stated, with up to a fifth of the interval added |
| Loop.BackoffDoubles | internal/agent/loop.go:104-106 | After n failures in a row since a success the wait is the interval for n = 0, else the interval times 2^n, at most five minutes |
| Loop.PauseBound | internal/agent/loop.go:115-126 | Apart from the random delay a pause is at most five minutes after a failure and at most the interval after a success, and never negative |
| Loop.NextStart | internal/agent/loop.go:115-126 | After a success the next turn starts an interval after the start of the last, or at once when that took longer; after n failures it waits the interval times 2^n, at most five minutes; up to a fifth of the interval comes on top |
| Loop.FailuresKeepTag | internal/agent/loop.go:104-109 | The tag sent next is that of the last success, however many failures follow |
| Loop.ForcedMeans | internal/agent/loop.go:90-113 | A turn is forced if and only if every successful full sync ended at least FullEvery ago |
| Desired.Desired | internal/sshsync/desired.go:61-131 | The four loops and two sorts give exactly the set-level goals of the agent, one target per ref, in ref order, clears sorted; Delivery.BindingAnswered says what the goals are, from the tables |
| Desired.CollectTargets | internal/sshsync/desired.go:75-95 | The binding loop gives, per ref with a delivered binding, a target that checks that binding's approved address and host name, the last one winning, and the refs frozen by a suspended one |
| Desired.AddClears | internal/sshsync/desired.go:97-115 | The managed-row loop adds each unfrozen row no target keeps as a clear of its ref, and nothing else |
| Desired.CollectUsers | internal/sshsync/desired.go:84-94 | The inner loop gives each unix user with a live person the lines of all of them, in assignment and key order |
| Desired.SortStrings | internal/sshsync/desired.go:117-130 | The sorted names are ascending and a permutation of the names |
| Desired.LineMeaning | internal/sshsync/desired.go:68-94 | A line is written for a unix user if and only if it is a key of a live person assigned to that user on that host |
| Desired.RowsAccounted | internal/sshsync/desired.go:97-115 | Every unfrozen managed row of the agent is kept or cleared, and never both |
| Desired.GoalsSafe | internal/sshsync/desired.go:68-94 | From stored keys, whatever the people are called, every line sent passes the check the agent makes before writing |
| Desired.ClearsAreRows | internal/sshsync/desired.go:97-115 | A user is cleared on a ref if and only if it has a managed row there, the ref is not frozen, and no line is written for it |
| Desired.NotActive | internal/sshsync/desired.go:44-55 | A ref has a delivered binding if and only if some binding of the agent to it is active, and the one delivered is such a binding |
| Desired.ListsUnique | internal/sshsync/desired.go:117-131 | Two answers for the same goals are equal: the order maps are walked in cannot show |
| Delivery.BindingAnswered | internal/sshsync/desired.go:44-131 | What an answer holds for the target of any binding, from the tables: standing at its approved address and not suspended, that address, the approved host name, exactly the users with a live person assigned, and as clears exactly its other rows; suspended or moved, nothing; its host gone, only clears of its rows |
| Delivery.StateMeans | internal/sshsync/desired.go:44-55 | A binding is delivered if and only if it is not suspended and the policy's last server of that name has the approved address, and orphaned if and only if no server has the name |
| Delivery.ChangedIsApproved | internal/agent/apply.go:151-183 | End to end: if one call of Apply on the server's answer changes a file of a delivered target, what was found there holds the approved address and has the approved host name, as far as they were recorded |
| Delivery.LinesInOrder | internal/sshsync/desired.go:68-94 | The lines of a unix user are one for each place where an assignment of a live person on that host meets a key of theirs, in the order of the assignments and then of the keys |
| Delivery.NoAnswer | internal/api/ssh_access.go:196-209 | There is no answer if and only if the policy cannot be read, it names no server while a host is bound, or there is no user while somebody is assigned |
| Delivery.ApprovalLifts | internal/store/ssh.go:322-339 | An approval is refused if and only if the agent is gone or another host has its target; else the binding is the given one without suspension, and every other binding, table and agent is as it was |
| Delivery.ApprovedIsDelivered | internal/store/ssh.go:322-339 | After an approval at the address the policy gives the host, the next answer names the target, checks that address and label, and writes for exactly the users with a live person assigned |
| Apply.Apply | internal/agent/apply.go:135-232 | The loops over targets, users and clears leave the files and the result of folding the work list, and every command they run is on an approved, running target about a well-formed user that target names; Apply.GateMeans and Suspension.MismatchExact say which targets those are |
| Apply.ApplyMeans | internal/agent/apply.go:135-232 | Each pair's file and place in the result depend on that pair alone; mismatches are reported for exactly the targets whose gate answers so; no warning if and only if every target proceeds and every pair succeeds |
| Apply.GateMeans | internal/agent/apply.go:151-183 | A target is skipped if and only if it is not running or cannot be read, and worked on if and only if it is running, can be read, and has the approved address and host name |
| Apply.Warned | internal/agent/apply.go:135-232 | There is a warning for exactly each target skipped or mismatched, without a user, and each pair whose write or clear fails, with its user |
| Apply.WriteMeans | internal/agent/apply.go:185-208 | A write succeeds if and only if every line is safe, the user is found, the file is read, its block can be told, and it was right already or the write went through; the file is the new one unless the write was refused |
| Apply.ClearMeans | internal/agent/apply.go:210-228 | A clear changes only the file of a user that is found, with a block that can be told; it succeeds beside that only for a user reported gone with nothing left, or a file without a block |
| Apply.WorkIsDue | internal/agent/apply.go:151-228 | The work list holds exactly the items the targets call for |
| Apply.Rewrite | internal/agent/apply.go:109-133 | A rewrite leaves the file and returns the success the pair's commands determine, and touches no other file |
| Apply.ClearUser | internal/agent/apply.go:210-228 | A user that is gone counts as cleared only if no file is left behind; otherwise the block is emptied only where there is one |
| Apply.RewriteKeeps | internal/agent/apply.go:109-133 | However a rewrite ends, the file is as it was, or its block is set and everything outside it kept |
| Apply.OutsideKept | internal/agent/apply.go:109-133 | Over any run of applies and clears a file is untouched, or what is outside its block is what it was but for one line break |
| Apply.PairHolds | internal/agent/apply.go:185-228 | A pair reported applied holds exactly its lines; a pair reported cleared holds no keys or its user is gone; a failure before the rename changes nothing |
| Apply.TouchedOnce | internal/agent/apply.go:185-228 | The one item about a pair decides its file and what is reported of it |
| Store.WritesBump | internal/store/ssh.go:115-134 | No write can change what Desired reads without moving the revision in the same step, and the revision never goes back |
| Store.RecordBumpsExactly | internal/store/ssh.go:503-548 | A report moves the revision, by one, if and only if it changes a row, provided it does not apply and clear the same pair |
| Store.WritesKeepValid | internal/store/ssh.go:322-339 | Every write keeps one binding per host, one host per agent and ref, and rows only of existing agents |
| Effects.KeysLeft | internal/store/ssh.go:160-224 | Row by row: deleting a key takes the keys of that id, deleting a person takes theirs, and no other write takes any; only adding a key adds one, at the end, under a new id |
| Effects.AssignsLeft | internal/store/ssh.go:253-292 | Setting a row replaces its people, deleting a host or a person takes theirs, and no other write touches an assignment |
| Effects.BindingsLeft | internal/store/ssh.go:272-476 | What every write makes of every host's binding: approval gives it, removing the host, the binding or the agent takes it, a report suspends exactly those it calls mismatched, and nothing else changes it |
| Effects.RowsLeft | internal/store/ssh.go:412-548 | A managed row comes only from a report that applied it, and goes only with a report or uninstall that clears it or with its agent |
| Effects.AgentsLeft | internal/store/ssh.go:361-476 | An agent comes with its creation and goes with a revoke, or with an uninstall that names every row of it as cleared |
| Effects.FailureChangesNothing | internal/store/ssh.go:115-134 | A write that cannot go through leaves everything as it was, the revision included |
| Effects.RevisionMoves | internal/store/ssh.go:115-548 | A write that goes through moves the revision by one, but for a new agent, an uninstall that keeps the agent and clears nothing, and a report that moves no row and suspends no binding |
| Effects.HandedBack | internal/store/ssh.go:412-476 | A revoke hands back exactly the agent's rows, an uninstall exactly those it did not name as cleared |
| Store.SshStore.RecordSSHReport | internal/store/ssh.go:506-548 | The three loops and the change count fold a report into rows, suspensions and revision in one transaction, or change nothing |
| Store.SshStore.RetireSSHAgent | internal/store/ssh.go:441-476 | Cleared rows go, and the agent with its bindings goes once none of its rows is left; otherwise the rows left are returned |
| Store.SshStore.SetSSHRow | internal/store/ssh.go:253-268 | A row's people become exactly the ids given |
| Revocation.WhoGetsIn | internal/sshsync/desired.go:61-131 | A line is sent for a unix user of a target if and only if some stored binding, assignment and key grant it: the binding active, the person live, the line the person's key under the current name |
| Admin.AddKeyHandler | internal/api/ssh_keys.go:106-142 | A key is added only past sudo, for a person of the snapshot, parsed and with a cleaned label, as one write; otherwise nothing changes; stored keys stay well formed |
| Admin.SetRowHandler | internal/api/ssh_access.go:478-508 | A row is set if and only if the caller is past sudo, the user name is well formed, the host is a server and every person exists |
| Admin.RemoveOrphanHandler | internal/api/ssh_access.go:573-595 | A host is forgotten if and only if the caller is past sudo and the host has left the policy |
| Admin.DeleteUserHandler | internal/api/users.go:231-270 | Past sudo with ManageUsers, when the person owns no device and the deletion upstream worked, and only then: no key and no assignment of the person is left, and every other key, assignment, binding and managed row is as it was |
| Admin.RevokeHandler | internal/api/ssh_agents.go:269-312 | An agent is revoked if and only if the caller is past sudo, the agent is known and, unless forced, nothing is bound to it and nothing is left to clear; the rows handed back are those deleted |
| Admin.UnneededHasNoRows | internal/api/ssh_agents.go:64-94 | An agent with no binding and nothing to clear has no managed row |
| Admin.SentLinesSafe | internal/sshsync/desired.go:68-94 | What the handlers store keeps every line the server sends acceptable to the agent's check |
| Revocation.RemovalTakes | internal/store/ssh.go:210-292 | Deleting a person, key, host, binding or agent takes exactly the grants through it, and no other |
| Revocation.RowSets | internal/store/ssh.go:253-268 | Setting a row leaves exactly the listed people granted on that unix user of that host, and every other grant as it was |
| Revocation.KeyGrants | internal/store/ssh.go:160-180 | A key added for a live person is granted on every unix user the person is assigned to on an active binding |
| Revocation.KeyRoundTrip | internal/store/ssh.go:160-224 | Adding a key and deleting it by the id it got gives back the tables |
| Revocation.BindingRoundTrip | internal/store/ssh.go:322-350 | Binding an unbound host and unbinding it gives back the tables |
| Revocation.RemovalUnbinds | internal/store/ssh.go:272-350 | Deleting a host or its binding leaves its target without any binding |
| Revocation.UnboundCleared | internal/sshsync/desired.go:97-115 | An answer names a target without a binding if and only if rows remain for it, writes nothing there, and clears exactly those rows |
| Store.InsertRows | internal/store/ssh.go:516-524 | The number of rows inserted is positive if and only if some applied pair had none |
| Store.DeleteRows | internal/store/ssh.go:526-534 | The number of rows deleted is positive if and only if some cleared pair had one |
| Store.SuspendTargets | internal/store/ssh.go:536-544 | The number of bindings suspended is positive if and only if some binding changed |
| Snapshot.Watcher.Poll | internal/tailnet/snapshot.go:167-205 | A failed poll keeps the last good snapshot and marks the connection; a good one installs the next |
| Snapshot.Watcher.ApplyLocked | internal/tailnet/snapshot.go:210-230 | The revision is bumped if and only if policy, nodes or users changed |
| Snapshot.RevisionIdentifies | internal/tailnet/snapshot.go:210-230 | A revision that has not moved stands for the same policy and users, and it never goes back |
| Snapshot.PollHistory | internal/tailnet/snapshot.go:151-230 | After any polls the snapshot is the last successful read, its revision counts the reads that differed from the one before, and the server is connected if and only if the last poll succeeded |
| Snapshot.ChangedMeans | internal/tailnet/subscribe.go:65-155 | A read is a change if and only if the policy, some field of a user, the number of nodes, or a compared field of one of them differs |
| Snapshot.SeenMeans | internal/api/ssh_access.go:107-114 | The SSH side reads the policy text, and for every user id the name of its last user |
| Snapshot.CompareNodes | internal/tailnet/subscribe.go:65-139 | Node lists are the same if and only if, position by position, everything the comparison reads agrees: name, host name, online state, times, user, tags, approved and routable addresses |
| Snapshot.CompareUsers | internal/tailnet/subscribe.go:141-155 | User lists are the same if and only if every user agrees in all five fields |
| SyncApi.ReportHandler | internal/api/ssh_agent_sync.go:134-177 | A report reaches the store with exactly its well-formed pairs and all its mismatches |
| SyncApi.RetireHandler | internal/api/ssh_agent_sync.go:254-274 | A retirement reaches the store with exactly its well-formed pairs |
| SyncApi.AcceptedMeans | internal/api/ssh_agent_sync.go:123-132 | A pair counts if and only if it was reported and its user and ref are well formed |
| SyncApi.AcceptedInOrder | internal/api/ssh_agent_sync.go:123-132 | What is left of a list of pairs are those with a well-formed user and ref, in order, as often as reported |
| Approval.ApprovalCandidate | internal/api/ssh_access.go:390-410 | A binding may be created if and only if the host is a server, the ref is well formed, and the one online target holding its address is that agent's with that ref |
| Approval.ApproveHandler | internal/api/ssh_access.go:525-543 | The host's binding becomes the given target with the policy's address and the reported label, not suspended, and nothing else changes; it is refused exactly without sudo and ManageSSH, without the one claim, or when the agent is gone or the target is another host's |
| Approval.ApprovedProceeds | internal/api/ssh_access.go:387-410 | What was approved is delivered, and passes the agent's check, as long as the address stands and the target looks as it was reported |
| Approval.TheOnlyClaim | internal/api/ssh_access.go:229-252 | A target is the one claim for an address if and only if it is reported with it by an agent heard of within six minutes, and no other place anywhere is |
| Retire.Retire | internal/agent/retire.go:26-55 | An uninstall applies the clear-only targets of every recorded row, and the server is asked to drop exactly the pairs that were cleared |
| Retire.Group | internal/agent/retire.go:37-47 | Grouping and sorting give one clear-only target per ref with exactly the recorded users, in ref order |
| Retire.LeaveClears | internal/agent/retire.go:37-47 | A pair is to be cleared if and only if it is recorded for the agent |
| Block.FindBlock | internal/sshsync/block.go:52-84 | The scan finds the one block, none, or says whether it is broken or repeated |
| Block.ReplaceBlock | internal/sshsync/block.go:25-50 | The builder loop gives the file with its block set, appended after a line break if there was none, or the error of a file whose block cannot be told |
| Block.ParseBlock | internal/sshsync/block.go:25-84 | A file around a block of plain lines is read back into its three parts, and the lines are read back as they were |
| Block.Rewritten | internal/sshsync/block.go:25-50 | A file can be rewritten exactly when its block can be told; then its block reads back as the lines and the rest is kept |
| Block.ReplaceTwice | internal/sshsync/block.go:25-50 | For safe lines x, replacing by x and then by y is replacing by y |
| Block.ReplaceIdempotent | internal/sshsync/block.go:25-50 | Replacing by the same safe lines again changes nothing |
| Block.Writable | internal/sshsync/block.go:52-84 | Rewriting fails if and only if the begin line is there and is repeated or has no end line after it |
| Block.SafeIsPlain | internal/sshsync/key.go:52-64 | A line that passes SafeLine has no line break and is neither marker |
| Key.LineIsSafe | internal/sshsync/key.go:86-110 | Line of a validated key and a cleaned label passes SafeLine, whatever the Headscale name |
| Key.SafeLineStart | internal/sshsync/key.go:52-64 | A safe line starts with a letter of a key type, so it is no comment and no marker |
| Key.AsciiOnly | internal/sshsync/key.go:95-107 | The builder loop keeps visible ASCII and turns everything else into a question mark, one for one |
| Key.SafeLineMeans | internal/sshsync/key.go:52-64 | A line passes if and only if it has no line break and starts with one of the three families of key types |
| Key.LabelMeans | internal/sshsync/key.go:66-84 | A label is what stands between the white space at both ends, refused exactly when longer than 64 or holding anything but printable ASCII |
| Key.LineParts | internal/sshsync/key.go:86-110 | A line has the parts of the key, then the name with a question mark for all but visible ASCII, then those of the label |
| Key.UnixUserGrows | internal/sshsync/key.go:112-116 | A user name starts with a lower-case letter or underscore and grows, by those, digits and hyphens, to at most 32 characters |
| Key.RefOfNumber | internal/sshsync/key.go:118-123 | The number of a container is a valid ref if and only if it is below 10^9 |
| Diff.DiffLines | internal/acl/diff.go:171-219 | The table and the walk give a script whose old side is a, whose new side is b, and whose equal lines are as many as a longest common subsequence has, and which never deletes right after inserting |
| Diff.FewestEdits | internal/acl/diff.go:171-219 | No other script from a to b has fewer insertions plus deletions |
| Lcs.FillTable | internal/acl/diff.go:173-186 | The dynamic program fills every cell with the length of the longest common subsequence of the two suffixes |
| Lcs.Bound | internal/acl/diff.go:171-219 | No matching of two texts is longer than the table says |
| Lcs.WalkIsLongest | internal/acl/diff.go:188-207 | The greedy walk over the table is itself a longest matching |
| Diff.Unified | internal/acl/diff.go:49-133 | The hunks patch the old lines into lines that, joined, are the new text up to its last line break; insertions and deletions are counted exactly and are the fewest; there is no hunk if and only if the texts differ at most in that line break |
| Diff.LinesOfText | internal/acl/diff.go:232-240 | No text has no lines; no line holds a line break; and the lines joined are the text up to its last line break |
| Diff.SameLines | internal/acl/diff.go:232-240 | Two texts have the same lines if and only if they are equal, or one is the other with its last line ended |
| Diff.Group | internal/acl/diff.go:49-133 | Grouping a script with pending context, open hunks and running line numbers gives hunks that show exactly its changes with their ranges |
| Diff.HunksApply | internal/acl/diff.go:49-133 | Replacing each hunk's old lines by its new lines turns the old text into the new one |
| Diff.HunksInOrder | internal/acl/diff.go:49-133 | Hunks come in order and never overlap |
| Diff.SameHunk | internal/acl/diff.go:82-107 | Two changes share a hunk if and only if every run of equal lines between them has at most three |
| Diff.TrailingEqual | internal/acl/diff.go:222-230 | The count is the length of the run of equal lines from there: all equal, the next one not, and it exceeds three exactly where a hunk closes |
| Diff.NoHunks | internal/acl/diff.go:232-240 | There is no hunk if and only if the two texts have the same lines, which a missing last line break does not change |
| ArrayPatch.UnchangedPairs | ui/src/lib/policyDraft.ts:293-321 | The table and the walk give the pairs of a longest common subsequence, the greedy one |
| ArrayPatch.ArrayOperations | ui/src/lib/policyDraft.ts:261-291 | Gap by gap replacements, removals sorted downwards and additions are exactly what the pairs' gaps call for |
| ArrayPatch.SortDown | ui/src/lib/policyDraft.ts:290-290 | The removals are a permutation of what they were, highest index first |
| ArrayPatch.ReplayGives | ui/src/lib/policyDraft.ts:448-456 | Replaying gives everything that fits in place and then, at the end, what did not |
| ArrayPatch.ReplayPermutes | ui/src/lib/policyDraft.ts:261-321 | Replaying the operations on before always gives a permutation of after |
| ArrayPatch.ReplayExact | ui/src/lib/policyDraft.ts:261-321 | Replaying gives exactly after if and only if no gap but the last has more new than old elements |
| ArrayPatch.ReplayOutOfOrder | ui/src/lib/policyDraft.ts:261-321 | For any three different entries, [a, b, c] to [b, b, c] is replayed in another order |
| Cascade.Deletion.RemoveTarget | ui/src/lib/policyDraft.ts:56-86 | The recursion over a group's emptied tags, in any order, ends in the one document that cleaning for all removed targets at once gives, and counts a change if and only if the target was there |
| Cascade.CascadeCloses | ui/src/lib/policyDraft.ts:56-101 | After deleting a target that is there: it and every tag left without owner are gone and no other, no cleaned position refers to any of them, and no tag is owned by the group |
| Cascade.CascadePreserves | ui/src/lib/policyDraft.ts:103-211 | Entries and routes without a reference survive untouched and in order, hosts are untouched, and a missing target changes nothing |
| Cascade.PlainExactly | ui/src/lib/policyDraft.ts:103-211 | A round of cleaning returns an entry unchanged if and only if it has no reference, and for an SSH test also a destination |
| Cascade.EmptySshTestGoes | ui/src/lib/policyDraft.ts:197-211 | Deleting a group drops an SSH test without a destination that does not refer to it |
| Cascade.OwnersKept | ui/src/lib/policyDraft.ts:61-76 | After a deletion an owner stands in a tag's entry if and only if it did, the tag was kept, and it is not the deleted group |
| Cascade.DeletedOwner | ui/src/lib/policyDraft.ts:61-76 | A deleted tag can remain listed as the owner of another |
| Cascade.CleanTwice | ui/src/lib/policyDraft.ts:94-211 | Two rounds of cleaning are one round for both targets |
| Cascade.CleanCommutes | ui/src/lib/policyDraft.ts:94-211 | The order of the rounds cannot show |
| Cascade.TestTwice | ui/src/lib/policyDraft.ts:174-195 | A policy test cleaned twice, with its emptied lists dropped, is the test cleaned once for both |
| Cascade.WithoutLength | ui/src/lib/policyDraft.ts:213-221 | Comparing lengths tells exactly whether a list referred to a target, and what is left does not |
| Pruning.WithoutMeans | ui/src/lib/policyDraft.ts:213-221 | What is left of a list are the entries that are neither a target's name nor, for a tag, its name with a colon and anything after it, in order |
| Pruning.RuleCleaned | ui/src/lib/policyDraft.ts:103-118 | A rule goes if and only if it names a target and a side names nothing else; otherwise each side keeps what is not named, and the rest is as it was |
| Pruning.GrantCleaned | ui/src/lib/policyDraft.ts:120-136 | The same for a grant, which also goes when it is routed via a named tag |
| Pruning.AutoCleaned | ui/src/lib/policyDraft.ts:155-172 | A route goes if and only if its approvers are all named; the other routes and the exit node keep who is not named |
| Pruning.TestCleaned | ui/src/lib/policyDraft.ts:174-195 | A policy test goes if and only if its source is named, or a list names a target and nothing is left of either; otherwise it keeps what is not named, rewritten with its lists last |
| Pruning.SshTestCleaned | ui/src/lib/policyDraft.ts:197-211 | An SSH test goes if and only if its source or every destination is named, or it has none |
| Pruning.RemovedMeans | ui/src/lib/policyDraft.ts:56-86 | With a group go exactly the tags owned by it alone; with a tag goes nothing else |
| Pruning.SectionsLeft | ui/src/lib/policyDraft.ts:56-92 | After a deletion groups and tag owners are what they were without what went, each tag left with its other owners in order |
| Pruning.ChangesMean | ui/src/lib/policyDraft.ts:94-211 | A round of cleaning reports a change if and only if it changes the document |
| Pruning.DocumentCleaned | ui/src/lib/policyDraft.ts:94-211 | A round rewrites every list entry by entry, in order, and leaves groups, hosts and owners alone |
| SchemaPatch.SchemaWithPendingChanges | ui/src/lib/policyDraft.ts:8-14 | The draft is the operations folded over the schema, in order |
| SchemaPatch.OnSection | ui/src/lib/policyDraft.ts:418-462 | An operation on a key of a section changes that section, at that key, and nothing else |
| SchemaPatch.OneItem | ui/src/lib/policyDraft.ts:445-457 | An operation at a decimal index or at the end does to the section's array what the array operation says |
| SchemaPatch.AppliedThere | ui/src/lib/policyDraft.ts:418-462 | In any document, reading the path up to its last segment after an operation gives what was there with the operation done to that segment |
| SchemaPatch.KeptElsewhere | ui/src/lib/policyDraft.ts:418-445 | A path that parts from the operation's before its end reads what it read |
| SchemaPatch.PutMeans | ui/src/lib/policyDraft.ts:444-462 | At the end of the path an object changes at that key alone; in an array an addition moves up what stands from its place on, a removal closes the gap, and a replacement touches one entry |
| SchemaPatch.OnlySections | ui/src/lib/policyDraft.ts:418-484 | No operation changes anything outside the nine editable sections |
| SchemaPatch.IndexRoundTrip | ui/src/lib/policyDraft.ts:486-492 | An index written into a path is read back as that index, and never as the end of the array |
| SchemaPatch.MapOperations | ui/src/lib/policyDraft.ts:240-259 | Whatever order the keys come in, the operations turn the old map into the new one but for the empty key, and there are none if and only if the maps are equal |
| SchemaPatch.MergedExact | ui/src/lib/policyDraft.ts:444-461 | A map is replayed exactly if and only if its empty key is not added, removed or changed |
| SchemaPatch.ItemsReplay | ui/src/lib/policyDraft.ts:418-462 | Replaying a section's array operations through paths is applying them to the array |
| CascadePatch.CascadePolicyDeletion | ui/src/lib/policyDraft.ts:46-91 | The staged operations, replayed after the pending ones, show the cleaned document section by section; the deletion reports a change if and only if the target was there |
| CascadePatch.DocExact | ui/src/lib/policyDraft.ts:223-259 | The draft is exactly the cleaned document if and only if no map changes its empty key and every array fits its gaps, entries being compared as text, with the order of their keys, which cleaning changes in a policy test |
| CascadePatch.DocPermuted | ui/src/lib/policyDraft.ts:227-238 | Every array section of the draft holds exactly the cleaned entries, in some order |
| Encoding.DocumentTells | ui/src/lib/policyDraft.ts:223-259 | Two documents with the same JSON are equal, the order of the keys of every array entry included, so what is proved of the JSON is proved of the document |
| Encoding.SectionsShown | ui/src/lib/policyDraft.ts:223-259 | Groups, owners and hosts stand in the document under their names, entry for entry, and nothing outside the nine sections does |
| CascadePatch.DeletionCanReorder | ui/src/lib/policyDraft.ts:227-238 | There is a deletion whose draft shows its rules in another order than the cleaned document |
| CascadePatch.DeletionCanMissAKey | ui/src/lib/policyDraft.ts:444-461 | There is a deletion whose draft keeps the group as an owner, of the tag with the empty name |
| Pointer.Pointer | internal/acl/patch.go:255-264 | The builder loop writes each segment escaped after a slash |
| Pointer.PointerRoundTrip | internal/acl/patch.go:255-271 | For every non-empty list of segments, splitting and unescaping the pointer gives the segments |
| Pointer.TokenRoundTrip | ui/src/lib/policyDraft.ts:494-500 | Unescaping an escaped token gives the token |
| Pointer.PointerInjective | internal/acl/patch.go:255-271 | Different segment lists have different pointers |
| PinLock.CheckSecret | internal/api/sudo.go:200-246 | One check under the account's lock ends in exactly the state and outcome of the specification, for PIN and password alike |
| PinLock.GuessBound | internal/api/sudo.go:200-246 | With no success or reset in between, any stretch of a run lasting T compares at most 5 + T / 15 min wrong secrets of an account |
| PinLock.CountsWrong | internal/store/users.go:386-405 | The count is the number of wrong secrets compared, and the lock stands fifteen minutes after the last from the fifth on |
| PinLock.LockedExactly | internal/store/users.go:386-405 | In every run a lock is on record if and only if the count is at least five |
| PinLock.CheckMeans | internal/api/sudo.go:200-246 | One check: a standing lock answers before anything is compared, then twenty failures of the address; a right secret clears the account; a wrong one counts and says how many of five are left, the fifth locking for fifteen minutes; no other account or address changes |
| PinLock.RecentMeans | internal/api/sudo.go:158-173 | The entries kept are those less than fifteen minutes old, in order |
| PinLock.Compact | internal/api/sudo.go:158-173 | The in-place compaction keeps exactly the entries inside the window, in order, and touches nothing behind them |
| PinLock.IpFailures.Add | internal/api/sudo.go:147-156 | A failure is appended to the entries of its address that are still inside the window |
| PinLock.WindowHolds | internal/api/sudo.go:134-173 | Any recorded failure of an address and the twentieth after it are at least fifteen minutes apart |
| PinLock.WindowCount | internal/api/sudo.go:213-225 | No half-open fifteen minutes hold more than twenty recorded failures of one address |
| PinLock.KeptIsRecorded | internal/api/sudo.go:158-173 | What is kept for an address is what was recorded for it, as far as the window reaches |
| Guesses.GuessesBounded | internal/api/sudo.go:200-246 | The bound on guesses holds over every run of requests in flight, whatever the sessions and addresses, and however their steps interleave |
| Guesses.LocksFollow | internal/api/sudo.go:200-246 | In every run the locks are those of the secret checks alone, in the order the requests made them: each check that compares a secret counts and nothing else does |
| Resets.ResetSafe | internal/store/users.go:457-489 | A PIN reset keeps its promise in every run after it, no pass by a PIN-needing role before the account has signed in again and set a PIN in that session, if and only if no request in flight at the reset outlasts it: a setPin past its checks or that they would let pass, or a request that came in with sudo on |
| Resets.ResetOutlasted | internal/api/sudo.go:262-316 | From any state with such a request there is a run in which the account acts and no request that came in after the reset has set a PIN |
| Resets.ResetCanFail | internal/api/sudo.go:262-316 | One such run from an empty system: the PIN of a setPin checked before the reset is written after it and opens sudo for the next session |
| Resets.PinOpens | internal/api/sudo.go:318-345 | Whoever can sign in to an unlocked account and knows its PIN gets past requireSudo, in five steps |
| Grants.PassIsGranted | internal/api/sudo.go:57-74 | Every pass of requireSudo by a role that needs a PIN goes back to the sudo its request read when it came in: granted less than five minutes before to a checked request of the same account and session, and not ended before it came in; PassMeans says which capability and PIN the account then had |
| Grants.PassMeans | internal/api/guard.go:19-43 | Over every run and for every role: a request passes for a capability if and only if, as it came in on a live session, the account was admitted and held that capability and, if it can do more than look, had a PIN set and sudo on that still is |
| Grants.GrantFrom | internal/store/sessions.go:113-150 | A grant on record goes back to the step that made it, with no EndSudo of the session since |
| Grants.OpenedWithPin | internal/api/sudo.go:318-345 | A startSudo passes its check only with the PIN the account has at that moment, on an admitted account, with neither the account nor the address locked |
| Grants.Stands | internal/auth/http.go:214-227 | A request that has come in gets past requireSudo whatever happens before it acts: endSudo, sign-out, reset or a change of role |
| Requests.SoundRun | internal/auth/auth.go:296-316 | In every run a session's credential version is never above its account's, and every account keeps its lock row |
| Requests.CallerMeans | internal/auth/auth.go:296-316 | There is a caller if and only if the session is on record and its account has still the version it was opened with |
| Accounts.AccountAfter | internal/store/users.go:233-489 | What every event makes of every column of an account: each changes the one it is about, a PIN comes only from a checked setPin and goes only with a reset |
| Accounts.SessionAfter | internal/auth/auth.go:215-316 | A session begins with a sign-in that read the account, and ends with a sign-out or the next sign-in of the same caller, with nothing else |
| Accounts.SudoAfter | internal/store/sessions.go:113-150 | Sudo of a session is opened for five minutes by a request of its own past its check, ended by an endSudo of its own, and touched by nothing else |
| Accounts.RequestAfter | internal/api/sudo.go:190-345 | A request keeps its caller and its call, and goes one step on exactly with its own step, in time |
| Sessions.Server.SetPin | internal/api/sudo.go:262-316 | With the caller as the middleware read it, the handler asks for sudo, the password or a fresh sign-in, refuses weak PINs, and stores the PIN and opens sudo, or changes at most the locks |
| Sessions.Server.StartSudo | internal/api/sudo.go:318-345 | With the caller as it was read, the handler opens sudo for five minutes exactly when the check of the PIN the account has now passes |
| Sessions.Weak | internal/api/sudo.go:82-92 | A PIN is weak if and only if its digits are all equal, or each is one above, or one below, the one before |
| Sessions.WeakMeans | internal/api/sudo.go:82-92 | Counted from its first digit a weak PIN stays, rises by one at each place, or falls by one at each |
| Sessions.AllowedMeans | internal/api/sudo.go:57-74 | The gate of a handler opens if and only if the caller is admitted, holds the capability and, if they can do more than look, has a PIN set and sudo on |
| Sessions.NeedsPinMeans | internal/auth/rbac.go:119-129 | A PIN is needed if and only if something beyond the three ways of looking is allowed |
| Sessions.RolesMean | internal/auth/rbac.go:46-77 | Each role may do what the next may and more; only owners and admins reach keys and people, and exactly auditors and members need no PIN |
| Sessions.SetPinMeans | internal/api/sudo.go:262-316 | Who may set a PIN: an admitted account that needs one, with six digits that are not weak, and sudo on, or for a first PIN the password past its locks, or a sign-in less than five minutes old |
| Sessions.ResetMeans | internal/store/users.go:457-489 | A reset takes the PIN, the lock and every session of the account, and nothing of the others |
| Sessions.SignInMeans | internal/auth/auth.go:215-229 | A sign-in ends the old session and starts one that stands for the account exactly while its version is current; no other session changes |
| Semver.CompareSemver | internal/agent/version.go:60-96 | The loops give the comparison of the specification |
| Semver.Total | internal/agent/version.go:60-96 | Comparing the other way round gives the opposite |
| Semver.Transitive | internal/agent/version.go:60-96 | The comparison is transitive, ties included |
| Semver.AgreesWithSection11 | internal/agent/version.go:60-96 | On versions whose identifiers are plain the order is the precedence of section 11 of Semantic Versioning 2.0.0 |
| Semver.PlainIsNeeded | internal/agent/version.go:76-93 | A version with an identifier that is not plain is ordered against section 11 with respect to some version that is |
| Semver.PlainMeans | internal/agent/version.go:77-78 | An identifier is not plain if and only if it is a number out of range, or a hyphen before a number |
| Semver.ParseSemver | internal/agent/version.go:31-58 | The loop reads the version of the specification or nothing |
| Semver.ParsesFormat | internal/agent/version.go:31-58 | Every well-formed version in range is read as its numbers and identifiers, build metadata ignored |
| Semver.ReadIsWritten | internal/agent/version.go:31-58 | Whatever is read as a version is three numbers in range between dots, after a v or not, then perhaps a hyphen and a text, then perhaps a plus sign and a text, and is read as that |
| Semver.IsDowngrade | internal/agent/version.go:12-24 | An update is a downgrade if the offered version is unreadable or lower, and never over an unreadable one |
| Semver.DowngradeMeans | internal/agent/version.go:12-24 | An offer is a downgrade if and only if the running version can be read and the offer cannot, or is lower, which on plain versions is the precedence of section 11; the same version never is |
| Semver.NeverBelowStart | internal/agent/version.go:7-24 | From a real version a chain of accepted updates holds only real versions and never ends below its start |

## Left out

- Messages, audit entries, versions and modes in reports, and HTTP encoding: they decide nothing modelled here.
- Secrets: a hash is the secret itself, so hashes are injective; tokens are fresh by the machine's `used` set.
- Host commands: each pair's probe, read, write and leftover check has one outcome per call of Apply, given by the host; scripts, user switching and `ParsePasswd` are not part of this model.
- ParseKey: not modelled; `Key.Canonical` is the shape it stores, which `Key.LineIsSafe` starts from.
- Admin.AddKeyHandler, Admin.CreateAgentHandler: what ParseKey returns is a parameter; an agent's name and token are left out, so creating one does not fail.
- Admin.RevokeHandler: the tables are as they were read before, and may have changed by the delete; what `Admin.UnneededHasNoRows` says is about what was read.
- Policy text: reading its hosts is a parameter (`HostsOf`), and equal policy hashes stand for equal texts.
- Order of rows: a query lists a table in some order that depends on the table alone (`SyncApi.Listing`); `Loop.Headboard.Sync` takes the listed rows as a parameter.
- The network: a request or report arrives or is lost; a report that arrives late or twice is the event of that write, which every run allows.
- Agent ids: an id is not used again while an agent process with it exists; the schema of the migrations is not part of this model, and its constraints are read off the queries.
- Apply.Apply: WrittenThenFailed stands for any failure after the rename; a write that leaves half a file is not modelled.
- Convergence.Converges: takes a host on which every command can succeed and no other event between the two cycles.
- Stranding.TrackedThroughout: admin writes and reports are guarded as the handlers guard them (`Tracking.GuardedWrite`): refs and reported pairs are well formed.
- Loop.RunLoop: the clock readings and the random draw of each turn are inputs; a loop cancelled from outside ends between turns.
- Requests.Next: an account holds a set of capabilities, any set; `Sessions.CapsOf` is the table of the roles. What the middleware reads for one request is one step, and so is one secret check with its locks; signing in is a step that stores a version read earlier. Identity provider, password check and rate limit of a sign-in are outside. A sign-out is the only end of a session: expiry removes sessions in the same way. Deleting accounts is not modelled.
- PinLock.CheckSecret: the account is in the table when it is checked; a failed read that leaves the request with an older copy of the account is not modelled.
- CascadePatch.CascadeOperations, CascadePatch.AutoOperations: documents in which a section, or a part of autoApprovers, appears or disappears; their one caller never passes such a pair (`CascadePatch.CascadedShape`).
- CascadePatch.CascadePolicyDeletion: the projected document is well typed, as the forms that stage operations make it.
- Snapshot.CompareNodes: fields the comparison skips are one opaque part of a node.
- PinLock.IpFailures: keeps its entries as sequences; the compaction in place is `PinLock.Compact`, on an array.
- PinLock.WindowCount: checks of different accounts from one address are taken one after another, as the program's test and update are not one step across requests.
- Cascade.Deletion.RemoveTarget: how often `affected` counts depends on the order entries are visited in, so it is only said when it is positive; names that every JavaScript object has, such as `constructor`, are not treated specially.
- SchemaPatch.SchemaWithPendingChanges: documents are values, so the copying that keeps a staged operation from being written back is not modelled; the entries of arrays keep the order of their keys, other objects have none, and keys that look like array indices, which JavaScript lists first, are not treated specially.
- SchemaPatch.MapOperations: maps that appear or disappear as a whole are not replayed; a deletion never makes one.
- Semver.ParseSemver: characters stand for bytes, as every accepted version is ASCII in its numbers.
- Diff.Unified: rendering hunks as text and the hash of the document are left out.
- The policy engine, comment-preserving edits of the policy file, the user interface, configuration and proxies: other libraries, or single branches.
