# rucher in Dafny

rucher keeps container workloads ("cadres") on a machine as a directory says they should be. This project models
its reconciler and the self-contained algorithms around it, and proves what they keep.

| file | what it models |
|---|---|
| `Fileset.dfy`, `Cadres.dfy`, `Acceptance.dfy` | which file is what kind of unit, loading and validating a cadre, and exactly what is accepted |
| `Quadletref.dfy`, `References.dfy` | line folding, the quoting tokenizer, the references that decide restarts, and what they find |
| `Plan.dfy`, `PlanLaws.dfy` | the diff engine: the imperative `Compute` and the set-theoretic plan it must equal |
| `Host.dfy`, `Reconcile.dfy` | the machine, the commands of a pass, their failures, and `Apply` |
| `Segments.dfy`, `Agreement.dfy`, `Ledger.dfy` | what each stretch of a pass does; when saved state and host agree, and what runs, over whole runs |
| `Stages.dfy`, `Order.dfy` | exactly when a pass reaches its save, and what a failing step keeps from happening |
| `Deployment.dfy` | what a cadre's directory, manifest and secrets become on its host |
| `Convergence.dfy`, `Retry.dfy`, `Freshness.dfy`, `NewGoal.dfy` | where a pass ends, after any aborted ones for its goal or another; every unit runs with current inputs |
| `SharedServices.dfy`, `UidChange.dfy`, `Removal.dfy` | two units with one service, a user with a new uid, unmanaging a cadre |
| `InPlace.dfy`, `DeadUnit.dfy`, `WebPair.dfy` | runs of the reconciler that go wrong: a failed disable, a stop reported as failed, a lost service |
| `SubidText.dfy`, `Subid.dfy` | subordinate-id allocation by any number of processes under the node lock |
| `Checkout.dfy`, `Paths.dfy`, `Syncing.dfy`, `S3.dfy` | the incremental S3 checkout, where keys of any shape go, one sync as a step from tree to tree, and the cache with its sidecar index |
| `Sopsage.dfy`, `Tamper.dfy` | the SOPS codec over an abstract AEAD, and exactly which files it accepts |
| `HostKeys.dfy`, `Parallel.dfy` | host-key pinning and the bounded parallel map, as steps |
| `NodeConfig.dfy` | the layered configuration merge |
| `Agent.dfy`, `Rollout.dfy`, `Stranded.dfy` | the GitOps pass over names and a fleet of nodes; the same pass over the cadres' hosts; what runs on when a cadre is placed no more |
| `Basics.dfy`, `Text.dfy`, `Ordering.dfy` | options, Go string operations, sorting |

## How it is modelled

A host is a map from locations (limits, a file in either unit directory, a podman secret, a running service, an
enabled unit) to values, the unit files the user manager has loaded, and the saved state. A running service carries
what it read when it was last started: its unit, each support file that unit mentions or its absence, each secret it
names. A pass is a sequence of commands in the source's order. A parameter `faults` says of every command whether it
succeeds, fails without effect, fails after its effect, or tears what it was writing or removing; the host refuses a start
of a unit the manager has not loaded and a login without a password. A failed stop or disable is noted, any other
failure ends the pass before the state is saved. `Pass` is that as a function, and the method `Node.Apply` is proved
to compute it.

SHA-256 is an ideal hash: collision-free and never the empty string. AES-GCM (NIST SP 800-38D), base64 (section 4 of
RFC 4648), SHA-512 and age are parameters of which `Sopsage.Lawful` states what those
standards promise; where a property needs that a tag does not fit other data, it asks for that of the texts at hand (`Tamper.Bound`).

Concurrent code is a step relation, and its properties hold in every reachable state of every run. In the allocator
a process may die before, between and after the two writes of `usermod`; in the S3 sync any download, removal,
pruning or save may be where it ends, and a removal whose error is ignored leaves its file while the sync goes on.

## What was found

Some properties hold of the code under a condition only. Each has its exact condition; those of the reconciler have
a run from a fresh host, or a host, where they fail.

- A unit that stays but loses its `[Install]` section is disabled in place. If that disable fails, its new file is
  written and its old hash is kept: the saved files are not the disk (`Agreement.PassFilesAgree`). Such a mismatch is
  mended by the next pass that reaches its save iff its goal does not want the recorded old content back and the unit's
  own stop or disable does not fail again (`Agreement.MismatchMended`). Over a run the saved files are the disk iff
  every such break was mended later (`Ledger.RunsAgree`). `InPlace.DisableFailsInPlace` is the run, at any unit;
  `InPlace.JobService` is such a unit. When the old content is wanted back, the plan finds it already recorded and
  leaves the new content on the disk.
- A stop that fails after its effect leaves a unit recorded and dead; wanted again unchanged, it is not started
  (`Ledger.WantedAgainRuns`, `Ledger.WantedAgainEnabled`; the runs are `DeadUnit.WantedButDead` and
  `DeadUnit.EnabledButDead`). Over a run a service or native unit is up at the end iff some pass launched or enabled it
  and no later one brought it down in effect (`Ledger.RunsHold`).
- A pass that aborts leaves no record of what it wanted. A pass for another goal then ends as if the first had never been
  tried iff where the aborted plans reached and its own does not, the host is as it was, and what it starts or enables
  is dead or runs as wanted already (`NewGoal.NewGoalAfterAborts`). A file only the aborted goal had is removed by no
  pass of a goal without it (`NewGoal.RevisionLeavesFile`).
- A first pass that starts units and then fails leaves no state file, so a cadre that is placed no more is not removed
  and its units run on (`Stranded.FirstPassAbandoned`). Nothing of an unplaced cadre runs iff every unit that an aborted
  pass or an earlier removal left running and unrecorded was wanted by a completed pass, or brought down, since
  (`Stranded.UnplacedRunsNothing`).
- Nothing rejects `web.container` next to `web.kube`. Dropping one stops the service the other still needs, and the
  pass starts it again only if the other one is launched for a reason of its own
  (`SharedServices.RunningExactlyWhenHandedOver`). `WebPair.WebServiceLost` is the run, from acceptance to the lost
  service, with prune units or without.
- Removing a cadre drops its state whatever failed before: the empty state is true of what is left iff the removal
  takes all (`Removal.DroppedStateForgets`), a condition on the host before it and on what fails. A unit that did not
  stop is forgotten while it runs, where a pass would have kept it (`Removal.StopFailsAndIsForgotten`;
  `Removal.WebContainer` is such a unit).
- An S3 sync ignores the error of removing an object's file, saves its new index and succeeds. It leaves the listing's
  checkout and beside it exactly the files whose removal failed, now or in an earlier sync (`S3.Cache.Sync`;
  `S3.LosesFile` is the run).
- An S3 sync trusts a file whose object has the ETag of the index. When the bucket changes after a failed sync, the next
  completed one, with no removal failing, leaves the plain checkout iff no object fetched only for the first listing stays, listed neither by the
  index nor again, and no object whose ETag went back still holds what was fetched for the first
  (`S3.ListingChanged`; for any sync `S3.PlainWhenTrue`).
- An S3 sync killed between two directories of one pruning leaves a directory that its retry does not reach
  (`S3.TornPruningLeavesDirectory`, `S3.TornRetry`). Later syncs remove it only once an object below it has been listed
  again: a sync whose prunings finish ends without spare directories iff at its start every directory led to a listed or
  lost object, or to a dropped one whose own directory was still there (`S3.Cache.Sync`).
- A key with empty, dot or climbing segments goes where its plain form goes, so that two keys can share a file; one that
  climbs out of the cache is refused unless it comes back by the segments it left (`Paths.IdleSegments`,
  `Paths.ClimbingKeys`). The properties of whole runs of the sync are for listings whose keys do not meet (`Checkout.Apart`).
- The scan for the next subordinate id adds in 64 bits. It finds the next start iff that fits 64 bits and no range whose
  end wraps comes out above it (`SubidText.WrappedStart`; `SubidText.RangePastTheEnd` is a range where it does not).
- The configuration merges two layers. A third could not be added in either order: the two orders agree iff at no
  path a value that is not a map stands between two maps of which the first holds something the last does not define
  (`NodeConfig.ThreeLayers`).

## Model

| member | source | states |
|---|---|---|
| `Fileset.ScanForSection` | internal/fileset/fileset.go:64-78 | the scan finds a section exactly when the scanner reaches a header line for it |
| `Fileset.SectionInMeaning` | internal/fileset/fileset.go:64-78 | a header is found iff some line is it and no line up to it is too long for the scanner |
| `Fileset.KindsByName` | internal/fileset/fileset.go:21-43 | the extension alone, behind any stem, decides: the seven Quadlet kinds, the four native ones, and no other |
| `Fileset.EnabledByName` | internal/fileset/fileset.go:45-78 | timers, sockets and paths are enabled whatever they hold; a service iff a line of it is `[Install]` and no line up to it is too long; nothing else |
| `Fileset.ServiceByName` | internal/fileset/fileset.go:81-95 | a container or kube unit runs as stem.service, any other as stem-kind.service |
| `Fileset.PlainName` | internal/fileset/fileset.go:21-95 | a name without an extension is a support file |
| `Cadres.ScanUnit` | internal/cadre/cadre.go:189-223 | one scan accepts a unit iff all its lines fit, a section is opened, the required section is there and every cadre-local EnvironmentFile is shipped |
| `Cadres.Validate` | internal/cadre/cadre.go:120-171 | the three loops accept exactly: secrets present when declared, no reserved or flag-like name, no service shadowing, every unit valid |
| `Cadres.Load` | internal/cadre/cadre.go:34-107 | loading succeeds iff the manifest and the directory could be read, no entry is irregular, every file to ship could be read and validation accepts; the cadre is the shipped regular files with flags and hashes from name and content, in the form `Apply` needs |
| `Cadres.NoServiceIsMasked` | internal/cadre/cadre.go:143-161 | with the synthesized prune units included, no file has the name of a service that Quadlet generates from one of the cadre's units |
| `Acceptance.AcceptedExactly` | internal/cadre/cadre.go:120-240 | validation accepts iff: secrets present when declared; no name taken by the prune units or like an option; no generated service named as a shipped or synthesized unit; and every unit well formed in its written lines |
| `Acceptance.UnitMeaning` | internal/cadre/cadre.go:189-224 | a unit is well formed iff every line fits, some line opens a section, a Quadlet file has a section named as its extension with a capital, and each EnvironmentFile it asks for is shipped |
| `Acceptance.ReferenceMeaning` | internal/cadre/cadre.go:203-240 | a line asks for a cadre file iff its key is EnvironmentFile and its value, not optional, is a bare name or lies in the unit directory |
| `Quadletref.ScanQuoted` | internal/quadletref/quadletref.go:180-228 | the character loop computes the run of the tokenizer's automaton |
| `Quadletref.TokenizerRoundTrip` | internal/quadletref/quadletref.go:180-228 | words written in any mix of double quotes, single quotes, backslashes and bare characters come back as they were, empty quoted words included, for any white space between them |
| `Quadletref.UnclosedWord` | internal/quadletref/quadletref.go:180-228 | a quote left open ends with the line, and a backslash at its end stands for nothing |
| `Quadletref.FoldContinuations` | internal/quadletref/quadletref.go:100-120 | the loop folds the physical lines, flushing a backslash at the end of the file |
| `Quadletref.RefoldLines` | internal/quadletref/quadletref.go:52-52 | splitting the joined text again gives exactly the folded lines |
| `Quadletref.FoldedUnit` | internal/quadletref/quadletref.go:100-120 | however logical lines are cut, folding restores them |
| `Quadletref.FoldingInvariance` | internal/quadletref/quadletref.go:27-120 | two layouts of the same logical lines refer to the same files and the same secrets, in the same order |
| `Quadletref.CutAtEnd` | internal/quadletref/quadletref.go:100-120 | a unit that ends in the middle of a continued line reads as if its last backslash were not there |
| `Quadletref.ScanMountSource` | internal/quadletref/quadletref.go:82-93 | the loop computes the source of the specification, which `References.MountNames` describes |
| `Quadletref.ScanSecretArgs` | internal/quadletref/quadletref.go:124-151 | the index loop over the words computes the secrets of the specification, which `References.SecretArgsMeaning` describes |
| `Quadletref.ScanFileArgs` | internal/quadletref/quadletref.go:153-178 | the index loop over the words computes the paths of the specification, which `References.FileArgsMeaning` describes |
| `Quadletref.ExtractRefs` | internal/quadletref/quadletref.go:27-78 | the loop over the lines, adding each file to the list unless it is in the seen set it keeps, computes the references of the folded lines |
| `Quadletref.ExtractMeaning` | internal/quadletref/quadletref.go:27-78 | the files found are exactly the base names, but `.` and `/`, of the paths some folded line mentions, each once; the secrets are exactly those some folded line names |
| `References.SecretArgsMeaning` | internal/quadletref/quadletref.go:124-151 | the secrets found are exactly the non-empty names without a comma that, alone or with a comma and options behind them, follow a --secret that is not itself a value, or stand in one word with it |
| `References.FileArgsMeaning` | internal/quadletref/quadletref.go:153-178 | the paths found are exactly the words behind a -v, --volume, --mount or --env-file that is not itself a value, and what stands in one word with such a flag |
| `References.SecretFlagFound` | internal/quadletref/quadletref.go:27-151 | end to end: a secret so named in the words of a PodmanArgs line is found, in any quoting of the words and any layout of the unit |
| `References.SecretWordsFound` | internal/quadletref/quadletref.go:27-151 | end to end over written words: `--secret name`, `--secret name,options`, `--secret=name` and `--secret=name,options` each find `name` |
| `References.SecretsAreCut` | internal/quadletref/quadletref.go:136-150 | no secret found behind the flag is empty or holds a comma |
| `References.FileFlagFound` | internal/quadletref/quadletref.go:27-178 | end to end: so is the base name of a path behind any of the file flags, in both spellings |
| `References.KeyFound` | internal/quadletref/quadletref.go:52-76 | end to end: so is what a Secret=, Volume=, Mount=, AddDevice= or plain path line names, by the explicit tables of keys, in any layout |
| `References.FilesByKey` | internal/quadletref/quadletref.go:22-64 | a line other than PodmanArgs mentions a file iff its key is one of the three with a source or the six with a path; then exactly that one |
| `References.SecretsByKey` | internal/quadletref/quadletref.go:65-72 | a line other than PodmanArgs names a secret iff its key is Secret: what stands before the first comma |
| `References.SilentLine` | internal/quadletref/quadletref.go:52-58 | a line without an equals sign mentions nothing |
| `References.MountNames` | internal/quadletref/quadletref.go:82-93 | a mount names the path of its first source= or src= option |
| `References.VolumeNames` | internal/quadletref/quadletref.go:42-48 | a volume without such an option names what stands before its first colon |
| `References.PathNames` | internal/quadletref/quadletref.go:30-38 | the base name of a path is its last element, whatever slashes follow; slashes alone are the root, nothing is the directory itself |
| `Ordering.SortPermutation` | internal/plan/plan.go:192-201 | sorting forgets the order of its input |
| `Ordering.SortMeaning` | internal/plan/plan.go:192-201 | sorting gives the same strings, each smaller than the later ones where they first differ |
| `Ordering.SortLists` | internal/plan/plan.go:192-201 | sorting any enumeration of a set gives that set's one listing |
| `Plan.DiffSystemd` | internal/plan/plan.go:100-127 | the native-unit loop enables exactly the enable-worthy units not enabled before, restarts the changed ones, and places again the unchanged ones it enables first |
| `Plan.DiffUnits` | internal/plan/plan.go:143-165 | the Quadlet loop starts the new units and restarts exactly those whose own file or a referenced changed or removed input demands it |
| `Plan.OrphanChanged` | internal/plan/plan.go:228-247 | true iff a changed support file is mentioned by no unit |
| `Plan.RestartAll` | internal/plan/plan.go:172-183 | the coarse fallback completes the restart lists to all units that stay, without a duplicate |
| `Plan.RemovedAnyUnit` | internal/plan/plan.go:218-225 | true iff a removed file is a unit |
| `Plan.Compute` | internal/plan/plan.go:42-203 | for every iteration order of its maps the result is the set-theoretic plan |
| `PlanLaws.PlanIgnoresFileOrder` | internal/plan/plan.go:45-203 | any permutation of the cadre's files gives the same plan |
| `PlanLaws.OneActionPerUnit` | internal/plan/plan.go:100-190 | no unit is listed twice in the six lifecycle lists together |
| `PlanLaws.RestartsAreExact` | internal/plan/plan.go:148-183 | a unit that stays restarts iff something it reads (itself, a support file it mentions or its absence, a wanted secret it names) is recorded otherwise than it is wanted, or a support file changed that no unit mentions |
| `PlanLaws.ReloadsAreExact` | internal/plan/plan.go:120-141 | a reload is due iff some unit file comes, goes or changes, or a native unit is enabled or disabled |
| `Reconcile.GoalIsValid` | internal/reconcile/reconcile.go:257-297 | a loaded cadre with its prune units and secrets is a goal the diff accepts: distinct names, flags that follow, hashes of the contents |
| `Reconcile.PlanPass` | internal/reconcile/reconcile.go:310-330 | the plan of a pass, with the stops, disables and removals of the real saved state folded in after a uid change |
| `Reconcile.Node.StopEach` | internal/reconcile/reconcile.go:341-356 | the loop goes on after a failure and returns exactly the units whose stop failed |
| `Reconcile.Node.SendEach` | internal/reconcile/reconcile.go:361-435 | a loop that returns at its first error |
| `Reconcile.BuildNextState` | internal/reconcile/reconcile.go:464-489 | the loop builds the state that names every file, every Quadlet unit and every enabled unit of the goal |
| `Reconcile.RetainFailed` | internal/reconcile/reconcile.go:441-458 | units whose stop failed are kept, filed by kind, with their old hash, in any order |
| `Reconcile.Node.Apply` | internal/reconcile/reconcile.go:257-462 | the imperative pass is the function `Pass`, under every choice of failing commands, and touches nothing when the user cannot be ensured, the state cannot be read, the secrets do not decrypt or an allowlisted one is absent |
| `Stages.PassOkExactly` | internal/reconcile/reconcile.go:332-460 | from a matching host, or one that aborted passes for the goal left half applied, a pass reaches its save iff everything it owes works: limits, directories, every file, secret and due login, the reload, every start, restart and enable, and the save |
| `Stages.LoginsGate` | internal/reconcile/reconcile.go:395-413 | a faultless pass reaches its save iff every login finds its password, or nothing is planned and the state was saved for the same logins and passwords |
| `Stages.DueLoginsSent` | internal/reconcile/reconcile.go:395-413 | from any host, a pass that reaches its save with something planned, or a login or password changed, has sent every login with its password, and each worked |
| `Stages.RegistriesTell` | internal/reconcile/reconcile.go:495-511 | two saved states agree on the registries iff their goals had the same logins with the same passwords |
| `Order.FailureStops` | internal/reconcile/reconcile.go:332-460 | the steps come in the order limits, stops and disables, directories, writes, removals, secrets made, secrets dropped, logins, reload, starts, restarts, enables, native restarts, save: when a step that is owed fails, the pass ends the same however any later one would have fared |
| `Order.LaterStepsSpared` | internal/reconcile/reconcile.go:332-460 | and whatever only later steps would change stays as it was |
| `Deployment.FilesOnHost` | internal/cadre/cadre.go:60-105 | end to end: the files on a host that has reached an accepted directory are exactly its regular files, with their contents, but the manifest, the secrets file, any SOPS file and any sealed identity; and the prune units if enabled |
| `Deployment.ServicesOnHost` | internal/fileset/fileset.go:81-95 | end to end: the services that run are exactly those of the shipped Quadlet files |
| `Deployment.NativesOnHost` | internal/reconcile/reconcile.go:464-489 | end to end: the native units enabled are exactly the shipped ones to be enabled, and the prune timer if pruning is on, never its service |
| `Deployment.SecretsOnHost` | internal/reconcile/reconcile.go:267-297 | end to end: without an allowlist exactly the non-empty values become secrets, with one exactly its keys, empty values included, each with its decrypted value |
| `Deployment.NoSecretsOnHost` | internal/reconcile/reconcile.go:261-266 | without a secrets file none is left on the host |
| `Deployment.GoalGiven` | internal/reconcile/reconcile.go:267-289 | a pass gives up before touching the host iff the secrets file does not decrypt or lacks a listed key |
| `Deployment.PruneUnitsSay` | internal/prune/prune.go:18-44 | the prune service deletes images unused for as long as asked, a week by default, and has no install section; the timer says when, daily by default |
| `Deployment.DirectoryMeaning` | internal/cadre/cadre.go:60-99 | a directory fails to load iff it holds an irregular entry or a file to ship that cannot be read; its secrets are there iff the file the manifest names is |
| `Deployment.PassDeploys` | internal/reconcile/reconcile.go:251-460 | a faultless pass from any matching host does bring an accepted directory to its host, limits included |
| `Deployment.FirstPassLogsIn` | internal/reconcile/reconcile.go:395-413 | a faultless first pass for a directory reaches its save iff every login its manifest lists has its password among the decrypted secrets |
| `Agreement.PassFilesAgree` | internal/reconcile/reconcile.go:336-460 | after a pass from an agreeing host that reaches its save, the saved files are the disk (name, directory, content) iff no failed in-place disable kept the hash of a rewritten file |
| `Agreement.PassFileAgrees` | internal/reconcile/reconcile.go:336-460 | from any host: a name agrees after the pass iff the pass wrote file and hash or removed both, or it did not break the name and the name agreed before |
| `Agreement.MismatchMended` | internal/plan/plan.go:45-60 | a mismatch left by a failed in-place disable is mended by the next saved pass iff the recorded old content is not wanted back and the unit does not fail again |
| `Agreement.PassTyped` | internal/reconcile/reconcile.go:437-460 | the saved unit lists stay duplicate-free, correctly typed and among the saved files, and name exactly the goal's units and those that failed to stop |
| `Agreement.PassNamed` | internal/reconcile/reconcile.go:336-460 | whatever runs or is enabled after a saved pass is named in the state it saved, whatever stops failed |
| `Ledger.RunsAgree` | internal/reconcile/reconcile.go:257-462 | from a fresh host, over any run of saved passes with stops and disables failing in any way: what runs is named in the state, its lists are typed, and the saved files are the disk iff whatever a pass broke a later one mended |
| `Ledger.PassServes` | internal/reconcile/reconcile.go:336-435 | after a saved pass from any host a service runs iff the pass launched it, or it ran and no unit of it that left was stopped in effect |
| `Ledger.PassEnables` | internal/reconcile/reconcile.go:336-435 | the same of an enabled native unit |
| `Ledger.RunsHold` | internal/reconcile/reconcile.go:257-462 | at the end of such a run a service or native unit is up iff some pass launched or enabled it and no later one brought it down in effect |
| `Ledger.WantedAgainRuns` | internal/plan/plan.go:143-165 | a recorded, unchanged unit that is wanted runs after a pass iff its service ran before and was not stopped in effect by a unit that left |
| `Ledger.WantedAgainEnabled` | internal/plan/plan.go:100-127 | a native unit that is wanted, recorded and unchanged, with no unmentioned support file changed, is enabled after a pass iff it was before |
| `InPlace.DisableFailsInPlace` | internal/reconcile/reconcile.go:441-458 | the run: an enabled unit loses its [Install] section, the disable fails, and the saved hash is not the file's; wanting the old content back keeps it so, wanting the new one mends it iff the disable works |
| `InPlace.JobService` | internal/fileset/fileset.go:64-78 | job.service with and without its [Install] section is such a unit |
| `DeadUnit.WantedButDead` | internal/reconcile/reconcile.go:441-458 | the run: a goal, then the goal without one unit whose stop works and is reported as failed, then the goal again: the state saved is the same throughout, the last plan is empty, and the unit, wanted and recorded, does not run |
| `DeadUnit.EnabledButDead` | internal/reconcile/reconcile.go:441-458 | the same run with an enabled native unit, whose disable works and is reported as failed |
| `Freshness.NextStateIsFixedPoint` | internal/reconcile/reconcile.go:464-489 | the plan of any goal against the state saved for it is empty |
| `Freshness.PassConverges` | internal/reconcile/reconcile.go:257-462 | from a host that matches its state, a pass without faults is never refused and makes files, secrets, limits, enabled units and running services exactly the goal's; the state it saves matches the host and the next plan is empty |
| `Freshness.SecondPassIsQuiet` | internal/reconcile/reconcile.go:257-462 | a second pass for the same goal changes nothing on the host |
| `Freshness.PassKeepsFresh` | internal/plan/plan.go:143-183 | what a pass does not restart needed no restart: every unit that runs has read its current inputs |
| `Freshness.RunsStayFresh` | internal/plan/plan.go:143-183 | over any run of goals, each completed after any number of aborted passes for it, or for other goals that leave nothing foreign to it, every running unit was last started with its current unit file, support files and still-present secrets |
| `Retry.CleanPassOk` | internal/reconcile/reconcile.go:405-435 | no command of a faultless pass is refused: every unit it launches is loaded by then |
| `Retry.FirstPassOk` | internal/reconcile/reconcile.go:405-435 | the first pass of any goal, shared services or not, is not refused |
| `Retry.AbortLeavesHalfApplied` | internal/reconcile/reconcile.go:336-462 | however a pass aborts, only what its plan touches has changed, and a unit it was to start is dead or runs with the wanted inputs |
| `Retry.FinalAt` | internal/reconcile/reconcile.go:336-462 | from any such host, the value a completed pass gives every location |
| `Retry.RetryAfterAborts` | internal/reconcile/reconcile.go:299-462 | any number of aborted passes for a goal followed by a faultless one ends with the same host and the same saved state as one uninterrupted pass |
| `NewGoal.PassFramed` | internal/reconcile/reconcile.go:336-462 | from any host, however a pass ends, what its plan does not touch is as it was |
| `NewGoal.EndsAlike` | internal/reconcile/reconcile.go:299-462 | two hosts with one saved state, one matching it: a faultless pass ends alike from both iff they agree where its plan does not reach, have loaded the same or it reloads, and what it starts or enables is dead or runs as wanted |
| `NewGoal.NewGoalAfterAborts` | internal/reconcile/reconcile.go:299-462 | after any aborted passes for any other goals, a faultless pass for a goal ends as if they had never been tried iff they left nothing foreign to it |
| `NewGoal.RevisionLeavesFile` | internal/plan/plan.go:61-70 | the run: a first pass does everything but save, and the next goal, without one of its files, leaves that file |
| `SharedServices.RunningExactlyWhenHandedOver` | internal/fileset/fileset.go:81-95 | with shared services, the running ones are the wanted ones iff every service that is left and still wanted is launched again |
| `SharedServices.DistinctServicesHandOver` | internal/fileset/fileset.go:81-95 | with distinct services that is always so |
| `SharedServices.KeptUnitLosesService` | internal/plan/plan.go:148-190 | when a unit leaves while the one other unit of its service stays and is not launched for a reason of its own, the hand-over fails, whatever else the goal holds |
| `SharedServices.DroppingOneLosesBoth` | internal/plan/plan.go:148-190 | for any two units of one service in any goal without login failures: after two faultless passes, the second without one of them, the service ran, is still wanted and does not run |
| `WebPair.AcceptedPairLosesService` | internal/cadre/cadre.go:120-171 | validation accepts any two ordinary units of one service, and dropping one loses the service, with the synthesized prune units or without |
| `WebPair.WebServiceLost` | internal/reconcile/reconcile.go:257-297 | so it goes with a cadre of web.container and web.kube, from its acceptance on |
| `SharedServices.ContainerAndKube` | internal/fileset/fileset.go:81-95 | a container and a kube unit of one name share a service |
| `UidChange.NewHomeConverges` | internal/reconcile/reconcile.go:310-330 | in a new, empty home a pass applies everything as on a fresh host and ends converged |
| `UidChange.RetryInNewHome` | internal/reconcile/reconcile.go:310-330 | so it does after any number of aborted passes for the goal in the new home |
| `UidChange.OldFilesStillGo` | internal/reconcile/reconcile.go:319-330 | if the old home persisted, files that left the desired set are removed all the same, unless their unit failed to stop |
| `UidChange.OldUnitsStillStop` | internal/reconcile/reconcile.go:318-345 | what the old home ran and no wanted unit runs as is brought down by its recorded unit, unless that stop had no effect |
| `UidChange.OldNativesStillStop` | internal/reconcile/reconcile.go:318-356 | so is what it had enabled and is not to be |
| `UidChange.OldUnitsForgotten` | internal/reconcile/reconcile.go:318-330 | if a unit file left, the pass ends with exactly the unit files on disk loaded |
| `Removal.Remove` | internal/reconcile/reconcile.go:185-219 | nothing if the state does not load; else exactly which locations a removal clears, which it keeps and what stays loaded, for every choice of failing stops, disables and file removals |
| `Removal.RemovalLeavesKeptThings` | internal/reconcile/reconcile.go:181-219 | a removal that takes all leaves the secrets and the limits and nothing else |
| `Removal.DroppedStateForgets` | internal/reconcile/reconcile.go:198-216 | once the state is dropped, it agrees with the host iff no surviving file was there, every running service has a recorded unit whose stop takes effect, and every enabled unit is recorded and its disable takes effect |
| `Removal.RecordedTakesAll` | internal/reconcile/reconcile.go:185-216 | for an agreeing host that runs all its units, each with its own service: so iff no recorded file survives and every recorded unit's stop and disable takes effect |
| `Removal.StopFailsAndIsForgotten` | internal/reconcile/reconcile.go:198-216 | at a host of one running, recorded unit whose stop fails without effect: it runs on and nothing records it |
| `SubidText.ParseShown` | internal/provision/provision.go:52-61 | a range as usermod writes it is read back, trimming, splitting and decimal numbers included |
| `SubidText.OwnsText` | internal/provision/provision.go:70-77 | the prefix test on a line of text is ownership of what the line is read as |
| `SubidText.AppendedRange` | internal/provision/provision.go:120-128 | a line appended to the text is a range appended to what is read from it |
| `SubidText.ScanNextStart` | internal/provision/provision.go:48-67 | the nested loops over the two texts compute the next start of what they are read as, each end a 64-bit sum |
| `SubidText.WrappedStart` | internal/provision/provision.go:48-67 | that is the next start of the ranges iff it fits 64 bits and no range whose end wraps comes out above it |
| `SubidText.RangePastTheEnd` | internal/provision/provision.go:61-63 | a range past 64 bits: the scan starts inside it |
| `SubidText.ScanHasSubid` | internal/provision/provision.go:70-77 | the scan finds a line of the user's iff what the text is read as has one |
| `SubidText.AtoiMeaning` | internal/provision/provision.go:56-60 | a field is a number iff it is digits, with or without a sign and leading zeros, and fits 64 bits; its value is the one printed so |
| `SubidText.RangeText` | internal/provision/provision.go:51-63 | a line is a range iff it is, trimmed, an owner and two numbers kept apart by colons |
| `Subid.NextStartIsLeast` | internal/provision/provision.go:48-67 | the next start is the least number that is at least the base and above every range of both maps |
| `Subid.StepSafe` | internal/provision/provision.go:112-129 | every step, deaths and removals included, keeps the ranges of each map disjoint and the reader's view current |
| `Subid.RunsNeverOverlap` | internal/provision/provision.go:112-129 | in every interleaving the ranges of each map stay pairwise disjoint, and a new one lies above all of both maps |
| `Subid.MutualExclusion` | internal/provision/lock.go:18-38 | two processes are never both past the lock |
| `Subid.FinishedOwnsBoth` | internal/provision/provision.go:120-128 | whoever finishes owns a range in both maps, even after a usermod that died between them |
| `Subid.GivenWhenLacking` | internal/provision/provision.go:112-129 | ranges are given only to a user that lacks one: asking again for a user with both gives nothing |
| `Subid.NthAllocation` | internal/provision/provision.go:48-67 | from empty maps without removals the n-th range starts at 100000 + 65536 n, and ends below 2^32 iff n < 65534 |
| `Checkout.PlainKeys` | internal/store/s3.go:37-44 | a key of plain segments goes to those segments below the cache, and different keys to different places |
| `Paths.IdleSegments` | internal/store/s3.go:37-44 | an empty segment, a dot, or a name with a step back out of it, anywhere in a key, leaves its place as it is |
| `Paths.ClimbingKeys` | internal/store/s3.go:37-44 | a key that climbs out of the cache is refused unless it comes back in by the segments it left |
| `Paths.ClimbsThenPlain` | internal/store/s3.go:37-44 | every path of segments is, to the cleaning, some climbing and then plain names, so the two laws above place every key |
| `Paths.PrefixCut` | internal/store/s3.go:140-180 | the prefix with its slash is cut off a key, and a key that goes on otherwise behind the prefix stays whole |
| `Paths.WholePrefixCut` | internal/store/s3.go:140-180 | a prefix that is empty or ends in a slash is cut off as it is |
| `Checkout.IdentityNamesStore` | internal/store/s3.go:72-72 | two configurations have one identity iff they name one store, endpoints and buckets holding no bar |
| `Checkout.CheckoutIsUnique` | internal/store/s3.go:165-197 | a checkout of an index without spare directories is one tree only: the one a full download makes |
| `Checkout.PlainCheckout` | internal/store/s3.go:187-197 | a checkout with lost files beside it is a plain one iff there are none |
| `Syncing.SyncedStart` | internal/store/s3.go:149-185 | a checkout is current for any next listing, and accounts for its directories |
| `Syncing.CheckoutIsTrue` | internal/store/s3.go:173-185 | what a completed sync leaves is what the store holds iff no file kept for its ETag was stale |
| `Checkout.DropPrunable` | internal/store/s3.go:187-197 | dropping an object with its emptied parents leaves every directory accounted for iff it was before |
| `Checkout.PrunedHoldsOthers` | internal/store/s3.go:120-130 | where pruning stops, the directory holds something that is not on the pruned way |
| `S3.RevisionIgnoresOrder` | internal/store/s3.go:48-60 | the revision does not depend on the order of the objects |
| `S3.IndexFixesRevision` | internal/store/s3.go:104-116 | two listings with one index have one revision |
| `S3.RevisionTells` | internal/store/s3.go:48-60 | for keys and ETags without tab or newline two listings have one revision iff they are the same objects in some order |
| `S3.RevisionNamesIndex` | internal/store/s3.go:48-60 | and so iff they have one index |
| `S3.SyncsTell` | internal/store/s3.go:132-212 | two completed syncs of one store report one revision iff their saved indexes are equal |
| `S3.Cache.LastGood` | internal/store/s3.go:104-116 | answers iff the index is this store's and the cache is there, with the revision of every listing that has the saved index |
| `S3.Cache.Fetch` | internal/store/s3.go:167-185 | one object: afterwards it is there, kept if the index had its ETag and current otherwise, and nothing fetched before is lost; a failure keeps the cache half synced |
| `S3.Cache.PruneEmptyDirs` | internal/store/s3.go:120-130 | uninterrupted, exactly the emptied parents go, up to the first that is not empty |
| `S3.Cache.DropRemoved` | internal/store/s3.go:187-197 | in any order, exactly the objects that left the listing go, but those whose removal fails, which the sync ignores; no directory is made, and directories stay accounted for if prunings finish |
| `S3.Cache.Sync` | internal/store/s3.go:132-212 | from any cache in hand and for any listing: a completed sync leaves the listing's index and checkout, files kept for their ETag as they were, and beside it exactly the files lost now or before; no new directory but those needed, and no spare one iff all were accounted for; a failed one leaves the index and a cache in hand for any next listing; a failed listing answers with the last synced revision and changes nothing |
| `S3.Cache.Settle` | internal/store/s3.go:132-212 | retried against one store, whatever it lists each time and whatever fails, pruning included, the cache settles at the first attempt that completes, with every listed object there; if the listing stayed the same, it is its checkout and the lost files; an attempt where nothing fails completes |
| `S3.Cache.Follow` | internal/store/s3.go:132-212 | over any run of stores and changing listings, each retried until it completes: the index and files are the last listing's and the lost ones; as long as listings held still between attempts, the contents are a full download's; as long as prunings finished too, no directory is spare; and as long as no removal failed, nothing is lost; it gives up only at a target no attempt at which was free of failures, or one with a key outside the cache |
| `S3.PlainWhenTrue` | internal/store/s3.go:165-197 | a completed sync leaves the plain checkout iff no file is lost and nothing it kept was stale |
| `S3.ListingChanged` | internal/store/s3.go:165-212 | a sync to a second listing after a failed one to a first leaves the plain checkout iff nothing fetched only for the first stays and no object whose ETag went back is still the fetched one |
| `S3.ConfiguredFit` | internal/store/s3.go:37-72 | configured stores with bar-free endpoints and buckets, one cache directory and plain, non-nested keys meet what `Follow` asks of a run |
| `S3.LosesFile` | internal/store/s3.go:187-197 | the run that loses a file: an object is synced, leaves the store, and its removal fails |
| `S3.TornPruningLeavesDirectory` | internal/store/s3.go:120-130 | killed between two directories, a pruning leaves one that its retry does not reach |
| `S3.TornRetry` | internal/store/s3.go:120-197 | from the cache such a kill leaves, a completed sync ends with a spare directory |
| `Sopsage.GreedyInverts` | internal/sopsage/cipher.go:27-27 | the greedy pattern splits a written token into the fields it was written from, and no other way |
| `Sopsage.ScalarRoundTrip` | internal/sopsage/cipher.go:35-90 | a scalar decrypts to what was encrypted, type included: the token splits, tag and ciphertext rejoin |
| `Tamper.EncryptWrites` | internal/sopsage/cipher.go:35-50 | a scalar is written as the sealed text without its last 16 bytes, the nonce and those bytes, in base64 behind data, iv and tag, and its type |
| `Tamper.DecryptReads` | internal/sopsage/cipher.go:54-90 | what decrypts is such a token, with a nonce of 32 and a tag of 16 bytes, that opens under the key and the additional data to what is returned |
| `Sopsage.ParseFile` | internal/sopsage/format.go:36-74 | the loop accepts exactly files with distinct data keys and decodable sops blocks, at least one, each later block laid over the earlier ones and a null one changing nothing |
| `Sopsage.ParseEmit` | internal/sopsage/format.go:77-99 | print and parse cancel |
| `Sopsage.Encrypt` | internal/sopsage/encrypt.go:28-78 | the loops build the file of the specification: a stanza per recipient, values sealed to their keys, the MAC over them in order; and fail iff there is no recipient or one cannot be sealed to |
| `Sopsage.Decrypt` | internal/sopsage/decrypt.go:18-85 | the loops compute the specification: parse, data key from the first stanza that opens, values, MAC check |
| `Sopsage.DecryptInvertsEncrypt` | internal/sopsage/decrypt.go:18-85 | the SOPS round trip, for any valid recipients, distinct keys and values, with any one recipient's identity, empty values included |
| `Tamper.DecryptMeaning` | internal/sopsage/decrypt.go:18-85 | decryption accepts a file iff it parses, is not MAC-only, some stanza opens, every value opens under its own key name, and the sealed MAC opens to the digest of the texts in file order; it then gives exactly those texts |
| `Tamper.EntriesReplaced` | internal/sopsage/mac.go:11-41 | under the metadata of an encryption, other data that opens is accepted iff the digests of the joined values are equal |
| `Tamper.EntriesMoved` | internal/sopsage/mac.go:11-41 | with a collision-free digest the entries of an encryption, reordered or thinned out, are accepted iff the joined text is the same |
| `Tamper.DeletionRefused` | internal/sopsage/mac.go:11-41 | so a file with a non-empty entry deleted is refused |
| `Tamper.MovedValueRefused` | internal/sopsage/decrypt.go:39-62 | a sealed value under another key name is refused, if its tag does not fit that name |
| `Tamper.OtherData` | internal/sopsage/cipher.go:54-90 | a token read with other additional data than it was written with opens exactly as far as the cipher lets its tag fit |
| `Tamper.RolledBackRefused` | internal/sopsage/mac.go:23-41 | a file whose lastModified was changed is refused, if the tag of its MAC does not fit the new one |
| `Tamper.EncryptShape` | internal/sopsage/encrypt.go:28-78 | the file has one entry per value, sealed to its key name or empty, and then the block with a stanza per recipient and the MAC sealed to the time |
| `Tamper.EncryptRefuses` | internal/sopsage/encrypt.go:28-45 | encryption fails iff there is no recipient or one is not valid |
| `Tamper.ParseMeaning` | internal/sopsage/format.go:36-74 | a file parses iff its data keys are distinct and its sops entries, at least one, decode; its pairs are its data entries in order |
| `Tamper.MetaMeaning` | internal/sopsage/format.go:36-74 | of several sops entries each field is the last one given, and empty if none gives it |
| `Sopsage.EmptyValuesAreNeutral` | internal/sopsage/decrypt.go:39-67 | files that differ in empty-valued entries only are both accepted or both refused, with the same non-empty values and the same podman secrets |
| `HostKeys.CheckMeaning` | internal/sshx/hostkey.go:40-57 | with one key per host, the check matches the pinned key alone and calls a host unknown iff it has no pin |
| `HostKeys.CheckExactly` | internal/sshx/hostkey.go:40-57 | in any file a key matches iff it is the first pinned for its host and kind, and a host is unknown iff it has no pin |
| `HostKeys.StepSafe` | internal/sshx/hostkey.go:166-196 | every step keeps one key per host and only appends, although decisions rest on stale snapshots |
| `HostKeys.StepOutcome` | internal/sshx/hostkey.go:40-196 | each step comes out exactly so: accepted, to be pinned or rejected as the snapshot was, then as the file is under the lock, which gets one line iff its host has none |
| `HostKeys.LinesStaySingle` | internal/sshx/hostkey.go:157-196 | no interleaving gives a host a second line |
| `HostKeys.RejectedForCause` | internal/sshx/hostkey.go:27-58 | no connection is rejected but for a pin that could not be written or another key pinned for its host |
| `HostKeys.PinsNeverChange` | internal/sshx/hostkey.go:27-58 | in every interleaving a pin never changes or disappears and no second key joins it |
| `HostKeys.AcceptedKeysAgree` | internal/sshx/hostkey.go:27-58 | all connections ever accepted for a host presented its one pinned key |
| `HostKeys.CollectAlgorithms` | internal/sshx/hostkey.go:120-141 | the loop with its seen set computes the algorithm list |
| `HostKeys.AlgorithmsMeaning` | internal/sshx/hostkey.go:120-141 | the list has no repeats and holds exactly the kinds of the pinned keys, and for an RSA key its two SHA-2 signatures |
| `HostKeys.AlgorithmsInOrder` | internal/sshx/hostkey.go:120-141 | keys are asked for in the order they are pinned, an RSA key with its SHA-2 signatures first |
| `Parallel.NeverOverLimit` | internal/parallel/parallel.go:18-36 | in every reachable state the calls in flight are at most the items, and at most the limit if that is positive |
| `Parallel.LoopBlocks` | internal/parallel/parallel.go:18-26 | the loop waits for a slot iff the limit is positive, not above the items, and that many goroutines hold one |
| `Parallel.AsWideAsAllowed` | internal/parallel/parallel.go:18-36 | some schedule has as many calls in flight as that bound allows |
| `Parallel.NeverStuck` | internal/parallel/parallel.go:23-38 | in every reachable state before the return some goroutine can move |
| `Parallel.EveryRunEnds` | internal/parallel/parallel.go:13-39 | no schedule has more than 7 n + 3 steps |
| `Parallel.ResultsAtReturn` | internal/parallel/parallel.go:13-39 | at return each result is its call's value, or the zero value if that call panicked |
| `NodeConfig.DeepMerge` | internal/nodecfg/nodecfg.go:135-152 | the two loops, in any order, compute the merge |
| `NodeConfig.PathLaw` | internal/nodecfg/nodecfg.go:135-152 | at every path: the overlay's value where it overrides, the base's where it is silent, both merged where both are maps |
| `NodeConfig.MergeSelf` | internal/nodecfg/nodecfg.go:135-152 | a document merged with itself is itself |
| `NodeConfig.MergeTwice` | internal/nodecfg/nodecfg.go:135-152 | the same overlay twice is the overlay once |
| `NodeConfig.MergeAbsorbs` | internal/nodecfg/nodecfg.go:135-152 | a merge is its overlay iff the overlay defines, at every path, all the base holds |
| `NodeConfig.ThreeLayers` | internal/nodecfg/nodecfg.go:135-152 | three layers merge alike in either order iff at no path a non-map of the middle one hides a map of the first whose content the last's map does not cover |
| `Agent.Assigned` | internal/placement/placement.go:35-52 | the sorted listing of exactly the cadres placed on the node, for any map order |
| `Agent.Node.Run` | internal/agent/agent.go:54-89 | the pass goes on after a failed apply, reports each, removes exactly the managed rest unless it cannot be listed, and fails iff an apply or that listing failed |
| `Agent.FleetConverges` | internal/agent/agent.go:40-90 | once every node's last pass was on one revision with all applies succeeding, a cadre is managed on a node iff that revision places it there |
| `Rollout.ManagedFollows` | internal/agent/agent.go:54-89 | the managed set of the pass over names is that of the cadres' hosts: applied means the pass reached its save, refused means the state file was kept |
| `Rollout.PassRollsOut` | internal/agent/agent.go:54-89 | end to end: with nothing failing, every placed cadre's host ends converged with an empty next plan, every other managed one keeps its secrets and limits and nothing else and is managed no more |
| `Stranded.PassStrays` | internal/reconcile/reconcile.go:336-460 | a completed pass leaves running and unrecorded exactly what did so before and its goal does not want |
| `Stranded.StraysAreStranded` | internal/agent/agent.go:54-89 | over any history of a cadre, what runs unrecorded is exactly what an aborted pass or a removal stranded and nothing adopted or brought down since |
| `Stranded.UnplacedRunsNothing` | internal/agent/agent.go:68-79 | once a cadre is placed no more and its removal works, nothing of it runs iff nothing was left stranded |
| `Stranded.FirstPassAbandoned` | internal/reconcile/reconcile.go:198-216 | the run: a first pass that fails to save, then a pass that does not place the cadre, which stops nothing |

## Left out

- Running commands, SSH sessions, git, the S3 client and file-system calls appear only as transitions that may fail.
- Going back to an older store when clearing its cache for another one has failed midway: the index still names the older
  store, and what is left of its files is not modelled.
- A listing failure right after a failed sync answers with the old revision over a half-applied cache; the
  checkout is claimed after a completed sync.
- Ledger.RunsAgree: starts from a host nothing was applied to; a lost or hand-edited state file is not modelled.
- Freshness.RunsStayFresh: the one file a native unit reads is its own; what its program opens is not visible to the code either.
- Removing a secret restarts nothing in the code, so freshness speaks of secrets that are still present.
- Registry logins: their effect on the host is not modelled, only that they run, and that one without a password fails the pass.
- Upgrades from a version that kept native `.service` files in the Quadlet directory: the branch that places them again
  is in the plan, the old copy in the wrong directory is not on the modelled host.
- `Plan.writeFiles` holds names where the source holds files, as names determine them; the unit lists of a state are
  multisets, as their order is never read.
- Runtime status, JSON state encoding, the identity and storage files, and starting the user manager.
- `Remove` with purge: a teardown of best-effort commands with ignored results.
- Subid.RunsNeverOverlap: ids in the protocol are unbounded, so it speaks of maps in which the 64-bit scan finds the next start.
- `useradd`, lingering and the rest of user provisioning.
- S3.Cache.DropRemoved: partial downloads under the client's temporary names are not modelled; where a pruning ends early,
  which of the emptied directories stay is left open, though none is new.
- Objects without an ETag, which a bucket never lists.
- Text: a `char` is one rune; invalid UTF-8, and the length of a line in bytes where it nears the scanner's 1 MiB limit, are not modelled.
- Sopsage: YAML, key material, and the one-line-per-stanza armor; the MAC comparison is on whole strings where the source compares in constant time.
- `mac_only_encrypted` files: refused, as in the source.
- A torn known_hosts line, `@revoked` and wildcard entries, and hashed host names.
- `NodeConfig`: strict decoding, `setKey` and the network writer, which edit YAML nodes in place.
- Cadres: decoding the manifest and its own field checks.
- Agent.Node.Run: starts behind the sync and the placement parse, whose failures end the pass before it touches anything.
- Small validators, the command line, tables, scaffolding and deploy scripts: easy members that would add no depth.
