# orchard-gh-bridge, modelled in Dafny

orchard-gh-bridge turns GitHub's "how many runners do you want" into virtual
machines on a fleet of Macs managed by Orchard. One bridge per runner scale
set and one cleanup loop share a cached view of Orchard and a global slot
semaphore. This project models that control loop and proves what it promises.

| file | what it holds |
|---|---|
| `seqs.dfy`, `orchard.dfy` | filtering and counting; VM and worker records, label matching |
| `vmname.dfy` | VM names and how they are attributed back to a scale set |
| `worker.dfy`, `config.dfy` | heartbeat liveness, slot sums, the prune and staleness thresholds |
| `autosize.dfy`, `fairness.dfy`, `placement.dfy` | AutoSize eligibility, the placement cursor, one VM per machine over whole runs |
| `capacity.dfy`, `fleet.dfy` | the semaphore, and every interleaving of scale-ups, completions and sweeps |
| `stateview.dfy`, `singleflight.dfy` | the snapshot cache, and every interleaving of its callers |
| `snapshot.dfy`, `bridge.dfy` | what a bridge reads, and its scale-up, completion and hydrate methods |
| `scaleups.dfy` | whole scale-ups: runs of them over one pool, one repeated on an old snapshot, and each as a run of the interleaving machine |
| `cleanup.dfy` | the sweep: retried deletes, reaping, reconciling, pruning |
| `metrics.dfy`, `eligibility.dfy` | the gauge store and the monitor that maintains it by differences |
| `manager.dfy` | the share each scale set advertises to GitHub |

`dafny verify dfyconfig.toml` checks everything.

Code that updates objects is modelled by classes whose methods are proved
against specification functions; protocols between goroutines are state
machines with one step per lock region or client call. What Orchard and GitHub
answer (listings, create outcomes, failing deletes, the random name suffix, the
clock) are parameters. Go's map reads are `LabelOf` and `Resource`: a missing
label reads as "", a missing resource as 0.

Assumptions the results state as `requires` or as enabling conditions: worker
Names are unique in a listing and VM names are unique; Orchard places a VM only
on a worker whose labels match; a record's pin label is fixed while pinned VMs
are attributed to its Name (a rename is a new record); a VM that no AutoSize
scale-up made carries no pin label; a terminal VM stays terminal.

## Where the code and its documentation part

- A name whose sanitized form is longer than 49 characters loses its suffix to
  the 63-character cut, and its VMs are never attributed to their own scale set
  (`VmName.OwnNameRecognised`). Which scale set they are attributed to instead is
  decided by what the cut leaves of the name (`VmName.LongNameAttribution`,
  `VmName.LongNameGoesAstray`).
- Generated names are documented to be unique. Up to 49 characters, two are the
  same exactly when the sanitized names are and the suffixes agree on the
  characters the cut leaves, eight up to length 42 and one fewer for each
  character more (`VmName.NamesCollideIff`). From 50 on a scale set has one name
  for all its VMs (`VmName.LongNamesCollide`), and shares it with another exactly
  when the cut leaves the same of both (`VmName.LongNamesCollideIff`).
- `Invalidate` is documented to make the next scaling decision see the change. A
  `Get` begun afterwards can still be handed a VM list read before it exactly
  when a refresh that had already read its list, and may still publish it, was in
  flight (`SingleFlight.InvalidateForcesFreshIff`).
- The shared view is documented to let bridges see what is already in flight. A
  create error leaves the old snapshot cached, and another bridge may read it
  before it is dropped. Fixed-size scale-ups from one snapshot keep a pool within
  its slots exactly when together they create no more than its load left free
  (`ScaleUps.SharedSnapshotFitsIff`); after a failure they may not
  (`ScaleUps.FailureOverfills`), unless the semaphore has no more slots left than
  the pool (`ScaleUps.FailureOverfillsIff`).
- The sweep is documented to correct the in-use count. What it leaves is off by
  the VMs it counted that are gone by then, less those born since it read its
  listing, those it left out though they are there, and every slot in flight
  (`Fleet.SweepLeaves`). That error then moves by exactly what the machine's steps
  move it (`Fleet.DriftExactly`): up where Release's floor swallows a slot, down
  where a completion comes through for a VM the sweep had already deleted. So
  until the next sweep VMs may exceed the maximum by what the count fell short and
  by the VMs gone whose completion is still to come, and by no more
  (`Fleet.OvershootBound`); `Fleet.SweepLosesSlotsInFlight` reaches that bound
  from a count that fell short, `Fleet.SlotGivenBackTwice` from an exact one.
- A VM whose delete failed is documented to be retried until it is gone. A VM
  born after the sweep's listing and queued before the sweep drops unlisted
  names is forgotten (`Fleet.MarkRaceForgets`), and that race is the only way
  (`Fleet.RetainForgetsIff`, `Fleet.NothingForgotten`).
- One VM per machine needs a fresh snapshot for each AutoSize scale-up. Two
  scale-ups over one free list keep it exactly when, going round the list from
  their cursors, each ends before the other begins
  (`Placement.SharedSnapshotIff`); two bridges whose cursors stand on the same
  worker always double up (`Placement.SharedSnapshotDoubles`); and after a create
  error, which leaves the old snapshot cached, the same bridge, if its listener
  goes on in spite of the error it is handed, is safe exactly
  when its next batch fits behind the slots the failed one had acquired
  (`ScaleUps.RetryAfterFailureIff`). These are judged against Orchard as it was
  when the snapshot was read; judged against any later state, a batch is harmless
  exactly when none of its pins is on an unfinished VM by then
  (`Placement.LaterBatchIff`).
- A static `maxVMs` is documented to override auto-detection. It survives a sweep
  exactly when it equals the live slot sum (`Cleanups.Cleanup.Sweep`), so a fleet
  of one machine with any other number of slots loses it
  (`Workers.StaticMaxIsLost`).
- The share is documented to stay in step with placement. Beyond the scale set's
  own load it can all be placed exactly when the hidden machines do not outnumber
  the excess of counted VMs over machines paid for (`Managers.PlaceableIff`), and
  it exceeds what is free by at most the hidden machines
  (`Managers.AdvertisedBound`): those whose pin is kept busy only by VMs that are
  on no live worker and ask for a label the machine does not have
  (`Managers.HiddenIff`). Two scale sets and one relabelled worker reach the
  bound (`Managers.RelabelledWorkerOversells`).
- A changed exclusion is documented to be warned about again. The comparison
  joins names with commas, so it is exact for names without commas
  (`Eligibility.SameExclusionIff`) and can miss a change otherwise
  (`Eligibility.CommaHidesAChange`).

## Model

| member | source | states |
|---|---|---|
| `Placement.OneVMPerPin` | bridge/autosize.go:146-191 | In every state of every run of scale-ups on fresh snapshots, scheduling, status changes, removals and arbitrary fleet changes, no two unfinished pinned managed VMs carry the same pin label |
| `Placement.OneVMPerMachine` | bridge/autosize.go:17-24 | With pin labels that belong to machines across renames, no machine ever hosts two such VMs |
| `Placement.StepKeeps` | bridge/bridge.go:209-276 | The three-part invariant (exclusive pins, known records, placed VMs under a Name that registered with their pin) is kept by every step from any state, not only reachable ones |
| `Placement.RunKeeps` | bridge/bridge.go:209-276 | It holds in every state of every run from an empty start |
| `Placement.PinnedHoldsItsPin` | bridge/autosize.go:154-164 | Pending, scheduled, renamed away or stale, a pinned VM always keeps exactly its own pin busy in the eyes of any live subset of the fleet |
| `Placement.FreshBatch` | bridge/bridge.go:244-268 | A batch from a fresh snapshot gives its VMs distinct pins, none of them held by an existing VM |
| `Placement.LaterBatchIff` | bridge/bridge.go:214-268 | A batch picked from one state and created in any later one, whatever ran or ended in between, keeps one VM per pin there if and only if no worker it picked has its pin on an unfinished VM by then |
| `Placement.TwoBatchesIff` | bridge/bridge.go:214-268 | Two enabled scale-ups picked from one state, whatever their label sets, cursors and sizes, and added to that state, keep one VM per pin if and only if the workers they pick have no pin in common |
| `Placement.SharedSnapshotIff` | bridge/bridge.go:244-268 | Over one free list of n, with d the distance from the first cursor's worker round to the second's, they do if and only if the first batch is at most d and the second at most n minus d |
| `Placement.RetryOnOldSnapshotIff` | bridge/bridge.go:246-266 | When the second cursor stands where the first batch's acquired slots end, they do if and only if the second batch fits in the rest of the list |
| `Fairness.ApartIff` | bridge/bridge.go:246-251 | Two windows of placements share no worker if and only if each ends, going round, before the other begins |
| `Placement.BatchFillsWorkers` | bridge/bridge.go:251-266 | The i-th VM of a batch matches exactly one live worker, the one the cursor picked, and its size plus the reserves is that worker's size, with at least one core and one MiB |
| `Placement.SharedSnapshotDoubles` | bridge/bridge.go:214-251 | Two scale-ups of any sizes over one free list whose cursors stand on the same worker always break it |
| `AutoSize.PinCounts` | bridge/autosize.go:63-71 | The map counts, for every non-empty pin, exactly the workers holding it, and never the empty pin |
| `AutoSize.AutoSizeCandidates` | bridge/autosize.go:105-118 | The result is the label-matching workers with no exclusion reason, in input order |
| `AutoSize.EligibleIffPlaceable` | bridge/autosize.go:78-101 | A label-matching worker is eligible if and only if it is unpaused, has a pin, can be sized, and is the only live holder of its pin |
| `AutoSize.ReasonIff` | bridge/autosize.go:78-101 | The reason of a worker is the first that applies, in this order: paused, no pin label, another worker at another place with the same pin, a resource not reported, cores or memory not above the reserves |
| `AutoSize.MergedLabelsIff` | bridge/bridge.go:337-348 | A worker answers to the merged labels if and only if it holds the pin and answers to every other label of the scale set |
| `AutoSize.ReservesInForce` | bridge/autosize.go:211-221 | The reserves in force are never zero: what is configured, or four cores and 4096 MiB |
| `AutoSize.CandidateIsTheOnlyTarget` | bridge/autosize.go:193-209 | Sizing never fails on a candidate, leaves at least one core and one MiB, adds back to the worker's own size, and the merged labels match that worker alone |
| `AutoSize.CandidatePinsDistinct` | bridge/autosize.go:103-118 | No two candidates share a pin |
| `AutoSize.ManagedPinIdentities` | bridge/autosize.go:165-191 | The result is the pins of unfinished managed VMs: through their live worker when it is known, else by their own pin label |
| `AutoSize.CompactFree` | bridge/autosize.go:136-143 | Filtering in the candidates' own storage leaves exactly the kept candidates, in order, at its front |
| `AutoSize.FreeAutoSizeWorkers` | bridge/autosize.go:133-144 | The result is the candidates whose pin no managed VM holds, in order |
| `AutoSize.FreeIff` | bridge/autosize.go:129-191 | With unique Names a candidate is free if and only if no managed VM neither stopped nor failed, of whatever scale set and size, runs on it, or carries its pin while assigned to no live worker |
| `AutoSize.FreePinsDistinct` | bridge/autosize.go:129-144 | Free workers have pairwise distinct pins |
| `Fairness.BatchingDoesNotMatter` | bridge/bridge.go:244-251 | However placements are cut into batches, they walk the free list in one unbroken rotation |
| `Fairness.SlotIsRemainder` | bridge/bridge.go:251 | The rotation the proofs use is the code's remainder |
| `Fairness.RotationDistinct` | bridge/bridge.go:251 | Placements less than a full turn apart go to different workers |
| `Fairness.WholeTurns` | bridge/bridge.go:244-251 | Any window of m times n placements, starting anywhere, gives each of n workers exactly m |
| `Fairness.WindowCount` | bridge/bridge.go:244-251 | Any window gives each worker the quotient of its length or one more |
| `Fairness.FairRun` | bridge/bridge.go:244-251 | Over any run of batch sizes, two indices of a fixed free list are picked equally often, or one once more |
| `ScaleUps.FairPlacement` | bridge/bridge.go:209-276 | Over any run of one bridge's actual AutoSize scale-ups that find the same free list and whose creates all work, any two of its workers are the pin of equally many of the created VMs, or one of one more |
| `CapacityModel.ReleaseUndoesAcquire` | bridge/capacity.go:34-56 | Giving back what was granted restores the count |
| `CapacityModel.GrantedBounds` | bridge/capacity.go:34-45 | What is granted is at most what was asked, never takes the count past the maximum, is nothing once it is there, and is all that was asked unless it reaches it |
| `CapacityModel.Capacity.TryAcquire` | bridge/capacity.go:34-45 | What is handed out and the new count, as a function of count, maximum and demand; nothing else changes |
| `CapacityModel.Capacity.Release` | bridge/capacity.go:48-56 | The count falls by what is given back, floored at zero |
| `CapacityModel.Capacity.Reconcile` | bridge/capacity.go:77-81 | The count becomes the given one, unclamped, and the maximum stays |
| `CapacityModel.Capacity.AdoptExisting` | bridge/capacity.go:86-90 | The count grows without regard to the maximum |
| `CapacityModel.Capacity.SetMax` | bridge/capacity.go:94-107 | The maximum is replaced, and listeners are told exactly when it moved |
| `Fleet.SemaphoreIsExact` | bridge/capacity.go:13-56 | In every interleaving of bridges' scale-ups and job completions from start-up without a sweep, in-use equals VMs in Orchard plus slots in flight plus completions not yet released, VMs never exceed the maximum, and no release enabled next would hit the floor |
| `Fleet.DriftExactly` | bridge/capacity.go:47-81 | In every run from any accounted state, sweeps included, the count minus VMs and slots in flight changes by exactly the sum of its steps' moves: the floor, a completion's delete of a VM already gone, a sweep's delete of one that is there, and the overwriting end of a sweep |
| `Fleet.OvershootBound` | bridge/capacity.go:32-56 | Until the next sweep, whether or not the floor fires, VMs exceed the maximum by at most what the count fell short plus the VMs gone whose completion is still to come |
| `Fleet.DriftFallsWithGone` | bridge/bridge.go:400-418 | Between sweeps the drift falls only as the completion of such a VM comes through |
| `Fleet.StepMovesDrift` | bridge/capacity.go:47-81 | Each step's move, exactly |
| `Fleet.StepKeepsAccounted` | bridge/bridge.go:379-424 | Every step, sweep steps included, keeps what this needs: names in use have been born, and no VM is there whose deletion has come through |
| `Fleet.SweepLeaves` | bridge/cleanup.go:213-249 | Whichever of its listed VMs a sweep counts, the count it installs is off by exactly the counted ones gone, less those born since its listing, less those left out that are there, less every slot in flight |
| `Fleet.SweepDrift` | bridge/cleanup.go:219-249 | If it counts all it listed but what sweeps deleted, it leaves out nothing that is there |
| `Fleet.SlotGivenBackTwice` | bridge/cleanup.go:402-433 | From any full start-up state of two slots or more, a sweep that deletes a VM whose completion is under way ends with an exact count, and the run still ends one VM over the maximum |
| `Fleet.SweepLosesSlotsInFlight` | bridge/cleanup.go:246-254 | From any start-up state with one slot left and two bridges, a run with a truthful sweep during a scale-up ends with one VM more than the maximum |
| `Fleet.ScaleUpStepMovesDrift` | bridge/bridge.go:179-196 | No step of a scale-up moves the drift, failing and skipping ones included, but by what the floor swallows |
| `Fleet.JobStepMovesDrift` | bridge/bridge.go:379-424 | No step of a job completion does either, except the delete of a VM already gone, which lowers it by one |
| `Fleet.FloorNeverFires` | bridge/capacity.go:47-56 | In any state where the equation holds, no enabled release gives back more than is in use |
| `Fleet.NothingForgotten` | bridge/bridge.go:400-411 | Whatever interleaves, sweeps included, every VM of this process that Orchard still has is tracked by a bridge, being completed, or queued for deletion, unless a mark races a sweep |
| `Fleet.RetainForgetsIff` | bridge/cleanup.go:103-114 | Dropping unlisted names from the queue forgets a VM if and only if some queued VM was born after the sweep's listing |
| `Fleet.MarkRaceForgets` | bridge/cleanup.go:81-114 | From any start-up state with a free slot there is a run that ends with a VM Orchard still has and nobody remembers |
| `Fleet.StepCovers` | bridge/cleanup.go:402-433 | Every other step, the sweep's deletes, clears and purges included, forgets nothing |
| `StateViewModel.StateView.Get` | bridge/stateview.go:75-125 | Whatever other goroutines do meanwhile: a young snapshot is served as it is; a leader caches and returns a good read, and hands out its old snapshot with the error after a bad one; a joiner gets what it finds, with the error whenever the last refresh failed, or leaves with an error; no snapshot is always an error |
| `StateViewModel.StateView.Invalidate` | bridge/stateview.go:129-133 | Only the snapshot is dropped |
| `SingleFlight.OneRefreshInFlight` | bridge/stateview.go:83-123 | In every interleaving, at most one caller leads a refresh, no wait channel is closed twice, and every waiter's channel is closed or belongs to the running leader |
| `SingleFlight.ClosedOnceByLeader` | bridge/stateview.go:104-118 | A channel is closed by the caller that made it, once |
| `SingleFlight.NilErrorMeansCurrent` | bridge/stateview.go:68-125 | Get never returns neither snapshot nor error, and without an error the snapshot is the result of the last completed refresh, which succeeded, and is younger than the ttl or completed after the caller began |
| `SingleFlight.InvalidateForcesFreshIff` | bridge/stateview.go:127-145 | A Get begun after Invalidate can still be handed, without an error, a VM list read before it if and only if a refresh that had read its list and may still publish it was in flight as Invalidate ran |
| `SingleFlight.StepKeeps` | bridge/stateview.go:75-133 | The protocol's invariant is kept by every step, failed refreshes, cancelled joiners and the clock included |
| `SingleFlight.StaleAfterInvalidate` | bridge/stateview.go:110-115 | The run that overwrites an Invalidate with the older list, step by step |
| `Snapshots.IndexByName` | bridge/stateview.go:150-163 | The Name index, later records winning |
| `Snapshots.ByNameFinds` | bridge/stateview.go:31-34 | With unique Names the index finds every worker, and it itself |
| `Snapshots.SnapshotHolds` | bridge/stateview.go:147-163 | A snapshot keeps the listed VMs and all worker records, and apart exactly the workers whose heartbeat is within the threshold or not reported |
| `Snapshots.ManagedVMsForScaleSet` | bridge/stateview.go:169-183 | Exactly the VMs attributed to the scale set, in order |
| `Snapshots.ManagedVMsMatchingLabels` | bridge/stateview.go:190-210 | Exactly the managed VMs in the label pool: judged by their worker when assigned, by their own labels when not |
| `Snapshots.CountActiveVMs` | bridge/bridge.go:357-366 | The number of VMs neither stopped nor failed |
| `Snapshots.NewVMsAreCounted` | bridge/bridge.go:164-172 | Pending VMs created with the pool's labels raise its load by exactly their number |
| `Snapshots.PoolLoadGrows` | bridge/stateview.go:185-210 | Whatever VM is added, a pool's load grows by one if it is managed, neither stopped nor failed, and on a live worker with the pool's labels or on none and asking for them; else not at all |
| `Snapshots.AssignedLoad` | bridge/stateview.go:196-204 | On a live worker only that worker's labels decide; on one that is not live the VM never counts |
| `ScaleUps.PoolNeverOverfilled` | bridge/bridge.go:141-204 | Over any sequence of actual fixed-size scale-ups by scale sets with equal labels on a fixed fleet, each reading a snapshot taken after the one before, the pool's load grows by exactly the created VMs and never passes the larger of its slots and where it began |
| `ScaleUps.SharedSnapshotFitsIff` | bridge/bridge.go:155-196 | Over any sequence of them that all read one snapshot, against whatever Orchard holds by then, the load grows by exactly the created VMs and stays within the slots if and only if these are no more than the slots left free |
| `ScaleUps.FailureOverfills` | bridge/bridge.go:190-194 | On every pool with two or more free slots, while the semaphore has as many for each call, a scale-up that asks for all of them and fails after one VM, and another scale set's on the snapshot left cached, end one VM over |
| `ScaleUps.FailureOverfillsIff` | bridge/bridge.go:179-196 | Where both go through one semaphore, the second finding one slot more in use, the pool ends over its slots if and only if the semaphore had more slots left than the pool |
| `Bridges.Bridge.HandleDesiredRunnerCount` | bridge/bridge.go:141-204 | On every exit path: how many slots are acquired, how many VMs are created before the first failure, the count reported, whether it fails and invalidates, the semaphore moved by exactly the created ones, and the new activeVMs, Orchard contents and cursor |
| `Bridges.Bridge.HandleFixedScaleUp` | bridge/bridge.go:155-204 | The same for the fixed-size branch |
| `Bridges.Bridge.HandleAutoSizeScaleUp` | bridge/bridge.go:209-276 | The same for the AutoSize branch, whose skip of an unsizable worker is unreachable |
| `Bridges.Bridge.CreateFixed` | bridge/bridge.go:187-196 | The create loop makes VMs in order until the first failure and no further |
| `Bridges.Bridge.CreatePinned` | bridge/bridge.go:248-268 | The AutoSize loop makes exactly the prefix of the rotated batch before the first failure |
| `Bridges.Bridge.CreateOneVM` | bridge/bridge.go:281-311 | Success adds one VM and one tracking entry; failure adds neither |
| `Bridges.Bridge.HandleJobCompleted` | bridge/bridge.go:379-424 | The entry is always forgotten; a successful delete frees one slot and removes the VM, a failed one hands its name to cleanup and frees nothing, an unknown runner changes nothing |
| `Bridges.Bridge.PurgeActiveVM` | bridge/bridge.go:428-436 | One tracking entry goes, the semaphore stays |
| `Bridges.Bridge.HydrateFromOrchard` | bridge/bridge.go:111-135 | The scale set's unfinished VMs are tracked under their names, and their number is returned |
| `Bridges.AcquiredIsLargest` | bridge/bridge.go:146-183 | The acquired number is the largest that demand, the view's room and the semaphore allow |
| `Bridges.AcquiredExactly` | bridge/bridge.go:146-183 | In every case of view and mode the acquired number is the least of the runners missing, the free workers or the pool's slots less its load, and the slots the semaphore has left; without a snapshot none, without a StateView none with AutoSize and unbounded by the view otherwise |
| `Bridges.FixedVMsAsConfigured` | bridge/bridge.go:313-326 | Every VM of a fixed-size scale-up has the configured labels, cores and memory, its own name and no worker |
| `Bridges.AdoptableIff` | bridge/bridge.go:111-135 | Adopted are exactly the VMs attributed to the scale set that are neither stopped nor failed |
| `Bridges.HydrateTracks` | bridge/bridge.go:126-133 | Each adopted VM is tracked under its own name |
| `Bridges.AutoSizeScaleUpIsPlacementStep` | bridge/bridge.go:209-276 | From a fresh snapshot, what the scale-up does to Orchard is an enabled step of the placement machine, failures included |
| `Bridges.FixedScaleUpAdmission` | bridge/bridge.go:155-196 | From a fresh snapshot, the pool's load rises by exactly the created VMs, never past its slots |
| `Bridges.TrackedGrows` | bridge/bridge.go:300-302 | With new names, activeVMs grows by exactly the created VMs, so the reported count is its size |
| `ScaleUps.RetryAfterFailureIff` | bridge/bridge.go:262-266 | A bridge's AutoSize scale-up and, if its listener goes on, its next one on the same snapshot keep one VM per pin if and only if the second creates at most the free workers less the slots the first acquired |
| `ScaleUps.ScaleUpIsFleetRun` | bridge/bridge.go:177-203 | An uninterrupted scale-up of either kind is a run of the interleaving machine, acquire, create and track each VM, then finish or fail and give back, ending with exactly its VMs more and its created count in use |
| `ScaleUps.NewVMsCarryNames` | bridge/bridge.go:281-302 | The VMs Orchard gains are exactly those under the tracked names, in order |
| `ScaleUps.CompletionIsFleetRun` | bridge/bridge.go:379-424 | An uninterrupted job completion is a run of it too, whether the delete works or the VM is handed to cleanup |
| `VmName.SanitizeCanonical` | bridge/vm.go:36-41 | A sanitized name holds only lower-case letters, digits and hyphens and no hyphen at an end |
| `VmName.SanitizeMeans` | bridge/vm.go:37-39 | A sanitized name is the cleaned one without its leading and trailing hyphens |
| `VmName.CleanCharsAt` | bridge/vm.go:37-38 | Each character is cleaned by itself: a capital becomes its small letter, a small letter, digit or hyphen stays, the two other runes that lower to ASCII letters become them, and anything else a hyphen |
| `VmName.SanitizeOfCanonical` | bridge/vm.go:36-41 | Sanitizing is idempotent |
| `VmName.GeneratedNameShape` | bridge/vm.go:20-31 | Every generated name is managed, at most 63 characters, of safe characters, and ends in no hyphen; when two are equal is `VmName.NamesCollideIff` |
| `VmName.NamesCollideIff` | bridge/vm.go:20-31 | Up to 49 characters, two generated names are equal if and only if the scale sets sanitize alike and the suffixes agree on the characters the cut leaves |
| `VmName.LongNamesCollide` | bridge/vm.go:26-29 | From 50 on, all names of one scale set are equal |
| `VmName.LongNamesCollideIff` | bridge/vm.go:26-29 | A long name equals another long one if and only if the cut leaves the same of both, and a short one if and only if it leaves what the short one's name is behind the common prefix |
| `VmName.AttributionIsUnique` | bridge/stateview.go:165-183 | Any VM name, whoever made it, is attributed to at most one sanitized scale-set name |
| `VmName.OwnNameRecognised` | bridge/vm.go:20-41 | A scale set recognises its own VMs if and only if its sanitized name has at most 49 characters |
| `VmName.AttributionRoundTrip` | bridge/vm.go:33-41 | Up to that length, a VM generated for s is attributed to t if and only if s and t sanitize alike |
| `VmName.LongNameAttribution` | bridge/vm.go:26-29 | Past it, a VM generated for s is attributed to t if and only if what the cut leaves of the sanitized s is the sanitized t, a hyphen and a hyphen-free rest |
| `VmName.LongNameGoesAstray` | bridge/vm.go:26-29 | So a long name extending another by a hyphen-free part has its VMs attributed to the other if and only if the other is shorter than 50 characters, and never to itself |
| `Workers.LiveWorkers` | bridge/worker.go:46-55 | Exactly the workers within the threshold, or with no heartbeat reported, in order |
| `Workers.LiveUntil` | bridge/worker.go:22-36 | A worker is in the live list up to and including the threshold after its last heartbeat, and always without a heartbeat reported or without a threshold |
| `Workers.LiveKeepsUniqueNames` | bridge/stateview.go:147-155 | Filtering keeps Names unique |
| `Workers.CapacityForLabels` | bridge/cleanup.go:485-499 | The slot sum of the unpaused label-matching workers, with the conversion to a signed integer |
| `Workers.CapacityGrows` | bridge/cleanup.go:481-508 | One more worker adds its slots to a pool if it is unpaused, offers some and answers to the labels, and nothing otherwise |
| `Workers.MaximumGrows` | bridge/cleanup.go:468-479 | It adds them to the global maximum whatever its labels |
| `Orchard.AsIntWraps` | bridge/cleanup.go:474-475 | The conversion of slots to a signed integer is the one of two's complement |
| `Orchard.MatchesIff` | bridge/stateview.go:212-219 | A wanted label is there with its value, or is wanted empty and not there |
| `Orchard.MatchingIsNotTransitive` | bridge/stateview.go:212-219 | Matching is reflexive and, for empty values, not transitive |
| `Workers.StaticMaxIsLost` | bridge/cleanup.go:251-254 | For a fleet of one live worker whose slots differ from a static maximum, the slot sum a sweep installs differs from it |
| `Config.Validate` | config/config.go:214-245 | Each threshold error is reported exactly under its condition, and none exactly when the thresholds are accepted |
| `Config.PruneBeyondStale` | config/config.go:313-337 | For every accepted configuration, pruning is off or starts strictly beyond the staleness in force, and is off only when disabled or suppressed |
| `Config.ThresholdsInForce` | config/config.go:299-331 | An accepted configuration puts in force what it gives, or two minutes and one hour, the latter switched off when staleness reaches it |
| `Config.LiveIsNotOfflinePast` | config/config.go:237-245 | So a worker that counts as live never passes the prune time test |
| `Config.TimeTestSafeIff` | config/config.go:237-245 | For any two thresholds, the time test spares every live worker if and only if pruning does not start before staleness |
| `Cleanups.Cleanup.MarkForDeletion` | bridge/cleanup.go:84-94 | The name is queued, unless empty |
| `Cleanups.Cleanup.RetainPendingDeletes` | bridge/cleanup.go:106-114 | Exactly the listed names stay queued |
| `Cleanups.Cleanup.ProcessVM` | bridge/cleanup.go:402-433 | A VM is tried when queued or due by status and age, and leaves the queue exactly when its delete works |
| `Cleanups.Cleanup.ReapVMs` | bridge/cleanup.go:213-238 | The VM loop: names listed, tried and deleted, the queue left, and the slots still held |
| `Cleanups.Cleanup.Sweep` | bridge/cleanup.go:192-278 | The whole state after a sweep: the queue, the in-use count of the survivors, the maximum as the live slot sum, the prune pass and its memory on a fresh read only, and whether the cache is invalidated; the old maximum survives if and only if it equals the slot sum |
| `Cleanups.Cleanup.PushMaxCapacity` | bridge/cleanup.go:468-479 | The maximum becomes the slot sum of the unpaused live workers, whatever it was |
| `Cleanups.Cleanup.PruneOfflineWorkers` | bridge/cleanup.go:295-357 | The records tried, the log lines written, the number pruned, and the skip memory left |
| `Cleanups.ReapJudgesEach` | bridge/cleanup.go:402-455 | With unique VM names every VM is judged by the queue as the sweep found it: who is tried, who is deleted, who survives, what stays queued |
| `Cleanups.AttemptedIff` | bridge/cleanup.go:402-455 | A VM is tried if and only if it is listed, managed, and queued, stopped, failed, or was created longer ago than the pending limit while creating and the general limit in any other status |
| `Cleanups.InUseAfterSweep` | bridge/cleanup.go:213-249 | Deleted is what was tried and did not fail; in-use becomes the number of listed managed VMs not deleted that are on a live worker or on none yet |
| `Cleanups.QueueAfterSweep` | bridge/cleanup.go:81-120 | Every queued VM that is listed is tried, and after the sweep the queue is exactly the queued, listed names whose delete failed |
| `Cleanups.RetriedUntilGone` | bridge/cleanup.go:81-83 | Sweep after sweep, a queued VM is tried in every one that lists it until its delete works or a listing leaves it out |
| `Cleanups.QueuedWhileStuck` | bridge/cleanup.go:103-120 | Over any sequence of sweeps it stays queued while listed and undeletable, and otherwise only by being queued again |
| `Cleanups.SweepCounts` | bridge/cleanup.go:224-249 | In-use becomes the number of surviving managed VMs that are unassigned or on a live worker |
| `Cleanups.StaleWorkerIsInvisible` | bridge/cleanup.go:224-254 | A stale worker anywhere in the listing, with any VMs stranded on it, changes neither the live list (hence the maximum) nor the in-use count |
| `Cleanups.PruneTriesTargets` | bridge/cleanup.go:306-350 | A pass tries exactly the prunable records, in listing order |
| `Cleanups.PruneIff` | bridge/cleanup.go:299-336 | A record is tried if and only if it is not live, its heartbeat is longer ago than the threshold, it is unpaused, and no VM of any status is assigned to it; it is remembered as skipped if and only if paused or hosting, paused going first as the reason |
| `Cleanups.PruneRemembersSkips` | bridge/cleanup.go:317-355 | After a pass a worker is remembered if and only if it was skipped, with its reason, and is logged exactly when that reason is new |
| `Cleanups.PruneIsByTimeAlone` | bridge/cleanup.go:291-314 | With an accepted configuration the records tried are exactly those offline past the threshold with a heartbeat reported, unpaused and hosting no VM of any status: the liveness test never decides |
| `Metrics.SeriesKeyInjective` | metrics/metrics.go:154-156 | Distinct label tuples of one width never share a series key: encoded text holds no separator byte |
| `Metrics.JoinInjective` | metrics/metrics.go:156 | Joining lists of one length is injective while no part holds the separator |
| `Metrics.JoinInjectiveAnyLength` | bridge/eligibility.go:149-152 | It is injective at any length while no part is empty either |
| `Metrics.SeparatorCollides` | metrics/metrics.go:154-156 | With the separator inside a part, two different lists join alike |
| `Metrics.GaugeVec.Set` | metrics/metrics.go:129-142 | One series is created or updated, under its key, the others stay |
| `Metrics.GaugeVec.Delete` | metrics/metrics.go:93-100 | One series goes, the others stay |
| `Metrics.SetReads` | metrics/metrics.go:83-89 | After a Set the tuple's series has that value, new or not, and no other series has changed |
| `Metrics.DeleteReads` | metrics/metrics.go:91-100 | After a Delete the tuple has no series, and no other has changed |
| `Metrics.ShowsDetermines` | metrics/metrics.go:37-50 | Two gauges that show the same tuples are equal |
| `Eligibility.AutoSizeExclusions` | bridge/eligibility.go:27-49 | One exclusion per label-matching ineligible worker, in input order, with its pin, its reason and, for a shared pin, the other holders |
| `Eligibility.EligibilityPartition` | bridge/autosize.go:120-127 | Eligible workers plus exclusions are exactly the label-matching live workers |
| `Eligibility.SharedPinsAreOut` | bridge/autosize.go:73-88 | A holder of a shared pin is in no pool, whatever the labels and reserves, and its exclusion lists exactly the other holders by number |
| `Eligibility.EligibilityMonitor.Observe` | bridge/eligibility.go:87-145 | After any tick the exclusion gauge is exactly a rebuild from every scale set's latest exclusions; for worker names without commas a warning is due for exactly the workers whose exclusion is not the previous tick's; with unique Names what it stores files exactly the label-matching non-candidates, each with its own record; recovered and departed workers are told apart; the eligible gauge is the candidate count |
| `Eligibility.CurrentFilesWorkers` | bridge/eligibility.go:91-94 | With unique Names, filed are exactly the label-matching workers that are no candidates, each under its name with its own pin, its reason, and exactly the other holders of its pin |
| `Eligibility.TuplesOverWorkers` | bridge/eligibility.go:104-145 | A tuple of a scale set is in the rebuild after its tick if and only if it is some label-matching non-candidate's name, pin and reason |
| `Eligibility.ReasonTextInjective` | bridge/autosize.go:38-47 | Each reason has its own stable identifier in the metric |
| `Eligibility.WarningsAreExact` | bridge/eligibility.go:104-124 | For worker names that are non-empty and hold no comma, the warnings due are for exactly the workers whose exclusion is not the previous tick's, and what is stored keeps the next tick exact |
| `Eligibility.SameExclusionIff` | bridge/eligibility.go:147-152 | For names without commas the comparison holds if and only if the two exclusions are equal |
| `Eligibility.CommaHidesAChange` | bridge/eligibility.go:149-152 | One holder named with a comma and the two it spells out compare equal and are not |
| `Eligibility.EligibilityMonitor.ReportCurrent` | bridge/eligibility.go:104-124 | The first loop's effect on the gauge, and its warnings |
| `Eligibility.EligibilityMonitor.ClearGone` | bridge/eligibility.go:126-141 | The second loop's effect, and its log lines |
| `Eligibility.TickRebuilds` | bridge/eligibility.go:84-145 | From any gauge that shows a rebuild, one scale set's deletes and sets, in any order of the names, end in a gauge that shows the new rebuild |
| `Eligibility.TuplesAfterTick` | bridge/eligibility.go:104-143 | On the tuples alone: replacing the changed ones and clearing the gone ones turns the old rebuild into the new one |
| `Managers.VMConsumesLabeledWorker` | manager/manager.go:526-548 | A VM on a live worker occupies a pool if that worker matches; any other if its labels and the pool's share a live worker |
| `Managers.CountLoad` | manager/manager.go:476-483 | The number of a scale set's unfinished VMs that occupy the pool |
| `Managers.LoadGrows` | manager/manager.go:476-483 | Whatever VM is added, a scale set's load in a pool grows by one if it is attributed to it, neither stopped nor failed, and on a live worker of the pool, or on none and asking for labels some live worker of the pool has; else not at all |
| `Managers.AssignedAdds` | manager/manager.go:526-533 | On a live worker only that worker's labels decide |
| `Managers.Manager.CountOthers` | manager/manager.go:471-484 | The sum over every other scale set |
| `Managers.Manager.RecomputeScaleSetShares` | manager/manager.go:449-498 | Every listener without a static maximum is given capacity less the others' load, floored at zero; a static one, or all of them without a snapshot, keep what they had |
| `Managers.FixedShareExactly` | manager/manager.go:463-488 | A fixed-size share is the pool's slots less the load of every other scale set, floored at zero |
| `Managers.PlaceableIff` | manager/manager.go:442-498 | What an AutoSize scale set advertises beyond its own load is at most the number of free workers if and only if the hidden machines do not outnumber the counted VMs less the machines paid for |
| `Managers.AdvertisedExactly` | manager/manager.go:463-488 | It is the free workers plus the hidden ones less that excess of counted VMs, floored where nothing is advertised |
| `Managers.PaidIsCounted` | manager/manager.go:471-484 | There are never fewer counted VMs than machines paid for |
| `Managers.AdvertisedBound` | manager/manager.go:442-498 | It never exceeds the free workers plus the hidden ones |
| `Managers.AdvertisedIsPlaceable` | manager/manager.go:518-525 | In particular it can all be placed while a live holder of a pin answers to the labels of the off-list VMs waiting for it |
| `Managers.HiddenIff` | manager/manager.go:534-547 | A machine placement holds back is hidden from the share if and only if all that keeps its pin busy is VMs on no live worker that ask for a label it does not have |
| `Managers.PaidIsBusy` | manager/manager.go:514-547 | Every machine held back and not hidden is paid for by a different VM the share recompute counts |
| `Managers.HolderConsumesIff` | manager/manager.go:518-547 | A VM that keeps a candidate's pin busy occupies the candidate's pool if and only if it is on a live worker or the candidate answers to its labels |
| `Managers.LoadsCover` | manager/manager.go:472-484 | Counted scale set by scale set, no attributed VM is missed |
| `Managers.RelabelledWorkerOversells` | manager/manager.go:539-547 | For every worker that has lost a label of the scale set whose VM waits for it and still answers to another scale set, the other one's share is one, with no load of its own and no free worker: the bound is reached |

## Left out

- HTTP clients for Orchard and GitHub, JIT configs, runner deregistration, session retries, registration of scale sets: foreign calls, present only as outcomes.
- A DeleteVM or DeleteWorker that reports an error is taken to have deleted nothing; a CreateVM that reports one to have made nothing.
- A bridge that stops between the create call and tracking it.
- Start-up script, Helm chart, Dockerfile, main.go and the health server.
- YAML loading, environment overrides, duration syntax, credential checks and the rest of Validate: durations are integers.
- Prometheus rendering and HTTP serving, counters, float formatting: only the gauge's series map is modelled, with values as reals.
- UUID generation: the 8-character hex suffix is an input. Lower-casing of non-ASCII letters is modelled only as far as it can yield an ASCII letter.
- Log texts, panic recovery and the order of log lines inside a tick (the source sorts names; `Eligibility.KeysOf` takes them in any order).
- 64-bit overflow of slot sums and of the placement cursor, saturation of time differences.
- Callbacks (share recompute after a scale-up, runner removal, purging every bridge after a reap): the caller sees what they would be told; in `Fleet` the purge is a step of its own.
- A nil metrics registry, a nil monitor, and a sweep that cannot read Orchard: nothing happens.
- Waiting for matching workers before a listener starts, and discoverCapacity: they repeat the slot sum.
- Fleet.SemaphoreIsExact: excludes sweeps, since a sweep overwrites the count with what its listing showed: slots in flight are left out (`Fleet.SweepLeaves`), VMs stranded on a stale worker are not counted although their completions release a slot, and a late hydrate counts its VMs twice.
- Placement.OneVMPerPin: each AutoSize scale-up is one atomic step on a fresh snapshot; interleavings inside a batch are in `Fleet`, which does not look at pins.
- Managers.AdvertisedBound: assumes every unfinished managed VM is attributed to some registered scale set.
- Eligibility.EligibilityMonitor.Observe: the exact warning claim is for worker names that are non-empty and hold no comma; for others it is stated by the source's comparison.
- Metrics.SeriesKeyInjective: label values are text, as they are once decoded from JSON; byte strings that encode no text are not modelled.
- Bridges.Bridge.HandleDesiredRunnerCount: other bridges do not run in between; `Fleet` interleaves the same lock regions.
- The two counts ManagedVMsMatchingLabels and vmConsumesLabeledWorker differ for a VM on a stale worker; the model keeps both and does not relate them.
