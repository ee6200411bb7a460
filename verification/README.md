# A verified model of the pvenode machine driver

The driver creates and removes virtual machines on a shared Proxmox VE (PVE) cluster. Every command is a
fresh process, many of them run at the same time, any of them can crash between two API calls, and PVE's
clone call cannot set the tag by which the driver recognises its own machines. This project models the
driver's lifecycle operations, its timed loops and its sizing, selection and parsing rules in Dafny, and
proves what they guarantee and where the guarantees stop.

`dafny verify dfyconfig.toml` checks everything.

## How it is built

The lifecycle is modelled twice, and the two models share one protocol.

- **Protocol.dfy** holds the cluster's VMs, the API calls with the outcomes a caller can see, and `Next`, the
  state machine of one driver process: which call it may make next. A call that is not allowed leads to `Astray`,
  and nothing leads out of it.
- **Pve.dfy** is the cluster as an object. Before every call outsiders may change it (`Others`), every call may
  fail, an operation that fails may still have been carried out, and the response to an accepted clone may be
  lost. `View()` is the part outsiders leave alone: the run's own VMs, or everything when the cluster is `quiet`.
  A ledger, which the driver cannot read, records which VMIDs its accepted clones reserved, the network device each of
  them got, lost responses, failed clean-ups, and the VMs its deletes were applied to. `trace` records the calls, `pc`
  where they have led, `errors` those that went wrong, with their errors (`faults` is their number), and `waits` how
  long Retry has slept, so that contracts can say why an operation fails, and that it has tried hard enough.
- **Vmid.dfy, Clone.dfy, Remove.dfy, Driver.dfy** are the operations, step by step as the source has them, as methods
  on that object. Each is proved against the part of the cluster it may rely on, and each keeps the protocol.
- **TraceOrder.dfy** proves what every process that keeps the protocol does: the order of its mutations, and what
  each of its deletes is based on.
- **Fleet.dfy, Guarantees.dfy, Limits.dfy** are the transition system: any number of processes that keep the
  protocol, interleaved call by call with each other and with outsiders, and stopping anywhere. The invariant there
  gives the orphan characterisation, the ownership safety of deletes and the exclusivity of VMIDs in every
  reachable state, and concrete runs show the limits.
- **Machine.dfy** says what a machine's VM looks like when it is finished: tags, options, disk and network device.
- **Session.dfy** runs Create on the placement that the checks have accepted.
- **Backoff.dfy** (retries), **AgentIp.dfy** (waiting for an address), **Validate.dfy** (disk and NIC parsing,
  sizing), **Placement.dfy** and **Resolve.dfy** (what is checked before a VM is made), **Flags.dfy** (settings)
  and **Text.dfy** (the string functions they rest on) are the rest.

## What is assumed of the environment

- An accepted clone call reserves its VMID at once; a refused one changes nothing. A call whose response is lost
  may have been accepted; the model has that case, and it is one of the three excuses for an orphan.
- A VMID that a process holds (from its accepted clone, or from a lookup to the delete that follows) is not given
  to somebody else meanwhile: `Fleet.Free`. `SnatchedVmidIsDeleted` shows what would happen otherwise. In the methods
  the same is `held` in `Pve.Rely`, for a run's own clones only: there a VMID stays held until the run ends, also when
  its VM has been cleaned up. VMIDs that were looked up are not held there, and nothing is claimed about them.
- Only driver runs set the ownership tag, and nobody else takes it off a driver's VM, renames it or turns it into a
  template (`Fleet.Alter`). They may do everything else to it, deleting it included. On the cluster object they leave
  a run's own VMs alone; that is what `View()` means.
- Not-found errors are truthful. A listing shows every VM once; only the exactness of ResolveTemplate uses that.
- go-proxmox's calls do what they say: clone returns the VMID asked for, the refresh rereads the configuration, and
  tags are split at semicolons. Of the tag's text only that it contains no semicolon is used.
- Errors are four independent answers (conflict, lock, transient, not found), which the text classifiers of
  pkg/pve/errors.go give in some way; nothing is assumed about which error has which.

## What turned out otherwise than documented

- pkg/pve/clone.go:41-42 says that lock errors are retried with the same VMID. The code draws a new one for every
  attempt (pkg/pve/clone.go:52-56); the model follows the code.
- docs/e2e-checklist.md:31-40 calls the orphan seam a sub-second window. It lasts from the accepted clone call to the
  end of the PVE task that sets the tag, up to 15 + 2 minutes (pkg/pve/clone.go:34-35). `EveryExcuseIsReal` with `Abandoned` is a crash in it.
- The same checklist says that the driver's own failure paths all clean up. Two do not: a clone that is carried out
  although its call returns an error is never looked at again, and a clean-up call that fails is only logged.
  `EveryExcuseIsReal` gives a run for each of the three ways to an orphan.
- A clean-up while cloning checks no tag, because the VMID is the run's own (pkg/pve/clone.go:74-77, 147-168). But a
  clone that fails may have taken its VM away, and nothing in PVE keeps the VMID free until the clean-up has looked. It
  then deletes another's VM, an outsider's or another create's, if and only if the VMID was taken since the clone call
  was accepted (`CleanupHitsExactly`, `SnatchedVmidIsDeleted`, `SnatchedByCreate`). The assumption above excludes that.
- Remove checks the tag and never the name, and a persisted VMID is never cleared. A Remove with a persisted VMID takes
  away another machine's VM if and only if the VMID now belongs to one (`TakesAnotherMachinesVm`). `ReusedVmidIsHit` is
  a run: a is created and removed, b gets a's VMID, and a's second Remove deletes b. As long as the VMID has not passed
  on, Remove hits only its own VM (`RemoveTakesOnlyItsOwn`), and without a persisted VMID only VMs of its machine's name.
- "The disk is never shrunk" fails for sizes whose computation overflows 64 bits: `GrowOnlyExactly` gives the exact
  condition, `OverflowExample` a size that counts as 0 GB.
- DeleteVM can return an error although the VM is gone, after a wait that failed (`DeleteErrsThoughGone`); only success
  means gone.
- A VM that migrates between the listing and the fetch is reported gone by lookupVM (`MigratedIsReportedGone`): "gone"
  is wrong exactly if the VM has moved away from the node that was listed (`Remove.FetchListed`).

## Model

| member | source | states |
|---|---|---|
| Guarantees.OrphanCharacterisation | docs/e2e-checklist.md:31-40 | in every reachable state of any number of creates that crash anywhere, a live VM whose maker is past its clone phase is found by name and tag if and only if it is tagged; an untagged one had its clone's response lost, its maker stopped in the clone phase, or its clean-up failed |
| Guarantees.NothingFoundMeansNoOrphan | pkg/driver/driver.go:91-128 | if a Remove without a VMID finds nothing, every VM that creates of this machine left behind is one of those three exceptions |
| Guarantees.ExcusesWereEarned | pkg/pve/clone.go:70-106 | every exception of a reachable state was earned by a step of the run, for the VM that is still there, and has stood since: an unanswered clone that was carried out, a stop in the clone phase, or a clean-up read or delete that failed |
| Guarantees.ExcusesAreEarned | pkg/pve/clone.go:70-106 | the step that earns an exception is one of these, by the process that made the VM |
| Guarantees.OnlyDriverVmsAreDeleted | pkg/driver/remove.go:21-46 | over whole runs no delete hits a VM that no driver run made; clean-ups while cloning hit only the run's own VM, all others only tagged VMs; a Remove hits only the VMID it was started with, and without one only VMs of its machine's name |
| Guarantees.RemoveTakesOnlyItsOwn | pkg/driver/remove.go:11-14 | a Remove with the VMID of a create for the same machine deletes only that create's VM, in every run in which from its start on the VMID belongs to no other VM |
| Guarantees.VictimsWereThere | pkg/driver/remove.go:45-46 | every VM a delete hit was under its VMID at that moment |
| Guarantees.VmidsAreExclusive | pkg/pve/clone.go:49-81 | no two creates ever work on the same live VM, and the one that does made it, although VMIDs are drawn from stale listings |
| Guarantees.AtMostOneVmPerCreate | pkg/pve/clone.go:50-107 | over all attempts of a create at most one of its VMs is live, apart from the exceptions |
| Limits.EveryExcuseIsReal | docs/e2e-checklist.md:31-40 | for each of the three exceptions a run that leaves an untagged VM which no orphan search matches, with all processes ended |
| Limits.CreateRuns | pkg/driver/create.go:54-83 | a whole create is possible on an empty cluster and ends with its machine running and tagged |
| Limits.RemoveHitsAnotherMachine | pkg/driver/remove.go:21-46 | from every reachable state in which a persisted VMID belongs to another machine's tagged VM, a Remove for the old machine can delete that VM |
| Limits.ReusedVmidIsHit | pkg/driver/remove.go:21-46 | the run: a created, a removed, b created under the same VMID, b's VM deleted by a's second Remove |
| Limits.DeleteErrsThoughGone | pkg/pve/vmops.go:68-82 | a run in which a delete returns an error and the VM is gone |
| Limits.MigratedIsReportedGone | pkg/driver/driver.go:107-126 | a run in which the machine's VM migrates and the lookup reports it gone |
| Limits.ScrapsNothing | pkg/pve/clone.go:74-77 | a clone that failed and left nothing is about to be cleaned up, in a reachable state |
| Limits.SnatchedVmidIsDeleted | pkg/pve/clone.go:74-77 | from every such reachable state, were the VMID given to an outsider against the assumption, the clean-up would delete the outsider's VM |
| Limits.SnatchedByCreate | pkg/pve/clone.go:74-77 | the same with a second create that draws the VMID and has its clone accepted |
| Limits.CleanupHitsExactly | pkg/pve/clone.go:147-168 | a clean-up while cloning hits another's VM if and only if the VMID was taken since the clone call was accepted |
| Guarantees.StepKeeps | pkg/pve/clone.go:43-108 | every step of every process and of the outside world keeps the invariant behind these results |
| Guarantees.RunKeeps | pkg/driver/create.go:21-83 | the invariant holds after every run |
| Guarantees.Reach | pkg/driver/create.go:21-83 | reachable states are closed under steps |
| Fleet.SpawnKeeps | pkg/driver/driver.go:52-54 | a new driver process, with or without a persisted VMID, keeps the invariant |
| Fleet.AllocateKeeps | pkg/pve/clone.go:110-112 | an outsider's allocation of a VMID nobody holds keeps it |
| Fleet.AlterKeeps | pkg/driver/driver.go:91-95 | so does a VM that migrates or is reconfigured, short of an outsider renaming a driver's VM, untagging it or making it a template |
| Fleet.DestroyKeeps | pkg/driver/driver.go:114-120 | and one that disappears |
| Fleet.ExitKeeps | docs/e2e-checklist.md:31-40 | and a process that returns or crashes at any point |
| Fleet.ReadKeeps | pkg/pve/resources.go:49-67 | and every listing and fetch, with the new state of the process |
| Fleet.ListedProc | pkg/pve/resources.go:110-118 | the candidates of an orphan search carry the machine's name as long as they are driver VMs |
| Fleet.GotProc | pkg/driver/remove.go:25-36 | a process that goes on to stop or delete a VM has seen the tag on it |
| Fleet.CloneKeeps | pkg/pve/clone.go:58-73 | and every clone call, accepted, refused, or carried out without an answer |
| Fleet.OperateKeeps | pkg/pve/vmops.go:20-82 | and every operation, whether it ends well or not |
| Fleet.OpKeepsIdentity | pkg/driver/create.go:86-116 | no operation renames a VM or changes its maker, only tagging touches tags, and tagging leaves the ownership tag on it |
| Fleet.OperateVictims | pkg/driver/remove.go:29-46 | every VM a delete is applied to was a driver VM, under the VMID the process was after |
| TraceOrder.CreateInOrder | pkg/driver/create.go:54-146 | every Create's mutations are at most ten wasted clone attempts, then clone, tag, config, at most one resize, start, each only after the one before succeeded, then at most the undoing that fits the failure |
| TraceOrder.NothingUndone | pkg/driver/create.go:71-76 | a Create that is ready, or has failed in provisioning and not begun to remove, has undone nothing: wasted attempts, then steps forward |
| TraceOrder.ReadyIsStarted | pkg/driver/create.go:127-135 | the last mutation of a Create that is ready is a successful start |
| TraceOrder.NotHandedOver | pkg/pve/clone.go:95-107 | a Create that is still in its clone phase has tagged nothing |
| TraceOrder.HandsOver | pkg/pve/clone.go:95-107 | a Create that goes on to provisioning has tagged one VM, the one it goes on with |
| TraceOrder.StaysHanded | pkg/driver/create.go:65-82 | and tags none after that, however it ends |
| TraceOrder.NoAttemptLeft | pkg/pve/clone.go:50-84 | a Create with no attempt left has made ten listings, or its clone could not be read or tagged |
| TraceOrder.CutShortAfterReading | pkg/pve/clone.go:88-106 | a Create that has cloned its VM and gives up then could not read or tag it |
| TraceOrder.RemoveInOrder | pkg/driver/remove.go:36-46 | every Remove's mutations are on one VM, the persisted one if any: power-off if at all, then at most five deletes, none after a successful one |
| TraceOrder.DeletesAreJustified | pkg/driver/remove.go:29-46 | each delete is on a VMID the same process had a clone accepted for, or on a VM it fetched with the tag on it that was not running or has since been powered off; for Remove always the latter |
| TraceOrder.RunIsAllowed | pkg/pve/clone.go:43-108 | from every state of a process, what it may still change is what the grammar of that state allows |
| TraceOrder.SplitCreate | pkg/pve/clone.go:50-106 | every mutation sequence the grammar allows splits into wasted attempts, steps forward and undoing |
| TraceOrder.MoreAttempts | pkg/pve/clone.go:50-57 | an attempt that fails before its clone call changes nothing |
| Protocol.ConfiguredKeepsTags | pkg/driver/create.go:86-116 | options without a tags entry leave the tags of a VM as they are |
| Protocol.RunOn | pkg/driver/driver.go:52-54 | the state after one more call is the protocol's next state |
| Pve.Cluster.ListVMs | pkg/pve/resources.go:49-55 | a listing shows exactly the VMs there are at some instant of the call, each once, in any order |
| Pve.Cluster.GetVM | pkg/pve/resources.go:57-67 | a fetch gives the VM as it is on that node, and not-found is truthful |
| Pve.Cluster.PostClone | pkg/pve/clone.go:70-73 | an accepted clone adds exactly the template's copy under an unused VMID, and an error means no change or a lost response |
| Pve.Cluster.Wait | pkg/pve/task.go:20-29 | after waiting, a stopped PVE task has had the effect its verdict allows |
| Pve.WaitTask | pkg/pve/task.go:16-30 | no error means that the PVE task had its full effect, or that there was none to wait for; a stopped but failed one is an error |
| Pve.Perform | pkg/pve/vmops.go:20-66 | submitting an operation and waiting: success applies it to that VM exactly, failure at most, and nothing else changes |
| Pve.StableEnded | pkg/pve/task.go:16-30 | what an operation does to the cluster it does to the part outsiders leave alone |
| Vmid.RandomFreeVmid | pkg/pve/clone.go:113-133 | fails if and only if every VMID of the range is used by some row; otherwise stops at the first draw that is unused, which is in range |
| Vmid.CountUsedIn | pkg/pve/clone.go:135-143 | counts the distinct used VMIDs in the range |
| Vmid.Pigeonhole | pkg/pve/clone.go:122-126 | as many distinct used VMIDs in the range as it has means that all are used, and conversely |
| Vmid.Draw | pkg/pve/clone.go:127-132 | the draw loop ends for every fair random source |
| Vmid.UsedIds | pkg/pve/clone.go:118-121 | the used set is that of all rows, duplicates, templates and containers included |
| Clone.CloneFromTemplate | pkg/pve/clone.go:43-108 | success hands over the VM that this run's own accepted clone reserved, in range, unused before, stamped with the tags; every other VM it made is accounted for by a lost response or failed clean-up; it deletes only VMs it made, and has nothing to answer for unless a call went wrong; with VMIDs left and no wait cancelled, it gives up only after ten listings and nine jittered waits between them, or after an attempt whose error is neither a VMID conflict nor a lock nor transient, which it never repeats, or because its clone could not be read or tagged |
| Clone.CloneWithRetry | pkg/pve/clone.go:50-84 | the retry loop runs and waits as Retry is specified to, every failed attempt leaves nothing behind but excused VMs, and the errors of the attempts, field by field, are what it repeats or stops at |
| Clone.CloneAttempt | pkg/pve/clone.go:52-81 | one attempt adds exactly the returned clone, or nothing that is not excused |
| Clone.CloneAs | pkg/pve/clone.go:58-80 | the same for a given VMID |
| Clone.AwaitClone | pkg/pve/clone.go:74-78 | a failed clone leaves no VM, or its clean-up is recorded as failed |
| Clone.BestEffortDelete | pkg/pve/clone.go:147-168 | touches only that VM; afterwards it is gone, or recorded as not cleaned up |
| Clone.StampTags | pkg/pve/clone.go:95-106 | the clone is stamped, or gone, or recorded as not cleaned up, and no other VM changes |
| Clone.StampedHasTag | pkg/pve/clone.go:95-98 | a stamped VM carries every tag that contains no semicolon, whatever the other tags contain |
| Text.SplitJoinKeeps | pkg/pve/clone.go:96-98 | a part without the separator survives joining and splitting, whatever the other parts hold |
| Text.SplitHolds | pkg/driver/create.go:46 | a text without separators is a part of another if and only if it stands there between two separators or ends |
| Protocol.HasTagExactly | pkg/driver/remove.go:29 | a VM has a tag if and only if it stands in the tags option between two semicolons or ends |
| Text.EqualFoldExactly | pkg/pve/agentip.go:111 | comparing MACs ignores the case of ASCII letters, character by character, and nothing else |
| Text.ToUpperExactly | pkg/validate/template.go:62 | upper case leaves no lower-case letter and changes nothing but the case of letters |
| Remove.Remove | pkg/driver/remove.go:15-47 | success: the one VM that plain search finds carried the tag and is gone and nothing else changed, or there was none; failure: at most that VM is affected, and only if tagged; it fails only if the VM under the persisted VMID lacks the tag, or the last call that went wrong was a read, or the stop of a VM that would not shut down, or a delete that was the fifth in a row, with four jittered waits between them, or had an error that is neither a lock nor transient; a VM already gone is success |
| Remove.LookupVM | pkg/driver/driver.go:96-128 | with a VMID exactly the VM with that id on whichever node, without one a VM of that name and tag; "gone" is true of the VMs that outsiders leave alone, and of the whole cluster while they only delete; it fails only if a call went wrong |
| Remove.FindById | pkg/driver/driver.go:107-126 | the search by VMID over the whole cluster |
| Remove.FetchListed | pkg/driver/driver.go:111-122 | a fetch of the listed VM that reports it gone is wrong if and only if the VM has moved to another node |
| Remove.FindVmByNameAndTag | pkg/pve/resources.go:110-132 | a match carries the tag now; among the VMs that outsiders leave alone it misses no match and finds only matches; templates never match; it fails only if a call went wrong |
| Remove.DeleteVM | pkg/pve/vmops.go:68-82 | success means gone; nothing but that VM is affected; the loop runs and waits as Retry is specified to with five attempts, repeats only deletes that failed on a lock or in a transient way, and gives up only on another error or the fifth |
| Remove.Halt | pkg/driver/remove.go:36-43 | a failed shutdown is followed by a stop, and the way to the delete is open only if one of them ended well; it fails only if the stop has |
| Remove.StopAndDelete | pkg/driver/remove.go:36-46 | the VM is gone on success, and no other changes; failure means a stop that failed, or deletes that were repeated as often as they should be |
| Remove.RemoveTakesOne | pkg/driver/remove.go:11-47 | each successful Remove without VMID takes away exactly one match, and nothing if there is none |
| Remove.RemovesConverge | pkg/driver/remove.go:11-47 | Removes in which no call goes wrong all succeed; once there were as many as matches exactly the matching VMs are gone, and every later one changes nothing |
| Remove.RemoveIsIdempotent | pkg/driver/remove.go:11-14 | after a successful Remove of a persisted VMID another one in which no call goes wrong succeeds and changes nothing |
| Remove.GoneIsSuccess | pkg/driver/remove.go:25-28 | the same whenever the VM is gone, whoever took it |
| Remove.TakesAnotherMachinesVm | pkg/driver/remove.go:21-46 | a successful Remove with a persisted VMID takes away another machine's VM if and only if the VMID now belongs to one |
| Remove.TakesOnlyItsOwn | pkg/driver/driver.go:127-128 | a Remove without a persisted VMID never does |
| Remove.UntaggedIsRefused | pkg/driver/remove.go:29-34 | a persisted VMID that now belongs to an untagged VM is refused and nothing changes |
| Driver.Driver.Create | pkg/driver/create.go:21-83 | success adds exactly one finished VM and the persisted fields describe it; failure adds nothing (or the kept tagged VM), both up to lost responses and failed clean-ups; the address answers on the network address that net0 has after the start; the mutations keep the order above, with nothing undone on success, and with nothing at all after the failure when the machine is kept. Without a key or a placement it makes no call. VMID and node are persisted exactly when the VM has been handed over, whatever comes after, and the address only on success. Without such a VM, cloning was given up for one of its reasons or the VMIDs are used up; with it, failure means that a call of provisioning it went wrong, or that the machine, with the network device that its clone got, has no address in time, and it is gone then unless it is to be kept or its removal got stuck |
| AgentIp.AlwaysExplained | pkg/pve/agentip.go:43-87 | from any round on that the wait gets to, it ends: some round before the deadline settles it, or the deadline passes |
| Driver.LocatedOrNot | pkg/pve/agentip.go:37-87 | whether an address is found is decided by the configuration and the polling rounds: always exactly one of found and not found holds |
| Driver.NoAddressExactly | pkg/driver/create.go:137-142 | the last reason for a failing Create is there exactly when its finished machine, with the network device of its own clone, has no address in time |
| Session.CreateOnPlacement | pkg/driver/create.go:34-83 | Create on an accepted placement: the VM is on the persisted node, its boot disk is large enough, it fails only for the reasons of Create or because a check refused, and if no call goes wrong a success adds just the machine's VM and a failure nothing, unless the VM is to be kept |
| Driver.AllOrNothing | pkg/driver/create.go:36-83 | when no response is lost and all clean-ups work, Create adds exactly its finished VM or leaves the cluster as it was, or keeps its tagged VM if asked to |
| Driver.Driver.CloneMachine | pkg/driver/create.go:40-67 | the clone is in the configured range and tagged; there is none only if the VMIDs are used up or cloning was given up for one of its reasons |
| Driver.Driver.Adopt | pkg/driver/create.go:68-82 | from the clone on: the outcome of Create, with VMID, node and address recorded |
| Driver.Driver.ProvisionOrRemove | pkg/driver/create.go:72-82 | provisioned, kept on request without another call, or removed again unless that got stuck; no other VM changes |
| Driver.Driver.Provision | pkg/driver/create.go:85-146 | success: configured, grown if asked to, running, and located on the net0 that was read after the start; failure: still the machine's tagged VM, nothing undone, and the first call that went wrong was one of provisioning, or the finished machine has no address in time |
| Driver.Driver.StartAndRefresh | pkg/driver/create.go:127-135 | the configuration handed on is what a read after the start has shown |
| Driver.LocatedOnRewritten | pkg/driver/create.go:107-143 | with a bridge, the address found was on the network address that PVE gave to the rewritten net0, and any other would not have counted |
| Driver.CreateTrace | pkg/driver/create.go:71-83 | how the state in which a Create returns bounds what it has changed |
| Driver.Driver.ConfigureAndStart | pkg/driver/create.go:116-135 | the mutating steps in order, each only after the one before succeeded |
| Driver.Driver.GrowAndStart | pkg/driver/create.go:120-135 | the disk is resized only when more than the template's size is asked for |
| Machine.ConfigAfter | pkg/driver/create.go:86-116 | after provisioning every option has the value the settings want, and every other keeps the value it had |
| Machine.OptionsGive | pkg/driver/create.go:86-113 | the list of options gives each key the wanted value and touches no other |
| Machine.MachineDisk | pkg/driver/create.go:120-125 | the boot disk of the finished machine has the size the resize rule gives, and the other disks are the template's |
| Machine.RewrittenMac | pkg/driver/create.go:107-113 | a rewritten net0 has the network address that PVE filled in, and no other |
| Machine.NetAfter | pkg/driver/create.go:107-113 | net0 is rewritten with a bridge, and otherwise the copy's own, whatever the template's was |
| Machine.VlanIsApplied | pkg/driver/flags.go:134-144 | in accepted settings a VLAN tag is never dropped |
| Machine.TagsAreThese | pkg/driver/create.go:44-51 | the machine's tags are the ownership tag and exactly the non-blank extra tags, trimmed |
| Machine.MachineIsReady | pkg/driver/create.go:54-135 | the finished machine runs under its name and carries every tag asked for that has no semicolon |
| Driver.Driver.BuildTags | pkg/driver/create.go:44-51 | the ownership tag and the trimmed, non-empty extra tags, in order |
| Driver.Driver.BuildOptions | pkg/driver/create.go:86-113 | the options in order, with the VLAN tag on a rewritten net0 |
| Machine.OptionsHaveNoTags | pkg/driver/create.go:86-113 | none of these options touches the tags |
| Driver.Driver.RemoveMachine | pkg/driver/remove.go:15-47 | Remove in a process of its own, from the persisted state, with its mutations in order and the same reasons to fail |
| Backoff.OutcomeIsExplained | pkg/pve/retry.go:12-37 | the recursive specification of Retry gives n runs and a verdict if and only if the first n outcomes explain it: only the last run succeeded or failed for good, giving up takes all attempts, and cancellation falls between runs |
| Backoff.Retry | pkg/pve/retry.go:14-37 | the loop computes that specification for every stream of outcomes, with a wait between any two runs |
| Backoff.NominalClosedForm | pkg/pve/retry.go:33-35 | the k-th nominal wait is base times 2^k, capped at 30 s, for every base up to 30 s |
| Backoff.Decide | pkg/pve/retry.go:18-36 | one step of the loop, for operations that change the cluster: it goes on, or ends with the runs, waits and verdict that Retry is specified to have |
| Backoff.WaitsAreJittered | pkg/pve/retry.go:27-28 | every wait lies between half and one and a half times its nominal length |
| Backoff.TotalWait | pkg/pve/retry.go:27-35 | so does the sum of the waits, up to one nanosecond of rounding for each |
| Backoff.TotalWaitEven | pkg/pve/retry.go:27-35 | and without rounding for an even base |
| Backoff.CloneNominalSum | pkg/pve/clone.go:26-33 | the nine nominal waits of the ten clone attempts add up to exactly 180 s |
| Backoff.CloneGivesUpAfter | pkg/pve/clone.go:26-33 | a clone that exhausts its attempts has waited at least 90 s and less than 270 s |
| AgentIp.WaitForIP | pkg/pve/agentip.go:37-87 | the result is explained by the rounds: fruitless until after the deadline, or settled by the last round, on the MAC of net0 |
| AgentIp.PollUntil | pkg/pve/agentip.go:43-87 | the loop ends for every sequence of rounds |
| AgentIp.Ask | pkg/pve/agentip.go:54-82 | a round settles the wait if and only if a usable address answered, the query was not authorized, or the context ended |
| AgentIp.PickIPv4 | pkg/pve/agentip.go:109-126 | the first of the flattened, filtered addresses on the MAC; empty if and only if there is none |
| AgentIp.UsableOnHolds | pkg/pve/agentip.go:106-126 | that list holds exactly the usable addresses on interfaces whose MAC is the same but for the case of letters |
| AgentIp.UsableExactly | pkg/pve/agentip.go:114-121 | usable are the addresses called IPv4 whose number lies outside 127.0.0.0/8 and 169.254.0.0/16 and is not 0, and likewise for ::1, fe80::/10 and :: should one be called so |
| AgentIp.ExplainedOnce | pkg/pve/agentip.go:43-87 | the rounds determine result, number of queries and time of a wait |
| AgentIp.AddressIsSound | pkg/pve/agentip.go:32-63 | an address that is returned was the first usable one, answered the probe, and no earlier round had such an answer |
| AgentIp.IntervalsRamp | pkg/pve/agentip.go:83-85 | the intervals are 2, 3, 4.5, 6.75, 10.125 and then 15 s |
| AgentIp.IntervalsAfterRamp | pkg/pve/agentip.go:83-85 | from the sixth on they stay at 15 s |
| AgentIp.QueryBound | pkg/pve/agentip.go:26-47 | how many rounds can begin by the deadline, as an equivalence |
| AgentIp.AtMostQueries | pkg/pve/agentip.go:43-87 | at most 6 + (T - 26.375 s) / 15 s queries, 24 for 300 s |
| AgentIp.BoundIsReached | pkg/pve/agentip.go:43-87 | an agent that never answers is queried exactly that often |
| AgentIp.ReturnsInTime | pkg/pve/agentip.go:43-87 | the wait ends by the deadline plus one query, one probe and one interval with its overshoot |
| Validate.NICMAC | pkg/validate/template.go:52-66 | the value of the first NIC-model key in upper case; none if and only if there is no such key |
| Validate.HoldsMacExactly | pkg/validate/template.go:12-16 | the parts that count are one of five NIC models, an equals sign and a value, with white space around them |
| Validate.MacIsUpperCase | pkg/validate/template.go:59-63 | the MAC has no lower-case letters and is the value of such a part but for case |
| Validate.BootDisk | pkg/validate/template.go:70-115 | the first bootable candidate decides, with the leftmost size option of its value |
| Validate.BootPreference | pkg/validate/template.go:73-97 | what is chosen is no CD drive and no cloud-init drive; a disk of the boot order goes before every other, the earlier one first, and after that scsi0, virtio0, ide0 and sata0 in this order |
| Validate.NothingToBoot | pkg/validate/template.go:86-114 | none is found if and only if neither the boot order nor one of these four names a disk |
| Validate.BootableExactly | pkg/validate/template.go:74-84 | a name counts if the first of the SCSI, VirtIO, IDE and SATA devices under it is neither of these drives |
| Validate.BootIsUnique | pkg/validate/template.go:70-115 | that determines the result of BootDisk |
| Validate.FindSizeIsLeftmost | pkg/validate/template.go:68 | the pattern finds the leftmost size option, and nothing only if there is none |
| Validate.SizeIsCeiling | pkg/validate/template.go:100-110 | the figure in GB is the true size rounded up if and only if the computation does not overflow |
| Validate.ResizeNeverShrinks | pkg/validate/rules.go:42-52 | a resize strictly grows the disk, and the final size is less than 1024 MB short of the request |
| Validate.GrowOnlyExactly | pkg/validate/rules.go:42-52 | no accepted request shrinks the disk if and only if the size is in GB or does not overflow |
| Validate.OverflowExample | pkg/validate/template.go:101-109 | a disk of 2^54 TB counts as 0 GB and could be shrunk |
| Placement.ResolvePlacement | pkg/driver/precreate.go:65-159 | accepts exactly what passes the template, storage and bridge checks, refuses for a reason that holds, and reports the template's boot disk and size |
| Placement.CheckTemplate | pkg/driver/precreate.go:66-91 | the template checks and the grow-only check, in both directions |
| Placement.CheckStorage | pkg/driver/precreate.go:93-133 | the storage and clone mode checks, in both directions, whichever storages are listed |
| Placement.CheckBridge | pkg/driver/precreate.go:135-151 | the bridge check, in both directions |
| Placement.AgentEnabledExactly | pkg/validate/template.go:29-35 | an agent option that is empty, begins with 0 or holds enabled=0 is refused, and no other |
| Placement.HasCloudInitExactly | pkg/validate/template.go:39-50 | the cloud-init drive is an IDE, SCSI or SATA device |
| Placement.CanBackLinkedCloneExactly | pkg/validate/rules.go:25-40 | four storage types and qcow2 files can back linked clones, and nothing else |
| Placement.StorageIdIs | pkg/driver/precreate.go:101 | the storage of a disk is what stands before the first colon |
| Placement.AcceptedGoes | pkg/driver/precreate.go:92-126 | an accepted machine is made on the node asked for, else on the template's, and leaves that only if the boot disk lies on shared storage |
| Placement.AcceptedLinks | pkg/driver/precreate.go:126-133 | an accepted linked clone asks for no storage, and the template's can hold it where it is listed |
| Placement.FindStorages | pkg/driver/precreate.go:102-116 | the last storages of the two names |
| Placement.PersistedNodeIsRight | pkg/driver/create.go:68-69 | the node persisted for Remove is the node on which Create makes the VM |
| Placement.MachineIsLargeEnough | pkg/driver/create.go:120-125 | the boot disk of a machine whose placement was accepted is never smaller than its template's, grows strictly if it is resized, and ends less than 1024 MB short of the request |
| Resolve.ResolveTemplate | pkg/pve/resources.go:71-105 | when nothing interferes and no call goes wrong, it succeeds if and only if the reference means exactly one VM and that is a template, which it returns; otherwise it fails only if a call went wrong, the verdict on the rows that were listed is against it, or the VM has left its node since |
| Resolve.Scan | pkg/pve/resources.go:76-104 | the loop computes the verdict on the whole listing |
| Resolve.FoundExactly | pkg/pve/resources.go:83-104 | the final fetch is reached if and only if exactly one VM row matches and it is a template |
| Resolve.FoundIsTheOne | pkg/pve/resources.go:69-104 | what each verdict says about the cluster that was listed |
| Resolve.MeansExactly | pkg/pve/resources.go:78-91 | a reference that reads as a number means the QEMU VM with that VMID, any other the QEMU VMs of that name |
| Text.AtoiExactly | pkg/pve/resources.go:78 | a text reads as a number if and only if it is one that fits in 64 bits, in decimal, with at most one sign before it |
| Resolve.OneIsMeant | pkg/pve/resources.go:83-104 | a VM that alone is meant is found, or refused for not being a template |
| Resolve.VerdictIgnoresOrder | pkg/pve/resources.go:76-104 | the verdict, with the sorted list of templates, is the same for every reordering of the rows |
| Resolve.SortIsUnique | pkg/pve/resources.go:98 | sorted lists with the same names are equal |
| Flags.AcceptsExactly | pkg/driver/flags.go:153-171 | a text is accepted as (lo, hi) if and only if it is two padded numbers around the first dash within the bounds |
| Flags.RangeRoundTrip | pkg/driver/flags.go:153-171 | every legal range survives being written, with any padding, and parsed |
| Flags.SetConfigFromFlags | pkg/driver/flags.go:80-151 | defaults fill the zero values, and the settings pass if and only if they are acceptable |
| Flags.DefaultsAre | pkg/driver/flags.go:39-43 | 2 cores, 4 GB, user rancher, five minutes and the VMIDs 10000 to 19999 stand for zero values, and everything else is kept |
| Flags.AcceptedSettingsServe | pkg/driver/create.go:40-43 | with accepted settings Create's own parse of the range cannot fail, all VMIDs to draw from are legal and at least two, and no default is missing |

## Left out

- Clone.CloneWithRetry: a Dafny method cannot be handed a closure that changes the cluster, so the loop of Retry is written out here and in DeleteVM around the shared step Backoff.Decide.
- Backoff.Retry: the base is positive and at most half of the largest duration, as rand.Int63n and the doubling demand; the driver's two bases are 2 s.
- AgentIp.WaitForIP: what net.ParseIP makes of a text is an input, since only the result of parsing decides.
- Driver.Driver.Create: the placement, the SSH key and the polling rounds are inputs; placement reads the cluster before the first clone attempt and Resolve.ResolveTemplate models that read on a handle of its own.
- Driver.Driver.Provision: of PVE's rewriting of a configuration only the network address in net0 is modelled, made up anew for every clone and filled in when net0 is set.
- Resolve.ResolveTemplate: the conversion of 64-bit VMIDs to int, which PVE's limit of 999999999 keeps exact.
- Remove.Remove: exactness is claimed for a quiet cluster and for the VMs of the run that holds the cluster handle; with interference a VM of another maker may be reported gone, or be taken in place of one of the same name.
- Remove.FindVmByNameAndTag: when outsiders do more than delete, nothing is claimed about VMs of other makers that it does not find.
- Placement.MachineIsLargeEnough: the template's disk is taken to have the size that its configuration gives.
- Probability-one termination of the draw loop: termination is proved for every fair random source instead.
- Machine.RewrittenMac: the network address that PVE makes up is not empty and has no comma or white space in it.
- Letter case beyond ASCII in EqualFold and ToUpper: MAC addresses have none.
- The storage, pool and full-or-linked options of the clone call: they do not change which VM exists or who finds it.
- Error texts and the substring lists of pkg/pve/errors.go: the four answers are arbitrary, so an error that is retried because its text happens to contain "595" is covered.
- HTTP, TLS, JSON and go-proxmox itself; SSH key generation, files, sockets and logging.
- Timeouts of PVE tasks as times: a wait may fail at any point, with or without the operation taking effect later.
- PreCreateCheck's version, privilege and machine name checks, and the lifecycle wrappers (GetState, Start, Stop, GetIP and so on): single-branch facts.
