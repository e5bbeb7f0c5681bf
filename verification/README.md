# A verified model of App Runner's stateful managers

App Runner's backend is a set of small managers. Each of them owns a piece of host or guest state, guards it
with a lock, and keeps write-ahead files and explicit rollbacks so that failing calls and crashes leave nothing
behind. This project models six of them and proves what their design is for, over whole runs:

* **NAT** (`Nat`): kernel forwarding and firewall rules, and the record file that undoes them after a crash.
* **Virtual machines** (`VirtualMachines`, `VmState`, `VmManager`, `VmRuns`): definitions, and the operations
  that release the lock midway (Create, Clone, AddDisk, forced stop), interleaved with everything else; starting up
  over saved definitions, with the network services of the machines that still run.
* **Managed DHCP** (`Ipv4`, `Leases`, `Dhcp`): address arithmetic, the lease table, loading, and the services a
  bridge runs while machines use it.
* **Network changes** (`Netlink`, `Provider`, `PendingChange`, `Lapses`): snapshot, apply and restore of host links,
  the confirm-or-roll-back transaction around them, and the runs in which it fails its purpose.
* **Serial console** (`Bytes`, `SerialConsole`, `ConsoleHub`, `ConsoleRuns`): bounded history, one exclusive live
  stream, shutdown, and the hub of all sessions.
* **Remote framebuffer** (`RfbMessages`, `Rfb`, `Framebuffer`): the RFC 6143 decoder and the pixel buffer.

`Faults` is the outside world. Every call that leaves the process takes one fate from a script (it works, fails,
fails although it took effect, or the daemon crashes there), so a theorem about every script covers every
combination of failures and a crash before every call. Three kinds of scripts have names: `Calm`, when every further
call works; `CrashOnly`, when the daemon may crash at any call but no call fails by itself; `Lone`, when at most one
call fails and none after it. Where a single call decides, contracts speak of its fate (`Succeeding`, `Taking`).
They say that an operation succeeds on a calm script exactly when its documented conditions hold, and what it leaves
on the others.
`Text` has case folding, the order of strings and the names App Runner accepts.

Locks become method boundaries: a method is one critical section, and an operation that unlocks midway is a Begin
and a Finish method with anything in between. The `Run` methods execute any list of such sections. Those of `Nat`,
`Dhcp`, `VmRuns` and `PendingChange` include restarts of the daemon; those of `SerialConsole` and `ConsoleRuns` do
not, since their state does not outlive it.

## Where the code does not do what one would expect

Each of these is a member of the model, with its exact condition and a run or an input that shows it. For the first
four, `Lapses` has a run of the transaction that starts from an untouched host and ends with the host changed and
no record left.

* A network change that fails and whose rollback fails as well is left without a record, because the record is
  removed whatever the rollback reported (`Lapses.RecordGoneAfterFailedRollback`, `Lapses.RecordGoneWithBridgeDown`).
  For CreateBridge it happens exactly on the fates of `PendingChange.CreationLapses` (`PendingChange.Manager.Apply`).
  For the other changes a rollback that reports success always restores the recorded links, unless it loses routes,
  and one whose first call fails restores nothing (`PendingChange.Manager.TakeBack`).
* Rolling back a migrating DetachInterface loses all routes of the bridge when a route can be on one link only: the
  interface still holds them when the bridge is restored first (`Lapses.RoutesLost`). It happens exactly for that
  change, such a table and a bridge with routes (`Provider.RollbackIsInverse`).
* Rolling back CreateBridge reports success and leaves the bridge when looking it up fails (`Lapses.BridgeOverlooked`;
  `PendingChange.RollbackRestores` says exactly when).
* A snapshot notes no master exactly when the call that looks its name up fails (`Provider.LinuxProvider.Add`), and a
  rollback then detaches (`Lapses.MasterForgotten`).
* A refused static lease can already have dropped that machine's leases from memory: exactly when it has any and the
  address is a static one (`Leases.RefusedPin`, `Leases.RefusedPinLosesALease`).
* `Copy` with a source further right than the rows from its own on are long takes a slice out of bounds
  (`Framebuffer.Widget.NotSliceable`, `Framebuffer.SourceRightOfTheDesktop`).
* Removing a disk reports a failure of a removal that stands exactly when the definitions are saved and the file then
  cannot be deleted (`VmManager.Manager.RemoveDisk`).

The theorems about the committed state hold over every script. `PendingChange` logs what its own steps met: a change
that began with a master unnamed, and a record that was dropped after a rollback, with the state and the calls of
that rollback. `Untroubled` says that no master was unnamed and that every dropped record's rollback reported success,
overlooked no created bridge and had no route to lose. Then the host differs from the committed state only while its
record is on disk (`PendingChange.Run`), and after a crash at any call a restart has the committed links back
(`PendingChange.RecoverAfterCrash`). Each operation says exactly when it leaves the log untroubled; runs whose only
failures are crashes, and in which no risky change was begun, always do.

## Model

| member | source | states |
|---|---|---|
| Nat.ListingUnique | internal/nat/nat.go:221-228 | a set of active bridges has one sorted list of networks, so map iteration order cannot show in the rules |
| Nat.SortedNetworks | internal/nat/nat.go:221-228 | the result is that list, with masked prefixes |
| Nat.Host.constructor | internal/nat/nat.go:61-76 | a host App Runner has not touched is crash safe |
| Nat.Manager.constructor | internal/nat/nat.go:61-76 | a manager opened on any crash-safe host is valid, and recovering exactly when a record is there |
| Nat.Manager.Start | internal/nat/nat.go:78-134 | a failed start leaves the active bridges unchanged, and when a single call failed also the kernel's rules and forwarding; after success the kernel rules are the active networks, forwarding is on and the record says so; the host stays crash safe at every call; when calls work it succeeds for every new bridge; which calls put something back, and whether they work, follows exactly from the fates |
| Nat.Manager.TakeForwarding | internal/nat/nat.go:86-109 | the original forwarding value is recorded before it is changed and never read from a changed kernel; success is exact by fate, and only a failure to turn forwarding on is cleaned up |
| Nat.Manager.RecordForwarding | internal/nat/nat.go:90-100 | forwarding is recorded exactly when it can be read and saved, with the kernel's own value |
| Nat.Manager.TurnForwardingOn | internal/nat/nat.go:101-109 | the record is marked before forwarding is turned on; when that fails, and only then, everything is cleaned up |
| Nat.Manager.Install | internal/nat/nat.go:112-133 | rules and record are installed together or rolled back together; one failed call always ends with the rules of the other bridges |
| Nat.Manager.Rollback | internal/nat/nat.go:112-133 | exactly when its one call works the rules of the active bridges are back; the outcome of the call is recorded |
| Nat.Manager.Publish | internal/nat/nat.go:112-133 | the rules come before the record, and the record names exactly the networks of the rules |
| Nat.Manager.Stop | internal/nat/nat.go:136-155 | a failed stop removes at most that bridge, and changes nothing when its rules cannot be taken away; after the last bridge stopped forwarding, rules and file are as before App Runner; forwarding is put back exactly when the last bridge stopped and it was changed |
| Nat.Manager.Unlist | internal/nat/nat.go:142-147 | a bridge is active until its rules are gone |
| Nat.Manager.Relinquish | internal/nat/nat.go:151-154 | after the last bridge success leaves forwarding, rules and file as before App Runner; failure keeps a record from which it can be tried again |
| Nat.Manager.FinishRecovery | internal/nat/nat.go:164-175 | success with no bridge active restores forwarding, rules and file; outside recovery it touches nothing; with bridges active it puts nothing back |
| Nat.Manager.Cleanup | internal/nat/nat.go:177-184 | success means fully restored; failure keeps a record from which it can be tried again; rules and forwarding are each put back whatever became of the other |
| Nat.Manager.RestoreForwarding | internal/nat/nat.go:194-203 | forwarding gets its pristine value, and the mark that it was changed is dropped only then |
| Nat.Manager.RemoveState | internal/nat/nat.go:186-192 | ownership ends exactly when the file is gone |
| Nat.Manager.Save | internal/nat/nat.go:205-219 | the record holds the active networks, atomically |
| Nat.Open | internal/nat/nat.go:61-76 | a daemon that starts has no active bridge and recovers exactly when a record exists |
| Nat.Run | internal/nat/nat.go:61-219 | after any commands, failures and crashes the host is crash safe; outside recovery rules are the sorted active networks and forwarding is on exactly when it was originally or a bridge is active, unless a call that put something back failed after the last start or stop that succeeded; no such call fails unless calls fail by themselves |
| Nat.Recover | internal/nat/nat.go:61-76 | restart and finish recovery put everything back, and succeed whenever no call fails by itself and the daemon survives |
| Nat.RecoverAfterCrash | internal/nat/nat.go:61-184 | a crash anywhere in any run is recovered from exactly, and recovery succeeds if no call fails by itself |
| VirtualMachines.Bridges | internal/vm/vm.go:1762-1770 | the distinct bridges the interfaces attach to |
| VmManager.Manager.IndexById | internal/vm/vm.go:1785-1792 | finds the machine of an identity, or none exists |
| VmManager.Manager.NameInUse | internal/vm/vm.go:568-580 | a name is in use exactly when another listed or any reserved machine has it, ignoring case |
| VmManager.Manager.MacInUse | internal/vm/vm.go:1212-1224 | an address is in use exactly when an interface of a listed or reserved machine has it |
| VmManager.Manager.NewNic | internal/vm/vm.go:1197-1210 | an interface is built exactly when its address is free, also within its own machine |
| VmManager.Manager.SignalExit | internal/vm/vm.go:945-951 | an exit channel is closed at most once |
| VmManager.Manager.RegisterChannel | internal/vm/vm.go:814-815 | a started machine gets a channel no other has and nobody closed |
| VmManager.Manager.MarkStopped | internal/vm/vm.go:1618-1630 | a stopped machine has no process, no exit channel and uses no bridge |
| VmManager.Manager.Reconcile | internal/vm/vm.go:1640-1662 | only active machines change, and only to stopped; when the hypervisor finds every process it is asked for, exactly those without a process |
| VmManager.Manager.Start | internal/vm/vm.go:745-841 | success runs one idle machine and changes nothing else but dead ones; every managed bridge it uses then serves it; when calls work it fails for an idle machine only if Auto DNS cannot publish its name |
| VmManager.Manager.StartAt | internal/vm/vm.go:808-840 | a start that fails leaves every user set of every bridge as it was |
| VmManager.Manager.Launched | internal/vm/vm.go:827-839 | a start that cannot be saved releases exactly the bridges it prepared |
| VmManager.Manager.Abandon | internal/vm/vm.go:817-826 | a machine the hypervisor refused is in error, with every user set as before |
| VmManager.Manager.Stop | internal/vm/vm.go:846-876 | success marks exactly one active machine stopping; failure changes at most its status |
| VmManager.Manager.ForceStopBegin | internal/vm/vm.go:905-916 | the channel a forced stop waits on is the registered one of the running process |
| VmManager.Manager.ForceStopFinish | internal/vm/vm.go:918-940 | after the unlock window only the named machine changes, and only if it is not stopped yet |
| VmManager.Manager.StopForced | internal/vm/vm.go:846-861 | at most the named machine's status changes; the channel handed to a waiter is the one its exit will close |
| VmManager.Manager.EscalateStop | internal/vm/vm.go:880-892 | a timer changes no definition, and a stale one, armed for another process or state, does nothing at all |
| VmManager.Manager.ProcessExited | internal/vm/vm.go:1608-1630 | only the machine of that process stops; a stale exit changes nothing |
| VmManager.Manager.Delete | internal/vm/vm.go:953-988 | only an idle, inactive machine goes, and no other changes but dead ones; the definition stays gone even if it cannot be saved |
| VmManager.Manager.Edit | internal/vm/vm.go:1023-1040 | a definition changes exactly when it is saved, and is as before otherwise |
| VmManager.Manager.Rename | internal/vm/vm.go:990-1041 | names stay distinct ignoring case; an edit that cannot be saved is undone |
| VmManager.Manager.AddNic | internal/vm/vm.go:1086-1117 | exactly one interface with a free address is added to an idle machine; when calls work it fails only for the stated reasons |
| VmManager.Manager.UpdateNic | internal/vm/vm.go:1121-1164 | exactly the named interface changes, its identity stays, its address stays unique; an active machine keeps its interfaces |
| VmManager.Manager.UpdateNicAt | internal/vm/vm.go:1142-1163 | an unchanged definition succeeds without an edit; an active machine refuses any other |
| VmManager.Manager.RemoveNic | internal/vm/vm.go:1166-1193 | exactly the named interface goes, from an idle machine |
| VmManager.Manager.RemoveDisk | internal/vm/vm.go:1300-1334 | exactly the named disk goes, never while the disks are being copied; it goes exactly when that can be saved, and success is reported exactly when its file can then be deleted |
| VmManager.Manager.BuildNics | internal/vm/vm.go:557-563 | interfaces are built exactly when all their addresses are free and apart |
| VmManager.Manager.CreateBegin | internal/vm/vm.go:521-566 | reserves name and addresses before unlocking; when calls work, exactly when they are free |
| VmManager.Manager.CreateFinish | internal/vm/vm.go:501-517 | the reservation is dropped whatever happened; a machine that was not produced or saved is not listed |
| VmManager.Manager.Commit | internal/vm/vm.go:510-516 | a machine is listed exactly when it is saved |
| VmManager.Manager.CloneBegin | internal/vm/vm.go:609-642 | the source is stopped and was idle, the clone's disks and interfaces match it one by one, and only it is marked |
| VmManager.Manager.CloneAt | internal/vm/vm.go:626-642 | when calls work a clone is reserved exactly when source, name and addresses allow it |
| VmManager.Manager.ReserveClone | internal/vm/vm.go:694-741 | a clone matches its source disk by disk and interface by interface, and is apart from every machine |
| VmManager.Manager.MarkCloning | internal/vm/vm.go:638-643 | reservation and busy mark are set together |
| VmManager.Manager.CloneFinish | internal/vm/vm.go:675-690 | a committed clone's disks match, index by index, the disks the source still has; both marks are dropped |
| VmManager.Manager.AddDiskBegin | internal/vm/vm.go:1249-1275 | marks exactly the listed, inactive machines that no other operation holds |
| VmManager.Manager.AddDiskFinish | internal/vm/vm.go:1279-1297 | the disk is appended to exactly the disks seen before the unlock |
| VmState.ReserveKeepsOk | internal/vm/vm.go:564-566 | reserving a definition and marking its source keep identities and unlocked operations consistent |
| VmState.EndKeepsOk | internal/vm/vm.go:503-505 | an operation drops only its own marks, and every other operation keeps its machine and reservation |
| VmState.EndedCanJoin | internal/vm/vm.go:510-516 | what was reserved is still apart from everything listed or reserved meanwhile |
| VmState.InactiveIsNoUser | internal/dhcp/dhcp.go:218-222 | an inactive machine uses no bridge |
| VmState.PreparedThenReleased | internal/dhcp/dhcp.go:362-374 | Release takes away exactly what Prepare added |
| VmRuns.NamesAndMacsDistinct | internal/vm/vm.go:568-580 | names are pairwise distinct ignoring case and addresses pairwise distinct over listed and reserved machines together |
| VmRuns.AttachedMacsApart | internal/vm/vm.go:1212-1224 | machines attached to a bridge have different addresses |
| VmRuns.Settle | internal/vm/vm.go:303-308 | a new manager changes definitions only by stopping active machines; when every process is found, exactly those that had none |
| VmRuns.RestoreOne | internal/dhcp/dhcp.go:531-538 | a machine that runs comes back to its bridges, and no other machine loses one |
| VmRuns.Restore | internal/dhcp/dhcp.go:530-541 | when calls work, every active machine that Auto DNS can publish uses every managed bridge of its interfaces again |
| VmRuns.Open | internal/vm/vm.go:266-312 | starting over saved definitions loses none and changes them only by stopping active machines, in memory and in the file; when calls work it succeeds, stops exactly the machines without a process, and every other active one is served again |
| VmRuns.Run | internal/vm/vm.go:266-1334 | under any interleaving of all sections with DHCP operations, failures and restarts: identities, held machines, marks, exit channels and network users are consistent whenever the lock is free, and the files hold what the next start needs |
| Ipv4.RangeLayout | internal/dhcp/dhcp.go:1009-1029 | exactly the prefixes from /8 to /26 give a range: network < server < pool < broadcast without wrap-around, the pool has 2^h - 51 addresses |
| Ipv4.LeasableAddresses | internal/dhcp/dhcp.go:1049-1055 | pool and static range are apart, within the prefix, and hold neither server nor broadcast |
| Ipv4.OverlapIsMeeting | internal/dhcp/dhcp.go:1057-1059 | the overlap test holds exactly when the two prefixes share an address |
| Ipv4.NoConflictKeepsPoolFree | internal/dhcp/dhcp.go:1090-1102 | if nothing conflicts, an address the host has is never in the pool |
| Leases.Purge | internal/dhcp/dhcp.go:739-745 | exactly the expired and misplaced leases go |
| Leases.Acquire | internal/dhcp/dhcp.go:729-802 | a request changes the table and answers only as the relation `AcquireStep` allows, in any iteration order |
| Leases.Renew | internal/dhcp/dhcp.go:804-848 | renewal keeps the selected lease under the client's key and drops every other of its hardware address |
| Leases.Select | internal/dhcp/dhcp.go:805-822 | the lease asked for, else the client's own, else one of latest expiry |
| Leases.Allocate | internal/dhcp/dhcp.go:769-801 | an unsaved allocation is undone; refusals name the reason |
| Leases.UsedAddresses | internal/dhcp/dhcp.go:769-774 | exactly the addresses in the table |
| Leases.FirstFree | internal/dhcp/dhcp.go:786-791 | the scan ends, and finds the least free pool address or proves there is none |
| Leases.ClearDynamic | internal/dhcp/dhcp.go:863-872 | exactly the static leases stay |
| Leases.DeleteLease | internal/dhcp/dhcp.go:874-889 | exactly the leases of that hardware address go |
| Leases.SetStatic | internal/dhcp/dhcp.go:906-924 | the loop does to the table what `PinIn` says for the order in which the keys happen to come |
| Leases.PinIsStep | internal/dhcp/dhcp.go:906-924 | in every order: an address outside the static range changes nothing, a free one is pinned and replaces the machine's leases, a taken one can only drop leases of that machine |
| Leases.SetStaticKeepsTable | internal/dhcp/dhcp.go:891-926 | a pin keeps the table invariant, succeeds exactly for addresses below the pool that no other machine has, and leaves its hardware address with that one lease |
| Leases.RefusedPin | internal/dhcp/dhcp.go:912-923 | a pin is refused in every order or in none; a refused one leaves the table as it was in every order exactly when the machine holds no lease or the address is outside the static range |
| Leases.RefusedPinCanLose | internal/dhcp/dhcp.go:915-923 | for every taken static address some order drops all leases of the machine and still refuses |
| Leases.RefusedPinLosesALease | internal/dhcp/dhcp.go:915-923 | on any network, a table and an order in which a machine loses its lease to a refused pin |
| Leases.AcquireKeepsTable | internal/dhcp/dhcp.go:729-848 | no address is leased twice and every lease stays in its range |
| Leases.OthersUntouched | internal/dhcp/dhcp.go:729-848 | no other client's live entry changes |
| Leases.GrantedIsLeased | internal/dhcp/dhcp.go:729-848 | a strict request gets precisely its address, and every grant is a live lease of the client |
| Leases.RenewalLeavesOne | internal/dhcp/dhcp.go:829-840 | a renewed hardware address has exactly one lease |
| Leases.NewClientGetsLeastFree | internal/dhcp/dhcp.go:786-791 | a new client without a demand gets the least free pool address |
| Leases.ExhaustionIsFullPool | internal/dhcp/dhcp.go:769-794 | exhaustion is reported exactly when every pool address is held, which takes a lease per address |
| Leases.RunKeepsTable | internal/dhcp/dhcp.go:729-848 | the table invariant holds after any run of requests |
| Leases.LeaseStability | internal/dhcp/dhcp.go:739-848 | after strangers' requests before expiry, DISCOVER and REQUEST for the address are answered with the same address (sections 4.3.1 and 4.3.2 of RFC 2131) |
| Leases.HolderIsServed | internal/dhcp/dhcp.go:804-848 | a client with a live lease is served that lease |
| Leases.CanonicalLeaseClient | internal/dhcp/dhcp.go:969-981 | the greatest entry of a hardware address by expiry, then smallest key, whatever the iteration order |
| Leases.Consolidate | internal/dhcp/dhcp.go:945-967 | deleting while iterating gives the same result in every order |
| Leases.ConsolidationIsCanonical | internal/dhcp/dhcp.go:945-981 | every hardware address keeps exactly its greatest entry |
| Dhcp.Manager.MayConfigure | internal/dhcp/dhcp.go:161-231 | a configuration is allowed exactly when its settings go together (name, NAT, DNS, Auto DNS, boot URL, forwarders, suffix, host), nobody uses the bridge and its prefix shares no address with another |
| Dhcp.Manager.Configure | internal/dhcp/dhcp.go:161-257 | enabled prefixes stay disjoint; leases survive exactly a change that keeps the prefix; an unsaved change is undone; when the file can be written it succeeds exactly for the allowed settings |
| Dhcp.Manager.AcquireLease | internal/dhcp/dhcp.go:729-802 | a live handler's request acts on its own bridge's table by the stored configuration only |
| Dhcp.Manager.SetStaticLease | internal/dhcp/dhcp.go:891-926 | only that bridge's table changes; when the file can be written it succeeds exactly for free addresses below the pool |
| Dhcp.Manager.ReleaseLease | internal/dhcp/dhcp.go:850-861 | only that client's dynamic lease on that bridge goes |
| Dhcp.Manager.ClearDynamicLeases | internal/dhcp/dhcp.go:863-872 | only dynamic leases of that bridge go |
| Dhcp.Manager.DeleteLease | internal/dhcp/dhcp.go:874-889 | only that hardware address on that bridge loses its leases |
| Dhcp.Manager.ServerExited | internal/dhcp/dhcp.go:570-583 | a server that died leaves the users; a late exit of an earlier runtime changes nothing |
| Dhcp.Manager.Perform | internal/dhcp/dhcp.go:161-926 | no operation of another goroutine changes who uses a bridge, or the configuration of a bridge in use |
| Dhcp.Manager.PrepareBridge | internal/dhcp/dhcp.go:376-483 | success adds exactly this user and leaves a running handler on the stored configuration; failure changes nothing; when calls work it fails only for a name that Auto DNS cannot publish |
| Dhcp.Manager.ReleaseBridge | internal/dhcp/dhcp.go:491-528 | exactly this user goes, and the runtime with the last one |
| Dhcp.Manager.Prepare | internal/dhcp/dhcp.go:362-374 | a failed prepare leaves every user set as it was, whatever others did between two bridges; undisturbed and when calls work it succeeds unless Auto DNS cannot publish the name |
| Dhcp.Manager.Release | internal/dhcp/dhcp.go:485-489 | the machine leaves exactly the bridges it uses |
| Dhcp.AutoDnsRecords | internal/dhcp/dhcp.go:585-616 | every record is a live lease of an address of an interface the named machine attaches to this bridge, and every such machine has one |
| Dhcp.AddressesByMac | internal/dhcp/dhcp.go:593-603 | every hardware address with a live lease, with an address of one |
| Dhcp.FirstLeased | internal/dhcp/dhcp.go:605-613 | the first interface on the bridge whose address is leased |
| Dhcp.NamesDoNotShareAddresses | internal/dhcp/dhcp.go:585-616 | two names are never published with one address |
| Dhcp.PublishedNamesAreLabels | internal/dhcp/dhcp.go:387-391 | every name that Auto DNS publishes is a hostname label, because the users of such a bridge were checked and its configuration stays while it has users |
| Dhcp.AddressesAreUnique | internal/dhcp/dhcp.go:223-231 | no address is leased twice, on one bridge or on two |
| Dhcp.LeasesAreWellPlaced | internal/dhcp/dhcp.go:1049-1055 | dynamic leases are in the pool, static ones strictly below it, never server or broadcast |
| Dhcp.Open | internal/dhcp/dhcp.go:928-967 | a manager starts with the canonical leases of the file |
| Dhcp.ConsolidateAll | internal/dhcp/dhcp.go:945-967 | every table is consolidated, and the file is rewritten exactly when a lease was dropped |
| Dhcp.Run | internal/dhcp/dhcp.go:141-928 | leases, configurations and runtimes are consistent after any run with failures and restarts, in memory and in the file |
| Netlink.Kernel.RemoveMovable | internal/hostnet/provider_linux.go:792-820 | only addresses and routes of that link go |
| Netlink.Kernel.AddRoutes | internal/hostnet/provider_linux.go:832-850 | a route that exists elsewhere in an exclusive table is not added, and that is no failure |
| Netlink.Kernel.AddConfiguration | internal/hostnet/provider_linux.go:822-852 | everything is added except routes another link holds in an exclusive table |
| Netlink.Kernel.MoveConfiguration | internal/hostnet/provider_linux.go:774-783 | a migration moves everything; however far it came, only the two links' addresses and routes differ |
| Provider.LinuxProvider.TakeSnapshot | internal/hostnet/provider_linux.go:193-238 | exactly when its calls work and the links are as the change needs them, the snapshot records the named links; a master is missing in it exactly when the call that looks its name up failed |
| Provider.SnapshotBaseIsNear | internal/hostnet/provider_linux.go:668-689 | what a snapshot records is a state of the host that differs from the real one in masters only |
| Provider.LinuxProvider.Add | internal/hostnet/provider_linux.go:195-217 | a link is captured exactly if it exists when it must and is missing when it must be, and the calls that read it work; its master is noted exactly when its name can be looked up |
| Provider.LinuxProvider.Apply | internal/hostnet/provider_linux.go:240-327 | only the named links are touched however it ends; success is the whole change, exactly under the documented conditions when calls work; a failed change loses no route unless it migrates off a bridge, and no link that cannot be created again |
| Provider.LinuxProvider.ApplyToExisting | internal/hostnet/provider_linux.go:255-323 | the same for the changes of links that exist |
| Provider.LinuxProvider.AddBridge | internal/hostnet/provider_linux.go:246-254 | success is a new bridge that is up; the fates of the two calls decide exactly what else can be left; no other link changes |
| Provider.LinuxProvider.RequireBridge | internal/hostnet/provider_linux.go:691-700 | the link exists and is a bridge |
| Provider.LinuxProvider.BridgeMembers | internal/hostnet/provider_linux.go:702-715 | exactly the links with this master |
| Provider.LinuxProvider.DeleteBridge | internal/hostnet/provider_linux.go:255-267 | only a bridge without members goes, so no link loses its master |
| Provider.LinuxProvider.SetBridge | internal/hostnet/provider_linux.go:268-276 | only the state of a bridge changes |
| Provider.LinuxProvider.Attach | internal/hostnet/provider_linux.go:277-298 | refuses bridges, loopback and members of another master; a failure leaves all other links alone |
| Provider.LinuxProvider.Detach | internal/hostnet/provider_linux.go:299-323 | only a member is detached, and addresses move only off its one member's bridge |
| Provider.LinuxProvider.MoveOff | internal/hostnet/provider_linux.go:311-322 | addresses leave a bridge only for its single member |
| Provider.LinuxProvider.Restore | internal/hostnet/provider_linux.go:329-396 | from any state that differs only in the named links, success gives back existence, MTU, master, addresses, routes and state, except `Lost` routes, and except a created bridge whose lookup, the first call, failed; other links are never touched; when no call fails it succeeds exactly if nothing is missing that cannot be created again |
| Provider.LinuxProvider.RemoveCreated | internal/hostnet/provider_linux.go:333-340 | the fates of lookup and deletion decide exactly whether the created bridge is gone and whether success is reported |
| Provider.LinuxProvider.RecreateAll | internal/hostnet/provider_linux.go:330-358 | all named links exist with their MTU again and no route appeared |
| Provider.LinuxProvider.Recreate | internal/hostnet/provider_linux.go:341-357 | only a bridge is created again, with the saved MTU; no other link changes |
| Provider.LinuxProvider.RewriteAll | internal/hostnet/provider_linux.go:360-394 | all named links are as saved |
| Provider.LinuxProvider.Rewrite | internal/hostnet/provider_linux.go:364-393 | the link is as saved but for routes another link holds; no other link changes |
| Provider.LinuxProvider.RestoreMaster | internal/hostnet/provider_linux.go:368-382 | only the master changes, to the saved one or none |
| Provider.LinuxProvider.RestoreConfiguration | internal/hostnet/provider_linux.go:785-790 | exactly the saved addresses and the routes no other link holds |
| Provider.BlockedByTheOther | internal/hostnet/provider_linux.go:844-848 | of the routes to put back, another link can hold only those in `Lost` |
| Provider.RollbackIsInverse | internal/hostnet/provider_linux.go:360-394 | a full change is undone exactly, if and only if it did not move routes off a bridge in an exclusive table |
| PendingChange.Host.Rollback | internal/hostnet/provider_linux.go:329-396 | requires that the record's change was never confirmed, so nothing confirmed is ever restored; success leaves exactly the recorded links but for an overlooked bridge or lost routes |
| PendingChange.Host.Undo | internal/hostnet/manager.go:449-475 | success removes the record and restores the recorded links, failure keeps the record; the committed links are back exactly when no created bridge is overlooked and no route is lost, which is exactly when it leaves the log untroubled |
| PendingChange.Manager.Apply | internal/hostnet/manager.go:400-438 | a change is applied only after its snapshot is on disk; a refusal changes nothing, and the conditions of a refusal are exact; an applied change is the whole change and was safe for workloads; a change that fails at any call and is reported as undone leaves the recorded links, unless it created a bridge or was a risky one; on every script a changed host has its record unless the log is troubled, with the exact outcomes that trouble it; creating a bridge leaves the host changed without a record exactly on the fates of `CreationLapses`, and bringing one up or down does on those of `StateLapses` |
| PendingChange.Manager.Alter | internal/hostnet/manager.go:428 | however far a change comes, its record can undo it |
| PendingChange.Manager.Record | internal/hostnet/manager.go:412-427 | a change is recorded exactly when its snapshot can be taken and written; what the record restores is the host as it was, but for masters that could not be named |
| PendingChange.Manager.TakeBack | internal/hostnet/manager.go:428-435 | what a failed change leaves: when the rollback reports success, the recorded links are back exactly when it overlooked no created bridge and had no route to lose, and the record's removal troubles the log exactly otherwise; a rollback whose first call fails changes nothing, and loses the record all the same; for CreateBridge the record is gone with the host still changed exactly on the fates of `BridgeStays` |
| PendingChange.Manager.Confirm | internal/hostnet/manager.go:440-447 | exactly the pending change is confirmed, and the host as it is becomes the committed state; nothing else ever changes the committed state |
| PendingChange.Manager.ClearPending | internal/hostnet/manager.go:506-516 | the change stays pending exactly when its record could not be removed |
| PendingChange.Manager.Revert | internal/hostnet/manager.go:449-490 | a stale id does nothing; success removes the record and leaves exactly what its rollback gives; the committed links are then back exactly when no created bridge was overlooked and no route lost; failure leaves the record and troubles nothing |
| PendingChange.RollbackRestores | internal/hostnet/provider_linux.go:329-396 | a rollback that reports success restores the recorded links exactly when no created bridge was overlooked and no route is lost |
| PendingChange.AppliedIsRestorable | internal/hostnet/provider_linux.go:240-327 | a change applied fully or partly to the state its snapshot noted can be undone |
| PendingChange.WhatStays | internal/hostnet/manager.go:428-435 | the fates of lookup, deletion and removal of the record decide exactly whether a created bridge stays without a record |
| Lapses.RecordGoneAfterFailedRollback | internal/hostnet/manager.go:428-435 | from an untouched host, Apply(CreateBridge) on one script ends with the bridge there and no record |
| Lapses.RecordGoneWithBridgeDown | internal/hostnet/manager.go:428-435 | from an untouched host, Apply(SetBridgeDown) on one script ends with the bridge down and no record |
| Lapses.BridgeOverlooked | internal/hostnet/provider_linux.go:333-340 | a created bridge that cannot be looked up is passed over: the revert succeeds, the bridge stays, the record is gone |
| Lapses.MasterForgotten | internal/hostnet/provider_linux.go:677-682 | a master whose name cannot be looked up is not noted: the revert of a detachment succeeds and leaves the interface detached |
| Lapses.RoutesLost | internal/hostnet/provider_linux.go:360-394 | with every call working, the revert of a migrating detachment succeeds and the bridge has lost its routes |
| PendingChange.Open | internal/hostnet/manager.go:193-207 | a daemon that starts has rolled a leftover record back: the links are exactly what the rollback gives, and the committed ones exactly when no created bridge was overlooked and no route lost; without a record nothing changes; a failed start keeps the record |
| PendingChange.Run | internal/hostnet/manager.go:400-516 | over every script, after any commands, stale timers, failing calls and crashes: nothing confirmed was rolled back, only a confirmation changed the committed state, and the host differs from the committed state only while the record that restores it is on disk, unless the log is troubled; it never is when no call failed by itself and no risky change was begun |
| PendingChange.Recover | internal/hostnet/manager.go:461-475 | a restart whose calls work always succeeds; then there is no record and the links are what its rollback gives, which are the committed ones exactly when no created bridge was overlooked and no route lost |
| PendingChange.RecoverAfterCrash | internal/hostnet/manager.go:400-516 | over every script: after any run and a crash at any call, a successful restart has the last committed links back, those from before the run unless something was confirmed in it, provided the snapshots named their masters and every dropped record's rollback was fine |
| Bytes.LastBytesOfMore | internal/serialconsole/hub.go:200-204 | cutting the history loses nothing a later cut needs |
| SerialConsole.Attachment.Send | internal/serialconsole/hub.go:205-211 | a send is non-blocking and never on a closed channel |
| SerialConsole.Attachment.Close | internal/serialconsole/hub.go:263-266 | a channel is closed at most once, even without the guard of the source |
| SerialConsole.Attachment.Receive | internal/serialconsole/hub.go:296-302 | chunks leave the channel in order |
| SerialConsole.Session.Publish | internal/serialconsole/hub.go:197-213 | the history is the last bytes of all output; a client is cut off exactly when its queue is full, and its segment stays contiguous |
| SerialConsole.Session.Attach | internal/serialconsole/hub.go:215-230 | refused exactly without upstream or with another client; the new segment begins with the history |
| SerialConsole.Session.SetUpstream | internal/serialconsole/hub.go:147-157 | refused exactly after the stop signal |
| SerialConsole.Session.LostUpstream | internal/serialconsole/hub.go:244-253 | only the lost connection is forgotten, and no attachment outlives it |
| SerialConsole.Session.Detach | internal/serialconsole/hub.go:255-261 | a stale attachment leaves a newer one alone |
| SerialConsole.Session.Stop | internal/serialconsole/hub.go:268-269 | the stop signal alone leaves the session consistent |
| SerialConsole.Session.Shutdown | internal/serialconsole/hub.go:268-279 | neither upstream nor attachment is left |
| SerialConsole.Stream.Read | internal/serialconsole/hub.go:295-306 | bytes come in order; the end is seen only after the whole segment; a read waits only when everything so far was delivered |
| SerialConsole.Stream.Close | internal/serialconsole/hub.go:318-328 | detaches its own attachment only, once |
| SerialConsole.DeliveredIsContiguous | internal/serialconsole/hub.go:295-306 | what a client was given is one contiguous piece of the output from its attachment's history on |
| SerialConsole.Run | internal/serialconsole/hub.go:147-279 | under any interleaving: at most one live attachment, contiguity for every client, and after both steps of close nothing comes back |
| ConsoleHub.Hub.StartBegin | internal/serialconsole/hub.go:44-52 | one session per machine |
| ConsoleHub.Hub.Install | internal/serialconsole/hub.go:64-71 | only a session that was not stopped meanwhile gets the connection, and it is listed or about to be closed; a refused one is gone for good |
| ConsoleHub.Hub.Signal | internal/serialconsole/hub.go:268-269 | the stop signal alone loses track of no session |
| ConsoleHub.Hub.CloseSession | internal/serialconsole/hub.go:268-279 | after the locked part of a close the session is gone for good and its client cut off |
| ConsoleHub.Hub.Drop | internal/serialconsole/hub.go:57-70 | a start that failed removes its own session from the list, and never a newer one |
| ConsoleHub.Hub.StopBegin | internal/serialconsole/hub.go:78-82 | the session leaves the map before it is closed |
| ConsoleHub.Hub.CloseBegin | internal/serialconsole/hub.go:89-96 | exactly the listed sessions leave the list, each to be closed once |
| ConsoleHub.Hub.StopFinish | internal/serialconsole/hub.go:83-85 | a stop is over only when its session is gone |
| ConsoleHub.Hub.NothingLeaks | internal/serialconsole/hub.go:42-112 | with no start or stop in flight, a session that is not listed has neither upstream nor client |
| ConsoleHub.Hub.Attach | internal/serialconsole/hub.go:102-112 | a stream is one of the listed session |
| ConsoleHub.Hub.Reconnected | internal/serialconsole/hub.go:178-186 | a forgotten session never reconnects |
| ConsoleRuns.Advance | internal/serialconsole/hub.go:54-85 | every critical section of a start or a stop keeps the hub and all sessions consistent, whichever sections of others came before |
| ConsoleRuns.Run | internal/serialconsole/hub.go:44-279 | under any interleaving of starts, stops, Close, reader loops and clients: one session per machine, no client of two sessions, and with nothing in flight every session that is not listed has neither upstream nor client |
| RfbMessages.RectBack | internal/rfb/rfb.go:268-298 | a rectangle is read off exactly the bytes that encode it (sections 7.6.1, 7.7.1, 7.7.2, 7.8.2 of RFC 6143) |
| RfbMessages.MessageBack | internal/rfb/rfb.go:200-267 | a message is read off exactly the bytes that encode it |
| RfbMessages.ParseRecovers | internal/rfb/rfb.go:200-248 | well-formed messages are recovered exactly, whatever follows |
| RfbMessages.NothingLeftOver | internal/rfb/rfb.go:200-248 | whole messages leave no bytes over |
| RfbMessages.ParseIsExact | internal/rfb/rfb.go:200-248 | any input is the messages read and a rest that no well-formed message begins |
| Rfb.Clamp | internal/rfb/rfb.go:374-379 | the nearest value of the range |
| Rfb.Client.RequestUpdate | internal/rfb/rfb.go:312-322 | the message of section 7.5.3 of RFC 6143 for the whole desktop |
| Rfb.Client.KeyEvent | internal/rfb/rfb.go:325-333 | the message of section 7.5.4 of RFC 6143 |
| Rfb.Client.PointerEvent | internal/rfb/rfb.go:336-346 | the message of section 7.5.5 of RFC 6143 at the nearest point of the desktop |
| Rfb.UpdateRequestBack | internal/rfb/rfb.go:312-322 | a server reads the size back |
| Rfb.KeyMessageBack | internal/rfb/rfb.go:325-333 | a server reads the key back |
| Rfb.PointerMessageBack | internal/rfb/rfb.go:336-346 | a server reads the position and buttons back |
| Rfb.Client.ReadRect | internal/rfb/rfb.go:268-298 | one rectangle is read and drawn |
| Rfb.Client.ReadRects | internal/rfb/rfb.go:268-298 | the rectangles before an unreadable one are drawn all the same |
| Rfb.ReadingIsDrawing | internal/rfb/rfb.go:268-298 | reading and drawing rectangle by rectangle draws exactly the readable part of the update |
| Rfb.Client.ReadFramebufferUpdate | internal/rfb/rfb.go:260-301 | an update is announced only when it is complete |
| Rfb.Client.ReadCutText | internal/rfb/rfb.go:228-243 | text up to 1 MiB is delivered, longer text ends the session |
| Rfb.Client.SkipColourMap | internal/rfb/rfb.go:214-225 | exactly the entries are skipped |
| Rfb.Client.ReadMessage | internal/rfb/rfb.go:201-246 | one message is handled, or nothing but the readable part of an update |
| Rfb.Client.Run | internal/rfb/rfb.go:200-248 | on any input every readable message is handled in order until a write fails or no message can be read |
| Rfb.ServerIsUnderstood | internal/rfb/rfb.go:200-301 | the client handles exactly the messages the server sent |
| Framebuffer.Widget.Resize | cmd/argui/vncwidget.go:87-99 | a blank buffer of the new size |
| Framebuffer.Widget.Fill | cmd/argui/vncwidget.go:102-121 | exactly the clipped rectangle changes, to the block's pixels |
| Framebuffer.Widget.FillRow | cmd/argui/vncwidget.go:108-120 | one row of a block lands on exactly its visible part |
| Framebuffer.Widget.TakeBlock | cmd/argui/vncwidget.go:130-145 | the block holds the source before anything is written |
| Framebuffer.Widget.TakeLine | cmd/argui/vncwidget.go:131-144 | one source row, zeros off the desktop, and when its slice is out of bounds |
| Framebuffer.Widget.Copy | cmd/argui/vncwidget.go:124-158 | simultaneous assignment from a source on the desktop, overlapping or not; zeros for what lies off it; the exact condition for an out-of-bounds slice |
| Framebuffer.Widget.NotSliceable | cmd/argui/vncwidget.go:131-144 | a slice is out of bounds exactly when the source column lies further right than all rows from its own on are long |
| Framebuffer.SourceRightOfTheDesktop | cmd/argui/vncwidget.go:124-158 | a desktop and a CopyRect whose slice is out of bounds |
| Framebuffer.EveryByteHasAPlace | cmd/argui/vncwidget.go:102-158 | rows and columns reach every byte, so nothing else changes |

## Left out

Assumptions about what is not in these files:

- Case folding is ASCII, strings are sequences of characters, client keys of leases are not empty, and a lease address text that is no IPv4 address reads as none.
- A batch of firewall rules that is refused changes nothing; writing and removing a file is atomic.
- Random identities never repeat; definitions loaded from disk are consistent; times are numbers given with each request.
- An acquire step runs while its bridge's runtime lives, so it uses the stored configuration; requests without a client key do not occur.
- NAT, DNS, listener, hypervisor, QMP and host checks are fates of the script or parameters; a stop timer may fire at any time with any process.
- The kernel's own reactions (routes flushed when a link goes down, hardware and link-local addresses, the finer rules of when a route may be added) are not in the snapshot and not in the model.
- Reading a link's addresses and routes is one call in the model and two in the source.

Not modelled:

- CD-ROM, IPMI, cloud-init and resource settings of a machine, listing and annotating machines, file names and file contents: they touch no property proved here.
- VmManager.Manager.ForceStopFinish: does not say that the process is dead, because the source goes on after a timeout.
- VmManager.Manager.Rename: stands for Update, whose other fields concern only the machine itself; the host checks are the parameter `valid`.
- Leases.Acquire: does not keep one lease per hardware address, because the takeover of a key by another hardware address breaks it in the source.
- Ipv4.LeasableAddresses: does not exclude the network address from static leases, because the source allows it.
- SerialConsole.Stream.Read: a read that would block is an answer of its own, since a method cannot wait for another goroutine; writing to the guest is left out.
- ConsoleRuns.Run: clients come and are cut off, but what they read is left to `SerialConsole.Run`; a reader loop may see output at any time.
- Rfb.Client.Run: starts after the handshake; pixels over the memory of the client and concurrent closing are left out.
- Framebuffer.Widget.Fill: painting and the main-thread queue of the widget are left out.
- DHCP packets, `Shutdown` of the DHCP manager, and what a boot URL, forwarders and a suffix look like: whether they are well formed is part of a `Setting`.
- VmRuns.Open: the NAT recovery that ends `Reconcile` is `Nat.Recover`; serial consoles and IPMI are not started again.
- HTTP and Twirp services, storage, the command line and the user interfaces: no state protocol of their own.
- JSON and the encodings of netlink and nftables: files and kernel state hold values.
