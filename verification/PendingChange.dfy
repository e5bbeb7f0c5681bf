/**
 * The confirm-or-roll-back transaction over the host's links
 * (internal/hostnet/manager.go:400-516).  A change is applied only after the
 * snapshot needed to take it back is on disk, and stays provisional until it
 * is confirmed; a timer, a revert or the next start of the daemon rolls it back.
 *
 * `committed` is the state last confirmed; nothing but a confirmation changes
 * it.  `base` is the state the record on disk restores.
 */
module PendingChange {
  import opened Faults
  import opened Netlink
  import opened Provider
  import opened VirtualMachines

  datatype Pending = Pending(id: nat, snapshot: Snapshot)

  /** A rollback of `change` from the links `before` to `base`: whether its first call worked, and what it reported. */
  datatype Attempt = Attempt(change: Change, base: Links, before: Links, lookup: bool, reported: bool) {
    /** It reported success, overlooked no created bridge and had no route to lose. */
    predicate Fine(exclusive: bool) {
      && reported && !(change.CreateBridge? && !lookup && change.bridge in before)
      && Lost(base, before, change, exclusive) == {}
    }
  }

  /** `found` are the links when a change began; `Dropped` is the removal of a record after a rollback. */
  datatype Event =
    | Began(id: nat, change: Change, base: Links, found: Links)
    | Confirmed(id: nat)
    | Restored(id: nat)
    | Dropped(id: nat, attempt: Attempt)

  /** The snapshot named every master, and a record was dropped only after a rollback that was fine. */
  predicate Untroubling(event: Event, exclusive: bool) {
    match event
    case Began(_, _, base, found) => base == found
    case Dropped(_, attempt) => attempt.Fine(exclusive)
    case _ => true
  }

  ghost predicate Untroubled(log: seq<Event>, from: nat, exclusive: bool) {
    forall i :: from <= i < |log| ==> Untroubling(log[i], exclusive)
  }

  /** An untroubled stretch of the log is untroubled in each part. */
  lemma UntroubledParts(log: seq<Event>, middle: seq<Event>, from: nat, exclusive: bool)
    requires Prefixed(middle, log) && from <= |middle|
    ensures Untroubled(log, from, exclusive) <==>
              Untroubled(middle, from, exclusive) && Untroubled(log, |middle|, exclusive)
  {
    assert forall i :: from <= i < |middle| ==> log[i] == middle[i];
  }

  /** No confirmed change is rolled back later. */
  ghost predicate NeverUndone(log: seq<Event>) {
    forall i, j :: 0 <= i < j < |log| && log[i].Confirmed? && log[j].Restored? ==> log[i].id != log[j].id
  }

  lemma NothingTroubles(log: seq<Event>, exclusive: bool)
    ensures Untroubled(log, |log|, exclusive)
  {
  }

  lemma UntroubledEvent(log: seq<Event>, event: Event, exclusive: bool)
    ensures Untroubled(log + [event], |log|, exclusive) <==> Untroubling(event, exclusive)
  {
    assert (log + [event])[|log|] == event;
  }

  /** What is written when a change is rolled back. */
  function RollbackEvents(id: nat, attempt: Attempt, dropped: bool): seq<Event> {
    [Restored(id)] + if dropped then [Dropped(id, attempt)] else []
  }

  lemma UntroubledRollback(log: seq<Event>, id: nat, attempt: Attempt, dropped: bool, exclusive: bool)
    ensures Untroubled(log + RollbackEvents(id, attempt, dropped), |log|, exclusive) <==>
              (dropped ==> attempt.Fine(exclusive))
  {
    var all := log + RollbackEvents(id, attempt, dropped);
    if dropped && Untroubled(all, |log|, exclusive) {
      assert all[|log| + 1] == Dropped(id, attempt);
    }
  }

  /** manager.go:518-541. */
  predicate WorkloadSafe(change: Change, machines: seq<VirtualMachine>, dhcpEnabled: bool) {
    if change.DeleteBridge? then !dhcpEnabled && forall m <- machines :: !m.UsesBridge(change.bridge)
    else if change.SetBridgeDown? || change.DetachInterface? then
      forall m <- machines :: m.UsesBridge(change.bridge) ==> m.status != Running && m.status != Stopping
    else true
  }

  // ---- what a rollback leaves

  /**
   * The change whose rollback loses routes: a migration off a bridge with
   * routes, where a route can be on one link only.
   */
  ghost predicate Risky(change: Change, base: Links, exclusive: bool) {
    exclusive && change.DetachInterface? && change.migrate && change.bridge in base && base[change.bridge].routes != {}
  }

  /** A successful rollback restores the base exactly when no created bridge was overlooked and no route is lost. */
  lemma RollbackRestores(base: Links, now: Links, change: Change, exclusive: bool, lookup: bool)
    requires change.Valid() && Applicable(change, base) && Near(base, now, change.Names())
    ensures AfterRollback(base, now, change, exclusive, lookup) == base
       <==> !(change.CreateBridge? && !lookup && change.bridge in now) && Lost(base, now, change, exclusive) == {}
  {
    assert change.bridge in change.Names();
    if !change.CreateBridge? {
      var lost, saved := Lost(base, now, change, exclusive), base[change.bridge];
      assert RolledBack(base, now, change, exclusive)[change.bridge].routes == saved.routes - lost;
      assert lost == {} ==> saved.routes - lost == saved.routes;
      assert saved.routes - lost == saved.routes ==> lost == {};
    } else if !lookup && change.bridge !in now {
      assert now == base;
    }
  }

  /** What the record's change can have done to the host, and that it can be undone. */
  ghost predicate Restorable(snapshot: Snapshot, base: Links, now: Links, exclusive: bool) {
    var names := snapshot.change.Names();
    && Records(snapshot, base) && HostOk(base, exclusive)
    && Near(base, now, names) && Recreatable(base, now, names)
    && (!Risky(snapshot.change, base, exclusive) ==> Lost(base, now, snapshot.change, exclusive) == {})
  }

  /** A change applied, fully or partly, to the state its snapshot noted can be undone. */
  lemma AppliedIsRestorable(snapshot: Snapshot, base: Links, before: Links, now: Links, exclusive: bool)
    requires Records(snapshot, base) && HostOk(base, exclusive) && Near(base, before, snapshot.change.Names())
             && SameButMasters(base, before)
    requires Near(before, now, snapshot.change.Names()) && Recreatable(before, now, snapshot.change.Names())
    requires !(snapshot.change.DetachInterface? && snapshot.change.migrate) ==>
               Lost(before, now, snapshot.change, exclusive) == {}
    ensures Restorable(snapshot, base, now, exclusive)
  {
    var names := snapshot.change.Names();
    NearAgain(base, before, now, names);
    RecreatableAgain(base, before, now, names);
    assert snapshot.change.bridge in base ==>
      base[snapshot.change.bridge].routes == before[snapshot.change.bridge].routes;
    assert Lost(base, now, snapshot.change, exclusive) == Lost(before, now, snapshot.change, exclusive);
  }

  lemma NearAgain(base: Links, middle: Links, now: Links, names: seq<string>)
    requires Near(base, middle, names) && Near(middle, now, names) && base.Keys == middle.Keys
    ensures Near(base, now, names)
  {
  }

  lemma RecreatableAgain(base: Links, middle: Links, now: Links, names: seq<string>)
    requires Near(base, middle, names) && Recreatable(middle, now, names) && base.Keys == middle.Keys
    ensures Recreatable(base, now, names)
  {
    forall n | n in names && n in base
      ensures n in now || base[n].isBridge
    {
      assert n in middle;
    }
  }

  /**
   * The rollback of a created bridge from call n on leaves it without a record:
   * it is overlooked, or cannot be deleted, and the record goes.
   */
  predicate BridgeStays(fates: seq<Fate>, n: nat) {
    || ((FateAt(fates, n) == Fails || FateAt(fates, n) == FailsLate) && FateAt(fates, n + 1) == Works)
    || (FateAt(fates, n) == Works && FateAt(fates, n + 1) == Fails && FateAt(fates, n + 2) == Works)
  }

  /** Reverting the creation of a bridge reports success, also when the bridge was overlooked. */
  predicate CreationReverted(fates: seq<Fate>, present: bool) {
    if FateAt(fates, 0) == Works && present then FateAt(fates, 1) == FateAt(fates, 2) == Works
    else FateAt(fates, 0) != Crashes && FateAt(fates, 1) == Works
  }

  /** Applying CreateBridge from call n on succeeds: its three calls work. */
  predicate CreationWorks(fates: seq<Fate>, n: nat) {
    FateAt(fates, n) == FateAt(fates, n + 1) == FateAt(fates, n + 2) == Works
  }

  /** Applying CreateBridge from call n on half succeeds, and its rollback leaves the bridge without a record. */
  predicate CreationLapses(fates: seq<Fate>, n: nat) {
    && FateAt(fates, n) == Works && Takes(FateAt(fates, n + 1))
    && (FateAt(fates, n + 1) == Works ==> FateAt(fates, n + 2) == Fails || FateAt(fates, n + 2) == FailsLate)
    && BridgeStays(fates, if FateAt(fates, n + 1) == Works then n + 3 else n + 2)
  }

  /** A call that takes effect and reports a failure, a rollback whose first call fails, and the record is removed. */
  predicate LateFailureLapses(next: Future) {
    && next.TakesEffect() && !next.Succeeds()
    && next.Next().alive && !next.Next().Succeeds()
    && next.Next().Next().Succeeds()
  }

  /** Bringing a bridge up or down from here on ends in that way: its third call is the one that changes the bridge. */
  predicate StateLapses(next: Future) {
    next.Succeeds() && next.Next().Succeeds() && LateFailureLapses(next.Next().Next())
  }

  /** The snapshot is taken and its record written. */
  predicate Recordable(links: Links, change: Change, fates: seq<Fate>) {
    SnapshotTaken(links, change, fates) && SnapshotSurvived(links, change, fates)
      && FateAt(fates, SnapshotCalls(links, change)) == Works
  }

  /** What the calls after the record was written will meet. */
  function Recorded(links: Links, change: Change, fates: seq<Fate>): Future {
    Ahead(true, Rest(fates, SnapshotCalls(links, change) + 1))
  }

  lemma LapsesLater(fates: seq<Fate>, m: nat)
    ensures CreationLapses(Rest(fates, m), 0) == CreationLapses(fates, m)
    ensures CreationWorks(Rest(fates, m), 0) == CreationWorks(fates, m)
  {
    FateLater(fates, m, 0);
    FateLater(fates, m, 1);
    FateLater(fates, m, 2);
    FateLater(fates, m, 3);
    FateLater(fates, m, 4);
    FateLater(fates, m, 5);
  }

  lemma StaysLater(fates: seq<Fate>, m: nat)
    ensures BridgeStays(Rest(fates, m), 0) == BridgeStays(fates, m)
  {
    FateLater(fates, m, 0);
    FateLater(fates, m, 1);
    FateLater(fates, m, 2);
  }

  /** The fates decide what is left of a created bridge whose removal and the removal of whose record were attempted. */
  lemma WhatStays(before: Moment, after: Moment, bridge: string, base: Links, restored: bool, cleared: bool)
    requires Removal(before, after, bridge, base, restored) && bridge !in base
             && (bridge !in before.links ==> before.links == base)
    requires cleared == (after.alive && NextFate(after.fates) == Works)
    ensures cleared && after.links != base <==> before.alive && bridge in before.links && BridgeStays(before.fates, 0)
    ensures restored && cleared <==> before.alive && CreationReverted(before.fates, bridge in before.links)
  {
    FateLater(before.fates, 1, 0);
    FateLater(before.fates, 2, 0);
  }

  // ---- what outlives the daemon

  class Host {
    const provider: LinuxProvider
    const kernel: Kernel
    var file: Option<Pending>
    /** Every id ever given to a change. */
    var issued: set<nat>
    ghost var committed: Links
    ghost var base: Links
    ghost var log: seq<Event>

    constructor (kernel: Kernel)
      requires kernel.Consistent()
      ensures this.kernel == kernel && Safe() && Intact() && committed == kernel.links
      ensures log == [] && file == None && issued == {}
    {
      this.kernel := kernel;
      provider := new LinuxProvider(kernel);
      file := None;
      issued := {};
      committed := kernel.links;
      base := kernel.links;
      log := [];
    }

    /** The record on disk can undo what was done, and its change was never confirmed. */
    ghost predicate Safe()
      reads this, provider, kernel
    {
      && provider.kernel == kernel && kernel.Consistent() && LogOk(log, issued)
      && (file.Some? ==>
            && Restorable(file.value.snapshot, base, kernel.links, kernel.exclusive)
            && file.value.id in issued && Confirmed(file.value.id) !in log
            && BegunAs(log, file.value.id, file.value.snapshot.change, base))
    }

    /** The host differs from the committed state only while the record that restores that state is on disk. */
    ghost predicate Intact()
      reads this, kernel
    {
      if file.None? then kernel.links == committed else base == committed
    }

    /**
     * A rollback that reports success would not restore the base: a created
     * bridge is overlooked, or routes are lost.
     */
    ghost predicate Unrestored(lookup: bool)
      reads this, kernel
    {
      file.Some? && !Attempt(file.value.snapshot.change, base, kernel.links, lookup, true).Fine(kernel.exclusive)
    }

    method WriteFile(pending: Pending) returns (ok: bool)
      modifies this`file, kernel.script
      ensures file == if ok then Some(pending) else old(file)
      ensures ok == old(kernel.script.Succeeding()) && kernel.script.Advanced() && kernel.script.Smooth(ok)
    {
      var took;
      took, ok := kernel.script.Attempt();
      if ok {
        file := Some(pending);
      }
    }

    method RemoveIfExists(ghost event: Event) returns (ok: bool)
      modifies this`file, this`log, kernel.script
      ensures file == if ok then None else old(file)
      ensures log == if ok then old(log) + [event] else old(log)
      ensures ok == old(kernel.script.Succeeding()) && kernel.script.Advanced() && kernel.script.Smooth(ok)
    {
      var took;
      took, ok := kernel.script.Attempt();
      if ok {
        file := None;
        log := log + [event];
      }
    }

    ghost function Now(): Moment
      reads kernel, kernel.script
    {
      Moment(kernel.script.alive, kernel.script.fates, kernel.links)
    }

    /** The rollback that is about to be made. */
    ghost function Attempted(reported: bool): Attempt
      requires file.Some?
      reads this, kernel, kernel.script
    {
      Attempt(file.value.snapshot.change, base, kernel.links, kernel.script.Succeeding(), reported)
    }

    /** Restores the recorded snapshot; nothing that was confirmed is ever restored. */
    method Rollback() returns (ok: bool)
      requires Safe() && file.Some?
      modifies this`log, kernel`links, kernel.script
      ensures Safe() && log == old(log) + [Restored(file.value.id)]
      ensures ok ==>
                kernel.links == AfterRollback(base, old(kernel.links), file.value.snapshot.change, kernel.exclusive,
                                              old(kernel.script.Succeeding()))
      ensures ok ==> (kernel.links == base <==> old(Attempted(true)).Fine(kernel.exclusive))
      ensures !file.value.snapshot.change.CreateBridge? ==> provider.EndedAtOnce(ok)
      ensures !Risky(file.value.snapshot.change, base, kernel.exclusive) ==>
                Lost(base, old(kernel.links), file.value.snapshot.change, kernel.exclusive) == {}
      ensures file.value.snapshot.change.CreateBridge? ==>
                var bridge := file.value.snapshot.change.bridge;
                && provider.RemovalFollows(bridge, base, ok)
                && bridge !in base && (bridge !in old(kernel.links) ==> old(kernel.links) == base)
      ensures kernel.script.Smooth(ok
                                   && (!Risky(file.value.snapshot.change, base, kernel.exclusive) ==>
                                       kernel.links == base))
    {
      ghost var change, before := file.value.snapshot.change, kernel.links;
      LogGrows(log, issued, Restored(file.value.id));
      log := log + [Restored(file.value.id)];
      RollbackRestores(base, before, change, kernel.exclusive, true);
      RollbackRestores(base, before, change, kernel.exclusive, kernel.script.Succeeding());
      ok := provider.Restore(file.value.snapshot, base);
    }

    /**
     * The rollback of Revert, of the timer and of the next start: success
     * leaves exactly what restoring the record gives and removes the record;
     * failure keeps the record.
     */
    method Undo() returns (ok: bool)
      requires Safe() && file.Some?
      modifies this`file, this`log, kernel`links, kernel.script
      ensures Safe() && file == if ok then None else old(file)
      ensures log == old(log) + RollbackEvents(old(file).value.id, old(Attempted(true)), ok)
      ensures ok ==>
                kernel.links ==
                AfterRollback(base, old(kernel.links), old(file).value.snapshot.change, kernel.exclusive,
                              old(kernel.script.Succeeding()))
      ensures ok && old(Intact()) ==> (Intact() <==> !old(Unrestored(kernel.script.Succeeding())))
      ensures old(file).value.snapshot.change.CreateBridge? ==>
                (ok <==> && old(kernel.script.alive)
                         && CreationReverted(old(kernel.script.fates),
                                             old(file).value.snapshot.change.bridge in old(kernel.links)))
      ensures kernel.script.Smooth(ok)
      ensures Untroubled(log, |old(log)|, kernel.exclusive) <==> !ok || kernel.links == base
      ensures old(Intact()) && Untroubled(log, |old(log)|, kernel.exclusive) ==> Intact()
      ensures old(kernel.script.CrashOnly()) && !Risky(old(file).value.snapshot.change, base, kernel.exclusive) ==>
                Untroubled(log, |old(log)|, kernel.exclusive)
    {
      hide LogOk, Untroubled, Risky, AfterRollback, BegunAs, Lost, Restorable;
      ghost var change, before := file.value.snapshot.change, Now();
      ghost var event := Dropped(file.value.id, Attempted(true));
      ok := Rollback();
      ghost var restored, after := ok, Now();
      if ok {
        LogGrows(log, issued, event);
        ok := RemoveIfExists(event);
      }
      UntroubledRollback(old(log), event.id, event.attempt, ok, kernel.exclusive);
      if change.CreateBridge? {
        WhatStays(before, after, change.bridge, base, restored, after.alive && NextFate(after.fates) == Works);
      }
    }
  }

  ghost predicate BegunAs(log: seq<Event>, id: nat, change: Change, base: Links) {
    exists e :: e in log && e.Began? && e.id == id && e.change == change && e.base == base
  }

  ghost predicate LogOk(log: seq<Event>, issued: set<nat>) {
    NeverUndone(log) && forall e :: e in log ==> e.id in issued
  }

  lemma LogGrows(log: seq<Event>, issued: set<nat>, event: Event)
    requires LogOk(log, issued) && event.id in issued && Confirmed(event.id) !in log
    ensures LogOk(log + [event], issued)
    ensures !event.Confirmed? ==> ConfirmedIds(log + [event]) == ConfirmedIds(log)
    ensures !event.Confirmed? ==> Confirmed(event.id) !in log + [event]
  {
  }

  lemma BeganIsLogged(log: seq<Event>, issued: set<nat>, event: Event)
    requires LogOk(log, issued - {event.id}) && event.Began? && event.id in issued
    ensures LogOk(log + [event], issued) && ConfirmedIds(log + [event]) == ConfirmedIds(log)
    ensures Confirmed(event.id) !in log + [event] && BegunAs(log + [event], event.id, event.change, event.base)
  {
    assert forall e :: e in log ==> e.id != event.id;
    assert event in log + [event];
  }

  ghost predicate Prefixed(before: seq<Event>, after: seq<Event>) {
    before <= after
  }

  ghost function ConfirmedIds(log: seq<Event>): set<nat> {
    set e | e in log && e.Confirmed? :: e.id
  }

  /** No change that was begun is a risky one. */
  ghost predicate Harmless(log: seq<Event>, exclusive: bool) {
    forall e :: e in log && e.Began? ==> !Risky(e.change, e.base, exclusive)
  }

  // ---- the manager

  datatype Outcome = Refused | Applied(id: nat) | Undone | NotUndone

  class Manager {
    const host: Host
    var pending: Option<Pending>

    constructor (host: Host)
      requires host.file.None?
      ensures this.host == host && pending == None
    {
      this.host := host;
      pending := None;
    }

    ghost predicate Valid()
      reads this, host, host.provider, host.kernel
    {
      host.Safe() && pending == host.file
    }

    /** The change will be recorded. */
    ghost predicate Ready(change: Change, machines: seq<VirtualMachine>, dhcpEnabled: bool)
      reads this, host, host.kernel, host.kernel.script
    {
      && change.Valid() && pending.None? && WorkloadSafe(change, machines, dhcpEnabled)
      && Applicable(change, host.kernel.links)
      && host.kernel.script.alive && Recordable(host.kernel.links, change, host.kernel.script.fates)
    }

    /**
     * manager.go:400-438.  Creating a bridge leaves the host changed without a
     * record exactly on the scripts of `CreationLapses`.
     */
    method Apply(change: Change, id: nat, machines: seq<VirtualMachine>, dhcpEnabled: bool) returns (outcome: Outcome)
      requires Valid() && id !in host.issued
      modifies this, host`file, host`issued, host`base, host`log, host.kernel`links, host.kernel.script
      ensures Valid()
      ensures outcome.Refused? ==>
                && host.kernel.links == old(host.kernel.links) && host.file == old(host.file)
                && host.base == old(host.base) && host.log == old(host.log)
      ensures !outcome.Refused? ==>
                && change.Valid() && old(host.file).None? && WorkloadSafe(change, machines, dhcpEnabled)
                && Applicable(change, old(host.kernel.links))
                && host.base == SnapshotBase(old(host.kernel.links), change, old(host.kernel.script.fates))
                && Prefixed(old(host.log) + [Began(id, change, host.base, old(host.kernel.links))], host.log)
      ensures outcome.Applied? ==>
                && outcome.id == id && host.file.Some? && host.file.value.id == id
                && host.file.value.snapshot.change == change
                && host.kernel.links == Changed(old(host.kernel.links), change)
                && Permitted(change, old(host.kernel.links))
      ensures change.CreateBridge? && !outcome.Refused? ==>
                (outcome.Applied? <==> CreationWorks(old(host.kernel.script.fates), 2))
      ensures outcome.Applied? && change.CreateBridge? ==>
                host.kernel.script.alive && host.kernel.script.fates == Rest(old(host.kernel.script.fates), 5)
      ensures ConfirmedIds(host.log) == ConfirmedIds(old(host.log)) && Prefixed(old(host.log), host.log)
      ensures change.CreateBridge? && change.Valid() && old(pending).None?
              && change.bridge !in old(host.kernel.links) ==>
                (host.file.None? && host.kernel.links != old(host.kernel.links) <==>
                 && old(host.kernel.script.alive)
                 && Recordable(old(host.kernel.links), change, old(host.kernel.script.fates))
                 && CreationLapses(old(host.kernel.script.fates), 2))
      ensures !outcome.Refused? <==> old(Ready(change, machines, dhcpEnabled))
      ensures !outcome.Refused?
              && |old(host.kernel.script.fates)| <= SnapshotCalls(old(host.kernel.links), change) + 1 ==>
                host.kernel.script.Calm() && (outcome.Applied? <==> Permitted(change, old(host.kernel.links)))
      ensures outcome.Undone? && !change.CreateBridge? && !Risky(change, host.base, host.kernel.exclusive) ==>
                host.kernel.links == host.base
      ensures !outcome.Refused? ==>
                (Untroubled(host.log, |old(host.log)|, host.kernel.exclusive) <==>
                 && host.base == old(host.kernel.links)
                 && (host.file.Some? || (outcome.Undone? && host.kernel.links == host.base)))
      ensures !outcome.Refused? && (change.SetBridgeUp? || change.SetBridgeDown?)
              && Permitted(change, old(host.kernel.links))
              && StateLapses(Recorded(old(host.kernel.links), change, old(host.kernel.script.fates))) ==>
                outcome.NotUndone? && host.file.None? && host.kernel.links == Changed(old(host.kernel.links), change)
      ensures old(host.Intact()) && Untroubled(host.log, |old(host.log)|, host.kernel.exclusive) ==> host.Intact()
      ensures old(host.kernel.script.CrashOnly()) && Harmless(host.log, host.kernel.exclusive) ==>
                Untroubled(host.log, |old(host.log)|, host.kernel.exclusive)
      ensures host.kernel.script.Smooth(
                && (outcome.Refused? <==>
                    !(change.Valid() && old(pending).None? && WorkloadSafe(change, machines, dhcpEnabled)
                                            && Applicable(change, old(host.kernel.links))))
                && (!outcome.Refused? ==> (outcome.Applied? <==> Permitted(change, old(host.kernel.links)))))
    {
      if !change.Valid() || pending.Some? || !WorkloadSafe(change, machines, dhcpEnabled) {
        return Refused;
      }
      outcome := ApplyChecked(change, id);
    }

    method ApplyChecked(change: Change, id: nat) returns (outcome: Outcome)
      requires Valid() && id !in host.issued && change.Valid() && pending.None?
      modifies this`pending, host`file, host`issued, host`base, host`log, host.kernel`links, host.kernel.script
      ensures Valid() && Prefixed(old(host.log), host.log) && ConfirmedIds(host.log) == ConfirmedIds(old(host.log))
      ensures outcome.Refused? ==>
                && host.kernel.links == old(host.kernel.links) && host.file == old(host.file)
                && host.base == old(host.base) && host.log == old(host.log)
      ensures !outcome.Refused? ==>
                && host.base == SnapshotBase(old(host.kernel.links), change, old(host.kernel.script.fates))
                && Prefixed(old(host.log) + [Began(id, change, host.base, old(host.kernel.links))], host.log)
      ensures outcome.Applied? ==>
                && outcome.id == id && host.file.Some? && host.file.value.id == id
                && host.file.value.snapshot.change == change
                && Permitted(change, old(host.kernel.links))
                && host.kernel.links == Changed(old(host.kernel.links), change)
      ensures change.CreateBridge? && !outcome.Refused? ==>
                (outcome.Applied? <==> CreationWorks(old(host.kernel.script.fates), 2))
      ensures outcome.Applied? && change.CreateBridge? ==>
                host.kernel.script.alive && host.kernel.script.fates == Rest(old(host.kernel.script.fates), 5)
      ensures !outcome.Refused? <==>
              && old(host.kernel.script.alive) && Applicable(change, old(host.kernel.links))
              && Recordable(old(host.kernel.links), change, old(host.kernel.script.fates))
      ensures !outcome.Refused?
              && |old(host.kernel.script.fates)| <= SnapshotCalls(old(host.kernel.links), change) + 1 ==>
                host.kernel.script.Calm() && (outcome.Applied? <==> Permitted(change, old(host.kernel.links)))
      ensures change.CreateBridge? && change.bridge !in old(host.kernel.links) ==>
                (host.file.None? && host.kernel.links != old(host.kernel.links) <==>
                 && old(host.kernel.script.alive)
                 && Recordable(old(host.kernel.links), change, old(host.kernel.script.fates))
                 && CreationLapses(old(host.kernel.script.fates), 2))
      ensures outcome.Undone? && !change.CreateBridge? && !Risky(change, host.base, host.kernel.exclusive) ==>
                host.kernel.links == host.base
      ensures !outcome.Refused? ==>
                (Untroubled(host.log, |old(host.log)|, host.kernel.exclusive) <==>
                 && host.base == old(host.kernel.links)
                 && (host.file.Some? || (outcome.Undone? && host.kernel.links == host.base)))
      ensures !outcome.Refused? && (change.SetBridgeUp? || change.SetBridgeDown?)
              && Permitted(change, old(host.kernel.links))
              && StateLapses(Recorded(old(host.kernel.links), change, old(host.kernel.script.fates))) ==>
                outcome.NotUndone? && host.file.None? && host.kernel.links == Changed(old(host.kernel.links), change)
      ensures old(host.Intact()) && Untroubled(host.log, |old(host.log)|, host.kernel.exclusive) ==> host.Intact()
      ensures old(host.kernel.script.CrashOnly()) && Harmless(host.log, host.kernel.exclusive) ==>
                Untroubled(host.log, |old(host.log)|, host.kernel.exclusive)
      ensures host.kernel.script.Smooth(
                && (outcome.Refused? <==> !Applicable(change, old(host.kernel.links)))
                && (!outcome.Refused? ==> (outcome.Applied? <==> Permitted(change, old(host.kernel.links)))))
    {
      hide LogOk, Restorable, CreationLapses, CreationWorks, Risky, Untroubled;
      NothingTroubles(host.log, host.kernel.exclusive);
      LapsesLater(host.kernel.script.fates, 2);
      RestOfRest(host.kernel.script.fates, 2, 3);
      var ok := Record(change, id);
      if !ok {
        return Refused;
      }
      ghost var middle := host.log;
      outcome := Perform(change);
      UntroubledParts(host.log, middle, |old(host.log)|, host.kernel.exclusive);
      UntroubledEvent(old(host.log), Began(id, change, host.base, old(host.kernel.links)), host.kernel.exclusive);
    }

    /** manager.go:412-427: the snapshot is taken and written down. */
    method Record(change: Change, id: nat) returns (ok: bool)
      requires Valid() && pending.None? && change.Valid() && id !in host.issued
      modifies this`pending, host`file, host`issued, host`base, host`log, host.kernel.script
      ensures Valid()
      ensures !ok ==> pending.None? && host.base == old(host.base) && host.log == old(host.log)
      ensures ok ==>
                && pending.Some? && pending.value.id == id && pending.value.snapshot.change == change
                && Applicable(change, host.kernel.links)
                && host.base == SnapshotBase(host.kernel.links, change, old(host.kernel.script.fates))
                && SameButMasters(host.base, host.kernel.links)
                && host.log == old(host.log) + [Began(id, change, host.base, host.kernel.links)]
      ensures ConfirmedIds(host.log) == ConfirmedIds(old(host.log))
      ensures ok <==>
              && old(host.kernel.script.alive) && Applicable(change, host.kernel.links)
              && Recordable(host.kernel.links, change, old(host.kernel.script.fates))
      ensures ok ==>
                && host.kernel.script.alive
                && host.kernel.script.fates
                   == Rest(old(host.kernel.script.fates), SnapshotCalls(host.kernel.links, change) + 1)
      ensures host.kernel.script.Smooth(ok <==> Applicable(change, host.kernel.links))
      ensures old(host.kernel.script.CrashOnly()) && ok ==> host.base == host.kernel.links
    {
      hide LogOk, Restorable, NoLoneFailure, HostOk, BegunAs, SnapshotTaken, SnapshotSurvived, SnapshotBase,
        SnapshotCalls;
      ghost var fates, links := host.kernel.script.fates, host.kernel.links;
      RestOfRest(fates, SnapshotCalls(links, change), 1);
      FateLater(fates, SnapshotCalls(links, change), 0);
      SnapshotBaseIsNear(links, change, fates, host.kernel.exclusive);
      var snapshot := host.provider.TakeSnapshot(change);
      if snapshot.None? {
        return false;
      }
      ok := SavePending(Pending(id, snapshot.value), SnapshotBase(links, change, fates));
    }

    /** manager.go:497-504. */
    method SavePending(record: Pending, ghost noted: Links) returns (ok: bool)
      requires Valid() && pending.None? && record.id !in host.issued
      requires Records(record.snapshot, noted) && HostOk(noted, host.kernel.exclusive)
               && SameButMasters(noted, host.kernel.links)
      requires Near(noted, host.kernel.links, record.snapshot.change.Names())
      modifies this`pending, host`file, host`issued, host`base, host`log, host.kernel.script
      ensures Valid() && pending == if ok then Some(record) else None
      ensures host.base == if ok then noted else old(host.base)
      ensures host.log == old(host.log) + if ok
              then [Began(record.id, record.snapshot.change, noted, host.kernel.links)] else []
      ensures ConfirmedIds(host.log) == ConfirmedIds(old(host.log))
      ensures ok == old(host.kernel.script.Succeeding()) && host.kernel.script.Advanced()
              && host.kernel.script.Smooth(ok)
    {
      host.issued := host.issued + {record.id};
      ok := host.WriteFile(record);
      if ok {
        pending := Some(record);
        Note(record, noted);
      }
    }

    /** With the record on disk the change has begun. */
    ghost method Note(record: Pending, noted: Links)
      requires host.provider.kernel == host.kernel && host.kernel.Consistent() && host.file == pending == Some(record)
      requires LogOk(host.log, host.issued - {record.id}) && record.id in host.issued
      requires Records(record.snapshot, noted) && HostOk(noted, host.kernel.exclusive)
               && SameButMasters(noted, host.kernel.links)
      requires Near(noted, host.kernel.links, record.snapshot.change.Names())
      modifies host`base, host`log
      ensures Valid() && host.base == noted
              && host.log == old(host.log) + [Began(record.id, record.snapshot.change, noted, host.kernel.links)]
      ensures ConfirmedIds(host.log) == ConfirmedIds(old(host.log))
    {
      AppliedIsRestorable(record.snapshot, noted, host.kernel.links, host.kernel.links, host.kernel.exclusive);
      BeganIsLogged(host.log, host.issued, Began(record.id, record.snapshot.change, noted, host.kernel.links));
      host.base := noted;
      host.log := host.log + [Began(record.id, record.snapshot.change, noted, host.kernel.links)];
    }

    /** The second half of Apply, with the record on disk. */
    method Perform(change: Change) returns (outcome: Outcome)
      requires Valid() && pending.Some? && pending.value.snapshot.change == change
      requires Applicable(change, host.kernel.links) && SameButMasters(host.base, host.kernel.links)
      modifies this`pending, host`file, host`log, host.kernel`links, host.kernel.script
      ensures Valid() && !outcome.Refused? && Prefixed(old(host.log), host.log)
              && ConfirmedIds(host.log) == ConfirmedIds(old(host.log))
      ensures outcome.Applied? ==>
                && outcome.id == old(pending).value.id && host.file == old(host.file)
                && host.kernel.links == Changed(old(host.kernel.links), change)
                && Permitted(change, old(host.kernel.links))
      ensures change.CreateBridge? ==>
                (outcome.Applied? <==> old(host.kernel.script.alive) && CreationWorks(old(host.kernel.script.fates), 0))
      ensures outcome.Applied? && change.CreateBridge? ==>
                host.kernel.script.alive && host.kernel.script.fates == Rest(old(host.kernel.script.fates), 3)
      ensures change.CreateBridge? && host.base == old(host.kernel.links) ==>
                (host.file.None? && host.kernel.links != host.base <==>
                 old(host.kernel.script.alive) && CreationLapses(old(host.kernel.script.fates), 0))
      ensures outcome.Undone? && !change.CreateBridge? && !Risky(change, host.base, host.kernel.exclusive) ==>
                host.kernel.links == host.base
      ensures (change.SetBridgeUp? || change.SetBridgeDown?) && Permitted(change, old(host.kernel.links))
              && StateLapses(old(host.kernel.script.Future())) ==>
                outcome.NotUndone? && host.file.None? && host.kernel.links == Changed(old(host.kernel.links), change)
      ensures Untroubled(host.log, |old(host.log)|, host.kernel.exclusive)
         <==> host.file.Some? || (outcome.Undone? && host.kernel.links == host.base)
      ensures old(host.kernel.script.CrashOnly()) && !Risky(change, host.base, host.kernel.exclusive) ==>
                Untroubled(host.log, |old(host.log)|, host.kernel.exclusive)
      ensures host.kernel.script.Smooth(outcome.Applied? <==> Permitted(change, old(host.kernel.links)))
    {
      hide LogOk, Risky, Untroubled, Lost, AfterRollback, BegunAs, Restorable;
      ghost var fates := host.kernel.script.fates;
      NothingTroubles(host.log, host.kernel.exclusive);
      StaysLater(fates, CreationCalls(fates));
      var ok := Alter(change);
      if ok {
        return Applied(pending.value.id);
      }
      outcome := TakeBack();
    }

    /** manager.go:428: however far the change came, its record can undo it. */
    method Alter(change: Change) returns (ok: bool)
      requires Valid() && pending.Some? && pending.value.snapshot.change == change
      requires Applicable(change, host.kernel.links) && SameButMasters(host.base, host.kernel.links)
      modifies host.kernel`links, host.kernel.script
      ensures Valid()
      ensures ok ==>
                host.kernel.links == Changed(old(host.kernel.links), change)
                  && Permitted(change, old(host.kernel.links))
      ensures change.CreateBridge? ==> host.provider.CreationFollows(change.bridge, ok)
      ensures (change.SetBridgeUp? || change.SetBridgeDown?) && old(host.kernel.script.Succeeding()) ==>
                host.provider.StateFollows(change.bridge, change.SetBridgeUp?, old(host.kernel.script.Future()).Next(),
                                           ok)
      ensures host.kernel.script.Smooth(ok <==> Permitted(change, old(host.kernel.links)))
    {
      hide LogOk, Risky, Lost, BegunAs, NoLoneFailure;
      ghost var before := host.kernel.links;
      ok := host.provider.Apply(change);
      AppliedIsRestorable(pending.value.snapshot, host.base, before, host.kernel.links, host.kernel.exclusive);
    }

    /**
     * manager.go:428-435: a change that failed is rolled back, and its record
     * is removed whatever the rollback reported.
     */
    method TakeBack() returns (outcome: Outcome)
      requires Valid() && pending.Some?
      modifies this`pending, host`file, host`log, host.kernel`links, host.kernel.script
      ensures Valid() && (outcome.Undone? || outcome.NotUndone?)
      ensures host.file.None? || host.file == old(host.file)
      ensures host.log ==
              old(host.log)
              + RollbackEvents(old(pending).value.id, old(host.Attempted(true)).(reported := outcome.Undone?),
                               host.file.None?)
      ensures outcome.Undone? ==>
                (host.kernel.links == host.base <==> old(host.Attempted(true)).Fine(host.kernel.exclusive))
      ensures !old(pending).value.snapshot.change.CreateBridge? && !old(host.kernel.script.Succeeding()) ==>
                && outcome.NotUndone? && host.kernel.links == old(host.kernel.links)
                && (host.file.None? <==> old(host.kernel.script.Future()).Next().Succeeds())
      ensures Untroubled(host.log, |old(host.log)|, host.kernel.exclusive)
         <==> host.file.Some? || (outcome.Undone? && host.kernel.links == host.base)
      ensures outcome.Undone? && !old(pending).value.snapshot.change.CreateBridge? ==>
                (!Risky(old(pending).value.snapshot.change, host.base, host.kernel.exclusive) ==>
                  host.kernel.links == host.base)
      ensures outcome.Undone? ==>
                host.kernel.links ==
                AfterRollback(host.base, old(host.kernel.links), old(pending).value.snapshot.change,
                              host.kernel.exclusive,
                              old(host.kernel.script.Succeeding()))
      ensures old(pending).value.snapshot.change.CreateBridge? ==>
                (host.file.None? && host.kernel.links != host.base <==>
                 && old(host.kernel.script.alive) && old(pending).value.snapshot.change.bridge in old(host.kernel.links)
                 && BridgeStays(old(host.kernel.script.fates), 0))
      ensures host.kernel.script.Smooth(
                && outcome.Undone? && host.file.None?
                && (!Risky(old(pending).value.snapshot.change, host.base, host.kernel.exclusive) ==>
                    host.kernel.links == host.base))
      ensures old(host.kernel.script.CrashOnly())
              && !Risky(old(pending).value.snapshot.change, host.base, host.kernel.exclusive) ==>
                Untroubled(host.log, |old(host.log)|, host.kernel.exclusive)
    {
      hide LogOk, Risky, AfterRollback, BridgeStays, Untroubled, Lost, BegunAs, Restorable;
      ghost var change, before := pending.value.snapshot.change, host.Now();
      var restored := host.Rollback();
      ghost var after := host.Now();
      ghost var event := Dropped(pending.value.id, old(host.Attempted(true)).(reported := restored));
      LogGrows(host.log, host.issued, event);
      var cleared := ClearPending(event);
      UntroubledRollback(old(host.log), event.id, event.attempt, cleared, host.kernel.exclusive);
      if change.CreateBridge? {
        WhatStays(before, after, change.bridge, host.base, restored, cleared);
      }
      outcome := if restored then Undone else NotUndone;
    }

    /** manager.go:506-516. */
    method ClearPending(ghost event: Event) returns (ok: bool)
      modifies this`pending, host`file, host`log, host.kernel.script
      ensures host.log == if ok then old(host.log) + [event] else old(host.log)
      ensures host.file == if ok then None else old(host.file)
      ensures pending == if ok then None else old(pending)
      ensures ok == old(host.kernel.script.Succeeding()) && host.kernel.script.Advanced()
              && host.kernel.script.Smooth(ok)
    {
      ok := host.RemoveIfExists(event);
      if ok {
        pending := None;
      }
    }

    /** manager.go:440-447. */
    method Confirm(id: nat) returns (ok: bool)
      requires Valid()
      modifies this`pending, host`file, host`committed, host`log, host.kernel.script
      ensures Valid()
      ensures ok ==> old(pending).Some? && old(pending).value.id == id
      ensures ok ==>
                host.file == None && host.committed == host.kernel.links && host.log == old(host.log) + [Confirmed(id)]
      ensures ok ==> ConfirmedIds(host.log) == ConfirmedIds(old(host.log)) + {id} && id !in ConfirmedIds(old(host.log))
      ensures !ok ==> host.file == old(host.file) && host.committed == old(host.committed) && host.log == old(host.log)
      ensures host.kernel.script.Smooth(ok <==> old(pending).Some? && old(pending).value.id == id)
    {
      if pending.None? || pending.value.id != id {
        return false;
      }
      ok := ClearPending(Confirmed(id));
      if ok {
        host.committed := host.kernel.links;
        assert ConfirmedIds(host.log) == ConfirmedIds(old(host.log)) + {id};
      }
    }

    /**
     * manager.go:449-458; the timer of manager.go:479-490 does the same and
     * reports nothing.  Success leaves exactly what the rollback of the record
     * gives; failure leaves the record.
     */
    method Revert(id: nat) returns (ok: bool)
      requires Valid()
      modifies this`pending, host`file, host`log, host.kernel`links, host.kernel.script
      ensures Valid()
      ensures old(pending).None? || old(pending).value.id != id ==>
                !ok && host.kernel.links == old(host.kernel.links) && host.log == old(host.log)
      ensures !ok ==> host.file == old(host.file)
      ensures ok ==>
                && old(pending).Some? && host.file == None
                && host.kernel.links ==
                   AfterRollback(host.base, old(host.kernel.links), old(pending).value.snapshot.change,
                                 host.kernel.exclusive,
                                 old(host.kernel.script.Succeeding()))
      ensures old(pending).Some? && old(pending).value.id == id && old(pending).value.snapshot.change.CreateBridge? ==>
                (ok <==> && old(host.kernel.script.alive)
                         && CreationReverted(old(host.kernel.script.fates),
                                             old(pending).value.snapshot.change.bridge in old(host.kernel.links)))
      ensures ok && old(host.Intact()) ==> (host.Intact() <==> !old(host.Unrestored(host.kernel.script.Succeeding())))
      ensures Prefixed(old(host.log), host.log) && ConfirmedIds(host.log) == ConfirmedIds(old(host.log))
      ensures Untroubled(host.log, |old(host.log)|, host.kernel.exclusive) <==> !ok || host.kernel.links == host.base
      ensures old(host.Intact()) && Untroubled(host.log, |old(host.log)|, host.kernel.exclusive) ==> host.Intact()
      ensures old(host.kernel.script.CrashOnly()) && Harmless(host.log, host.kernel.exclusive) ==>
                Untroubled(host.log, |old(host.log)|, host.kernel.exclusive)
      ensures host.kernel.script.Smooth(ok <==> old(pending).Some? && old(pending).value.id == id)
    {
      if pending.None? || pending.value.id != id {
        return false;
      }
      ok := host.Undo();
      if ok {
        pending := None;
      }
    }
  }

  // ---- whole runs

  /**
   * manager.go:193-207, 461-475: a record left by the previous daemon is
   * rolled back first.  The record is read before anything is restored, so
   * the lookup of a created bridge is the second call.
   */
  method Open(host: Host) returns (manager: Option<Manager>)
    requires host.Safe()
    modifies host`file, host`log, host.kernel`links, host.kernel.script
    ensures host.Safe()
    ensures manager.Some? ==>
              fresh(manager.value) && manager.value.host == host && manager.value.Valid() && host.file.None?
    ensures manager.None? ==> host.file == old(host.file)
    ensures old(host.file).None? ==> host.kernel.links == old(host.kernel.links) && host.log == old(host.log)
    ensures manager.Some? && old(host.file).Some? ==>
              host.kernel.links ==
              AfterRollback(host.base, old(host.kernel.links), old(host.file).value.snapshot.change,
                            host.kernel.exclusive,
                            FateAt(old(host.kernel.script.fates), 1) == Works)
    ensures manager.Some? && old(host.Intact()) ==>
              (host.kernel.links == host.committed <==>
                !old(host.Unrestored(FateAt(host.kernel.script.fates, 1) == Works)))
    ensures Prefixed(old(host.log), host.log) && ConfirmedIds(host.log) == ConfirmedIds(old(host.log))
    ensures Untroubled(host.log, |old(host.log)|, host.kernel.exclusive)
       <==> manager.None? || old(host.file).None? || host.kernel.links == host.base
    ensures old(host.Intact()) && Untroubled(host.log, |old(host.log)|, host.kernel.exclusive) ==> host.Intact()
    ensures old(host.kernel.script.CrashOnly()) && Harmless(host.log, host.kernel.exclusive) ==>
              Untroubled(host.log, |old(host.log)|, host.kernel.exclusive)
    ensures host.kernel.script.Smooth(manager.Some?)
  {
    hide LogOk, Restorable, Untroubled, Lost, AfterRollback, NoLoneFailure;
    NothingTroubles(host.log, host.kernel.exclusive);
    FateLater(host.kernel.script.fates, 1, 0);
    var took, ok := host.kernel.script.Attempt();
    if !ok {
      return None;
    }
    if host.file.Some? {
      ok := host.Undo();
      if !ok {
        return None;
      }
    }
    var created := new Manager(host);
    manager := Some(created);
  }

  datatype Command =
    | Apply(change: Change, id: nat, machines: seq<VirtualMachine>, dhcpEnabled: bool)
    | Confirm(id: nat)
    | Revert(id: nat)
    | Timeout(id: nat)
    | Restart

  /**
   * Any sequence of commands, with stale timers and reverts at any time and
   * any failing calls: nothing confirmed is ever rolled back, and only a
   * confirmation changes the committed state.  Unless a snapshot could not
   * name a master or a record was dropped after a rollback that was not fine,
   * the host differs from the committed state only while its record is on
   * disk.  Neither happens when the only failures are crashes, at whatever
   * calls, and no risky change was begun.
   */
  method Run(host: Host, commands: seq<Command>) returns (manager: Option<Manager>)
    requires host.Safe()
    modifies host`file, host`issued, host`committed, host`base, host`log, host.kernel`links, host.kernel.script
    ensures host.Safe() && NeverUndone(host.log) && Prefixed(old(host.log), host.log)
    ensures manager.Some? ==> manager.value.host == host && manager.value.Valid()
    ensures ConfirmedIds(host.log) == ConfirmedIds(old(host.log)) ==> host.committed == old(host.committed)
    ensures old(host.kernel.script.CrashOnly()) ==> host.kernel.script.CrashOnly()
    ensures old(host.Intact()) && Untroubled(host.log, |old(host.log)|, host.kernel.exclusive) ==> host.Intact()
    ensures old(host.kernel.script.CrashOnly()) && Harmless(host.log, host.kernel.exclusive) ==>
              Untroubled(host.log, |old(host.log)|, host.kernel.exclusive)
  {
    manager := Open(host);
    for k := 0 to |commands|
      invariant host.Safe() && Prefixed(old(host.log), host.log)
      invariant manager.Some? ==> manager.value.host == host && fresh(manager.value) && manager.value.Valid()
      invariant ConfirmedIds(old(host.log)) <= ConfirmedIds(host.log)
      invariant ConfirmedIds(host.log) == ConfirmedIds(old(host.log)) ==> host.committed == old(host.committed)
      invariant old(host.kernel.script.CrashOnly()) ==> host.kernel.script.CrashOnly()
      invariant old(host.Intact()) && Untroubled(host.log, |old(host.log)|, host.kernel.exclusive) ==> host.Intact()
      invariant old(host.kernel.script.CrashOnly()) && Harmless(host.log, host.kernel.exclusive) ==>
                  Untroubled(host.log, |old(host.log)|, host.kernel.exclusive)
    {
      manager := Perform(host, manager, commands[k]);
    }
  }

  method Perform(host: Host, current: Option<Manager>, command: Command) returns (manager: Option<Manager>)
    requires host.Safe()
    requires current.Some? ==> current.value.host == host && current.value.Valid()
    modifies if current.Some? then {current.value} else {}
    modifies host`file, host`issued, host`committed, host`base, host`log, host.kernel`links, host.kernel.script
    ensures host.Safe() && Prefixed(old(host.log), host.log)
    ensures manager.Some? ==>
              manager.value.host == host && manager.value.Valid() && (fresh(manager.value) || manager == current)
    ensures ConfirmedIds(old(host.log)) <= ConfirmedIds(host.log)
    ensures ConfirmedIds(host.log) == ConfirmedIds(old(host.log)) ==> host.committed == old(host.committed)
    ensures old(host.kernel.script.CrashOnly()) ==> host.kernel.script.CrashOnly()
    ensures old(host.Intact()) && Untroubled(host.log, |old(host.log)|, host.kernel.exclusive) ==> host.Intact()
    ensures old(host.kernel.script.CrashOnly()) && Harmless(host.log, host.kernel.exclusive) ==>
              Untroubled(host.log, |old(host.log)|, host.kernel.exclusive)
  {
    manager := current;
    if command.Restart? {
      host.kernel.script.Restart();
      manager := Open(host);
    } else if current.Some? && host.kernel.script.alive {
      match command {
        case Apply(change, id, machines, dhcpEnabled) =>
          if id !in host.issued {
            var _ := current.value.Apply(change, id, machines, dhcpEnabled);
          }
        case Confirm(id) =>
          var _ := current.value.Confirm(id);
        case Revert(id) =>
          var _ := current.value.Revert(id);
        case Timeout(id) =>
          var _ := current.value.Revert(id);
      }
    }
  }

  /**
   * The daemon starts again.  When the calls work it always succeeds, and the
   * committed links are back exactly when no created bridge was overlooked and
   * no route lost.
   */
  method Recover(host: Host) returns (ok: bool)
    requires host.Safe()
    modifies host`file, host`log, host.kernel`links, host.kernel.script
    ensures host.Safe() && Prefixed(old(host.log), host.log) && ConfirmedIds(host.log) == ConfirmedIds(old(host.log))
    ensures if ok then host.file.None? else host.file == old(host.file)
    ensures old(host.file).None? ==> host.kernel.links == old(host.kernel.links)
    ensures ok && old(host.file).Some? ==>
              host.kernel.links ==
              AfterRollback(host.base, old(host.kernel.links), old(host.file).value.snapshot.change,
                            host.kernel.exclusive,
                            FateAt(old(host.kernel.script.fates), 1) == Works)
    ensures old(host.kernel.script.fates) == [] ==> ok
    ensures ok && old(host.Intact()) ==>
              (host.kernel.links == host.committed <==>
                !old(host.Unrestored(FateAt(host.kernel.script.fates, 1) == Works)))
    ensures old(host.Intact()) && Untroubled(host.log, |old(host.log)|, host.kernel.exclusive) ==> host.Intact()
    ensures old(host.kernel.script.CrashOnly()) && Harmless(host.log, host.kernel.exclusive) ==>
              Untroubled(host.log, |old(host.log)|, host.kernel.exclusive)
    ensures ok && old(host.Intact()) && Untroubled(host.log, |old(host.log)|, host.kernel.exclusive) ==>
              host.kernel.links == host.committed
  {
    host.kernel.script.Restart();
    var manager := Open(host);
    ok := manager.Some?;
  }

  /**
   * After any run, whichever calls fail, and a crash at any call of it, a
   * restart has the last committed links back: those from before the run,
   * unless something was confirmed in it.
   */
  method RecoverAfterCrash(host: Host, commands: seq<Command>) returns (ok: bool)
    requires host.Safe()
    modifies host`file, host`issued, host`committed, host`base, host`log, host.kernel`links, host.kernel.script
    ensures host.Safe() && NeverUndone(host.log)
    ensures ok ==> host.file.None?
    ensures old(host.kernel.script.CrashOnly()) && Harmless(host.log, host.kernel.exclusive) ==>
              Untroubled(host.log, |old(host.log)|, host.kernel.exclusive)
    ensures ok && old(host.Intact()) && Untroubled(host.log, |old(host.log)|, host.kernel.exclusive) ==>
              && host.kernel.links == host.committed
              && (ConfirmedIds(host.log) == ConfirmedIds(old(host.log)) ==> host.kernel.links == old(host.committed))
  {
    var _ := Run(host, commands);
    ok := Recover(host);
  }
}
