/** Snapshot, apply and restore of network changes (internal/hostnet/provider_linux.go:193-396). */
module Provider {
  import opened Faults
  import opened Netlink

  function Unmastered(links: Links, name: string): Links {
    if name in links then links[name := links[name].(master := "")] else links
  }

  /** How many calls it takes to capture a link. */
  function AddCalls(links: Links, name: string): nat {
    if name !in links then 1 else if links[name].master == "" then 2 else 3
  }

  /** The links as a snapshot notes one of them, when its first call is call `at` of the script. */
  function Noted(links: Links, name: string, fates: seq<Fate>, at: nat): Links {
    if AddCalls(links, name) == 3 && FateAt(fates, at + 2) != Works then Unmastered(links, name) else links
  }

  /** The links a snapshot records. */
  function SnapshotBase(links: Links, change: Change, fates: seq<Fate>): Links {
    var first := Noted(links, change.bridge, fates, 0);
    if change.AttachInterface? || change.DetachInterface?
    then Noted(first, change.interface, fates, AddCalls(links, change.bridge))
    else first
  }

  function SnapshotCalls(links: Links, change: Change): nat {
    if change.AttachInterface? || change.DetachInterface?
    then AddCalls(links, change.bridge) + AddCalls(links, change.interface)
    else AddCalls(links, change.bridge)
  }

  /**
   * The calls of a snapshot succeed, but for those for the name of a master,
   * which may fail as long as the daemon survives them.
   */
  predicate SnapshotTaken(links: Links, change: Change, fates: seq<Fate>) {
    && FateAt(fates, 0) == Works && (change.CreateBridge? || FateAt(fates, 1) == Works)
    && (change.AttachInterface? || change.DetachInterface? ==>
          var at := AddCalls(links, change.bridge);
          && (at == 3 ==> FateAt(fates, 2) != Crashes)
          && FateAt(fates, at) == FateAt(fates, at + 1) == Works)
  }

  /** The last call of the snapshot is survived. */
  predicate SnapshotSurvived(links: Links, change: Change, fates: seq<Fate>) {
    AddCalls(links, change.Names()[|change.Names()| - 1]) == 3 ==>
      FateAt(fates, SnapshotCalls(links, change) - 1) != Crashes
  }

  lemma NotedLater(links: Links, name: string, fates: seq<Fate>, at: nat)
    ensures Noted(links, name, Rest(fates, at), 0) == Noted(links, name, fates, at)
  {
    FateLater(fates, at, 2);
  }

  /** A snapshot's base differs from the links in masters only, so it is a state of the host too. */
  lemma SnapshotBaseIsNear(links: Links, change: Change, fates: seq<Fate>, exclusive: bool)
    requires change.Valid() && HostOk(links, exclusive)
    ensures var base := SnapshotBase(links, change, fates);
            HostOk(base, exclusive) && Near(base, links, change.Names()) && SameButMasters(base, links)
  {
    var names := change.Names();
    assert change.bridge in names;
    var first := Noted(links, change.bridge, fates, 0);
    if first != links {
      StillNear(links, links, change.bridge, names, exclusive);
    }
    if change.AttachInterface? || change.DetachInterface? {
      assert change.interface in names;
      if change.interface in first {
        StillNear(first, links, change.interface, names, exclusive);
      }
    }
  }

  ghost predicate SameButMasters(base: Links, now: Links) {
    base.Keys == now.Keys && forall n :: n in base ==> base[n] == now[n].(master := base[n].master)
  }

  lemma StillNear(base: Links, now: Links, name: string, names: seq<string>, exclusive: bool)
    requires HostOk(base, exclusive) && name in base && name in names && Near(base, now, names)
             && SameButMasters(base, now)
    ensures HostOk(Unmastered(base, name), exclusive) && Near(Unmastered(base, name), now, names)
            && SameButMasters(Unmastered(base, name), now)
  {
  }

  function Members(links: Links, bridge: string): set<string> {
    set n | n in links && links[n].master == bridge
  }

  predicate MayAttach(links: Links, bridge: string, interface: string)
    requires bridge in links && interface in links
  {
    links[bridge].isBridge && !links[interface].isBridge && interface != "lo" && links[interface].master == ""
  }

  predicate MayDetach(links: Links, bridge: string, interface: string, migrate: bool)
    requires bridge in links && interface in links
  {
    links[bridge].isBridge && links[interface].master == bridge && (migrate ==> |Members(links, bridge)| == 1)
  }

  /** The conditions under which a change is not refused. */
  predicate Permitted(change: Change, links: Links)
    requires Applicable(change, links)
  {
    assert change.bridge in change.Names();
    assert change.AttachInterface? || change.DetachInterface? ==> change.interface in change.Names();
    match change
    case CreateBridge(_) => true
    case DeleteBridge(b) => links[b].isBridge && Members(links, b) == {}
    case SetBridgeUp(b) => links[b].isBridge
    case SetBridgeDown(b) => links[b].isBridge
    case AttachInterface(b, i, _) => MayAttach(links, b, i)
    case DetachInterface(b, i, migrate) => MayDetach(links, b, i, migrate)
  }

  /** The links after the two calls that create a bridge, the first being call `at` of the script. */
  function AfterCreation(links: Links, bridge: string, fates: seq<Fate>, at: nat): Links {
    if !Takes(FateAt(fates, at)) then links
    else links[bridge := NEW_BRIDGE.(up := FateAt(fates, at) == Works && Takes(FateAt(fates, at + 1)))]
  }

  /** How many calls applying CreateBridge makes. */
  function CreationCalls(fates: seq<Fate>): (n: nat)
    ensures 1 <= n <= 3
  {
    if FateAt(fates, 0) != Works then 1 else if FateAt(fates, 1) != Works then 2 else 3
  }

  /** Nothing is missing that a rollback cannot create again. */
  ghost predicate Recreatable(base: Links, now: Links, names: seq<string>) {
    forall n :: n in names && n in base ==> n in now || base[n].isBridge
  }

  /** The outside world and the links at one moment. */
  datatype Moment = Moment(alive: bool, fates: seq<Fate>, links: Links)

  /** What removing a created bridge leaves, call by call: its lookup, and its deletion if it was found. */
  predicate Removal(before: Moment, after: Moment, name: string, base: Links, ok: bool) {
    var deleting := before.alive && FateAt(before.fates, 0) == Works && name in before.links;
    && after.links == (if deleting && Takes(FateAt(before.fates, 1)) then base else before.links)
    && ok == (deleting ==> FateAt(before.fates, 1) == Works)
    && after.fates == (if !before.alive then before.fates else Rest(before.fates, if deleting then 2 else 1))
    && after.alive
       == (before.alive && FateAt(before.fates, 0) != Crashes && (deleting ==> FateAt(before.fates, 1) != Crashes))
  }

  class LinuxProvider {
    const kernel: Kernel

    constructor (kernel: Kernel)
      ensures this.kernel == kernel
    {
      this.kernel := kernel;
    }

    // ---- provider_linux.go:193-238, 668-689

    /** A link is captured as it is, but without its master exactly when the name of the master cannot be looked up. */
    method Add(name: string, mustExist: bool) returns (captured: Option<LinkSnapshot>)
      modifies kernel.script
      ensures captured.Some? <==>
                && old(kernel.script.alive) && (mustExist <==> name in kernel.links)
                && FateAt(old(kernel.script.fates), 0) == Works
                && (mustExist ==> FateAt(old(kernel.script.fates), 1) == Works)
      ensures captured.Some? ==>
                && captured.value == Captured(Noted(kernel.links, name, old(kernel.script.fates), 0), name)
                && kernel.script.fates == Rest(old(kernel.script.fates), AddCalls(kernel.links, name))
                && (kernel.script.alive <==>
                    AddCalls(kernel.links, name) < 3 || FateAt(old(kernel.script.fates), 2) != Crashes)
      ensures !mustExist ==> kernel.script.Advanced()
      ensures kernel.script.Smooth(captured.Some? <==> (mustExist <==> name in kernel.links))
    {
      ghost var fates := kernel.script.fates;
      RestOfRest(fates, 1, 1);
      RestOfRest(fates, 2, 1);
      FateLater(fates, 1, 0);
      FateLater(fates, 2, 0);
      var found := kernel.LinkByName(name);
      if found.NotFound? && !mustExist {
        return Some(LinkSnapshot(name, None));
      }
      if !found.Found? || !mustExist {
        return None;
      }
      var link := found.link;
      var took, ok := kernel.script.Attempt();
      if !ok {
        return None;
      }
      if link.master != "" {
        took, ok := kernel.script.Attempt();
        if !ok {
          return Some(LinkSnapshot(name, Some(link.(master := ""))));
        }
      }
      captured := Some(LinkSnapshot(name, Some(link)));
    }

    /** The snapshot records `SnapshotBase`: the links, but for masters that could not be named. */
    method TakeSnapshot(change: Change) returns (snapshot: Option<Snapshot>)
      requires change.Valid() && kernel.Consistent()
      modifies kernel.script
      ensures snapshot.Some? ==>
                && snapshot.value.change == change && Applicable(change, kernel.links)
                && Records(snapshot.value, SnapshotBase(kernel.links, change, old(kernel.script.fates)))
                && kernel.script.fates == Rest(old(kernel.script.fates), SnapshotCalls(kernel.links, change))
      ensures snapshot.Some? <==>
                old(kernel.script.alive) && Applicable(change, kernel.links)
                  && SnapshotTaken(kernel.links, change, old(kernel.script.fates))
      ensures snapshot.Some? ==>
                (kernel.script.alive <==> SnapshotSurvived(kernel.links, change, old(kernel.script.fates)))
      ensures kernel.script.Smooth(snapshot.Some? <==> Applicable(change, kernel.links))
      ensures old(kernel.script.CrashOnly()) && snapshot.Some? && kernel.script.alive ==>
                SnapshotBase(kernel.links, change, old(kernel.script.fates)) == kernel.links
    {
      ghost var fates := kernel.script.fates;
      var first := Add(change.bridge, !change.CreateBridge?);
      if first.None? {
        return None;
      }
      if !change.AttachInterface? && !change.DetachInterface? {
        return Some(Snapshot(change, [first.value]));
      }
      ghost var calls := AddCalls(kernel.links, change.bridge);
      NotedLater(kernel.links, change.interface, fates, calls);
      RestOfRest(fates, calls, AddCalls(kernel.links, change.interface));
      FateLater(fates, calls, 0);
      FateLater(fates, calls, 1);
      FateLater(fates, calls, 2);
      var second := Add(change.interface, true);
      if second.None? {
        return None;
      }
      snapshot := Some(Snapshot(change, [first.value, second.value]));
    }

    // ---- provider_linux.go:240-327

    /** Whatever happens, only the named links are touched, and a success is the whole change. */
    method Apply(change: Change) returns (ok: bool)
      requires change.Valid() && Applicable(change, kernel.links) && kernel.Consistent()
      modifies kernel`links, kernel.script
      ensures kernel.Consistent()
      ensures Near(old(kernel.links), kernel.links, change.Names())
      ensures ok ==> kernel.links == Changed(old(kernel.links), change)
      ensures !(change.DetachInterface? && change.migrate) ==>
                Lost(old(kernel.links), kernel.links, change, kernel.exclusive) == {}
      ensures ok ==> Permitted(change, old(kernel.links))
      ensures Recreatable(old(kernel.links), kernel.links, change.Names())
      ensures change.CreateBridge? ==> CreationFollows(change.bridge, ok)
      ensures (change.SetBridgeUp? || change.SetBridgeDown?) && old(kernel.script.Succeeding()) ==>
                StateFollows(change.bridge, change.SetBridgeUp?, old(kernel.script.Future()).Next(), ok)
      ensures kernel.script.Smooth(ok <==> Permitted(change, old(kernel.links)))
    {
      ghost var fates := kernel.script.fates;
      RestOfRest(fates, 1, 1);
      RestOfRest(fates, 1, 2);
      FateLater(fates, 1, 0);
      FateLater(fates, 1, 1);
      var took;
      took, ok := kernel.script.Attempt();
      if !ok {
        return;
      }
      if change.CreateBridge? {
        ok := AddBridge(change.bridge);
      } else {
        ok := ApplyToExisting(change);
      }
    }

    method ApplyToExisting(change: Change) returns (ok: bool)
      requires change.Valid() && !change.CreateBridge? && Applicable(change, kernel.links) && kernel.Consistent()
      modifies kernel`links, kernel.script
      ensures kernel.Consistent()
      ensures Near(old(kernel.links), kernel.links, change.Names())
      ensures ok ==> kernel.links == Changed(old(kernel.links), change) && Permitted(change, old(kernel.links))
      ensures !(change.DetachInterface? && change.migrate) ==>
                Lost(old(kernel.links), kernel.links, change, kernel.exclusive) == {}
      ensures Recreatable(old(kernel.links), kernel.links, change.Names())
      ensures change.SetBridgeUp? || change.SetBridgeDown? ==>
                StateFollows(change.bridge, change.SetBridgeUp?, old(kernel.script.Future()), ok)
      ensures kernel.script.Smooth(ok <==> Permitted(change, old(kernel.links)))
    {
      match change
      case DeleteBridge(bridge) =>
        ok := DeleteBridge(bridge);
      case SetBridgeUp(bridge) =>
        ok := SetBridge(bridge, true);
      case SetBridgeDown(bridge) =>
        ok := SetBridge(bridge, false);
      case AttachInterface(bridge, interface, migrate) =>
        ok := Attach(bridge, interface, migrate);
      case DetachInterface(bridge, interface, migrate) =>
        ok := Detach(bridge, interface, migrate);
    }

    /** What creating a bridge leaves, call by call: the permission check, the addition, and bringing it up. */
    twostate predicate CreationFollows(bridge: string, ok: bool)
      reads kernel, kernel.script
    {
      var alive, fates := old(kernel.script.alive), old(kernel.script.fates);
      && ok == (alive && FateAt(fates, 0) == FateAt(fates, 1) == FateAt(fates, 2) == Works)
      && kernel.links
         == (if alive && FateAt(fates, 0)
             == Works then AfterCreation(old(kernel.links), bridge, fates, 1) else old(kernel.links))
      && kernel.script.fates == (if alive then Rest(fates, CreationCalls(fates)) else fates)
      && kernel.script.alive == (alive && FateAt(fates, CreationCalls(fates) - 1) != Crashes)
    }

    /** provider_linux.go:246-254. */
    method AddBridge(bridge: string) returns (ok: bool)
      requires bridge !in kernel.links && bridge != "" && kernel.Consistent()
      modifies kernel`links, kernel.script
      ensures kernel.Consistent()
      ensures var alive, fates := old(kernel.script.alive), old(kernel.script.fates);
              && ok == (alive && FateAt(fates, 0) == FateAt(fates, 1) == Works)
              && kernel.links
                 == (if alive then AfterCreation(old(kernel.links), bridge, fates, 0) else old(kernel.links))
              && kernel.script.fates
                 == (if alive then Rest(fates, if FateAt(fates, 0) == Works then 2 else 1) else fates)
              && kernel.script.alive == (alive && FateAt(fates, if FateAt(fates, 0) == Works then 1 else 0) != Crashes)
      ensures kernel.script.Smooth(ok)
    {
      RestOfRest(kernel.script.fates, 1, 1);
      FateLater(kernel.script.fates, 1, 0);
      ok := kernel.LinkAdd(bridge);
      if ok {
        ok := kernel.SetUp(bridge, true);
      }
    }

    method RequireBridge(name: string) returns (ok: bool)
      modifies kernel.script
      ensures ok ==> name in kernel.links && kernel.links[name].isBridge
      ensures ok == (old(kernel.script.Succeeding()) && name in kernel.links && kernel.links[name].isBridge)
      ensures kernel.script.Advanced()
      ensures kernel.script.Smooth(ok <==> name in kernel.links && kernel.links[name].isBridge)
    {
      var found := kernel.LinkByName(name);
      ok := found.Found? && found.link.isBridge;
    }

    /** provider_linux.go:702-715. */
    method BridgeMembers(bridge: string) returns (members: Option<set<string>>)
      modifies kernel.script
      ensures members.Some? ==> members.value == Members(kernel.links, bridge)
      ensures kernel.script.Smooth(members.Some?)
    {
      var took, ok := kernel.script.Attempt();
      members := if ok then Some(Members(kernel.links, bridge)) else None;
    }

    method DeleteBridge(bridge: string) returns (ok: bool)
      requires bridge in kernel.links && kernel.Consistent()
      modifies kernel`links, kernel.script
      ensures kernel.Consistent()
      ensures kernel.links == old(kernel.links) || kernel.links == old(kernel.links) - {bridge}
      ensures ok ==> kernel.links == old(kernel.links) - {bridge}
      ensures ok ==> Permitted(Change.DeleteBridge(bridge), old(kernel.links))
      ensures kernel.links != old(kernel.links) ==> old(kernel.links)[bridge].isBridge
      ensures kernel.script.Smooth(ok <==> Permitted(Change.DeleteBridge(bridge), old(kernel.links)))
    {
      ok := RequireBridge(bridge);
      if !ok {
        return;
      }
      var members := BridgeMembers(bridge);
      if members.None? || members.value != {} {
        return false;
      }
      assert forall n :: n in kernel.links ==> kernel.links[n].master != bridge by {
        forall n | n in kernel.links
          ensures kernel.links[n].master != bridge
        {
          assert n !in members.value;
        }
      }
      assert Kernel.Deleted(kernel.links, bridge) == kernel.links - {bridge};
      ok := kernel.LinkDel(bridge);
    }

    /** When the lookup, the next call, finds a bridge, the fate of the call after it decides. */
    twostate predicate StateFollows(bridge: string, up: bool, lookup: Future, ok: bool)
      reads kernel, kernel.script
    {
      bridge in old(kernel.links) && old(kernel.links)[bridge].isBridge && lookup.Succeeds() ==>
        && ok == lookup.Next().Succeeds() && kernel.script.Future() == lookup.Next().Next()
        && kernel.links == if lookup.Next().TakesEffect()
           then old(kernel.links)[bridge := old(kernel.links)[bridge].(up := up)]
                           else old(kernel.links)
    }

    method SetBridge(bridge: string, up: bool) returns (ok: bool)
      requires bridge in kernel.links && kernel.Consistent()
      modifies kernel`links, kernel.script
      ensures kernel.Consistent()
      ensures kernel.links == old(kernel.links)
              || kernel.links == old(kernel.links)[bridge := old(kernel.links)[bridge].(up := up)]
      ensures ok ==> kernel.links == old(kernel.links)[bridge := old(kernel.links)[bridge].(up := up)]
      ensures ok ==> old(kernel.links)[bridge].isBridge
      ensures StateFollows(bridge, up, old(kernel.script.Future()), ok)
      ensures kernel.script.Smooth(ok <==> old(kernel.links)[bridge].isBridge)
    {
      ok := RequireBridge(bridge);
      if ok {
        ok := kernel.SetUp(bridge, up);
      }
    }

    method Attach(bridge: string, interface: string, migrate: bool) returns (ok: bool)
      requires bridge in kernel.links && interface in kernel.links && bridge != interface && bridge != ""
      requires kernel.Consistent()
      modifies kernel`links, kernel.script
      ensures kernel.links.Keys == old(kernel.links).Keys
      ensures kernel.Consistent()
      ensures Near(old(kernel.links), kernel.links, [bridge, interface])
      ensures interface in kernel.links && kernel.links[interface].routes <= old(kernel.links)[interface].routes
      ensures ok ==> kernel.links == Changed(old(kernel.links), AttachInterface(bridge, interface, migrate))
      ensures ok ==> MayAttach(old(kernel.links), bridge, interface)
      ensures kernel.script.Smooth(ok <==> MayAttach(old(kernel.links), bridge, interface))
    {
      hide NoLoneFailure;
      ok := RequireBridge(bridge);
      if !ok {
        return;
      }
      var member := kernel.LinkByName(interface);
      if !member.Found? || member.link.isBridge || interface == "lo" || member.link.master != "" {
        return false;
      }
      ok := kernel.SetMaster(interface, bridge);
      ghost var attached := kernel.links;
      NearKept(old(kernel.links), old(kernel.links), attached, interface, [bridge, interface]);
      if ok && migrate {
        ok := kernel.MoveConfiguration(interface, bridge);
        MovedIsNear(old(kernel.links), attached, kernel.links, interface, bridge, [bridge, interface]);
      }
      if ok {
        AttachedIsChanged(old(kernel.links), attached, kernel.links, bridge, interface, migrate);
      }
    }

    method Detach(bridge: string, interface: string, migrate: bool) returns (ok: bool)
      requires bridge in kernel.links && interface in kernel.links && bridge != interface
      requires kernel.Consistent()
      modifies kernel`links, kernel.script
      ensures kernel.links.Keys == old(kernel.links).Keys
      ensures kernel.Consistent()
      ensures Near(old(kernel.links), kernel.links, [bridge, interface])
      ensures interface in kernel.links
              && (!migrate ==> kernel.links[interface].routes == old(kernel.links)[interface].routes)
      ensures ok ==> kernel.links == Changed(old(kernel.links), DetachInterface(bridge, interface, migrate))
      ensures ok ==> MayDetach(old(kernel.links), bridge, interface, migrate)
      ensures kernel.script.Smooth(ok <==> MayDetach(old(kernel.links), bridge, interface, migrate))
    {
      ok := RequireBridge(bridge);
      if !ok {
        return;
      }
      var member := kernel.LinkByName(interface);
      if !member.Found? || member.link.master != bridge {
        return false;
      }
      if migrate {
        ok := MoveOff(bridge, interface);
        if !ok {
          return;
        }
      }
      ok := Release(bridge, interface, old(kernel.links), migrate);
    }

    /** provider_linux.go:323. */
    method Release(bridge: string, interface: string, ghost start: Links, ghost migrated: bool) returns (ok: bool)
      requires bridge in start && interface in start && interface in kernel.links && kernel.Consistent()
      requires Near(start, kernel.links, [bridge, interface])
      requires kernel.links == if migrated then Moved(start, bridge, interface) else start
      modifies kernel`links, kernel.script
      ensures kernel.links.Keys == old(kernel.links).Keys
      ensures kernel.Consistent() && Near(start, kernel.links, [bridge, interface])
      ensures interface in kernel.links && kernel.links[interface].routes == old(kernel.links)[interface].routes
      ensures ok ==> kernel.links == Changed(start, DetachInterface(bridge, interface, migrated))
      ensures kernel.script.Smooth(ok)
    {
      ok := kernel.SetMaster(interface, "");
      NearKept(start, old(kernel.links), kernel.links, interface, [bridge, interface]);
      if ok {
        DetachedIsChanged(start, old(kernel.links), kernel.links, bridge, interface, migrated);
      }
    }

    /** provider_linux.go:311-322: only the one member of a bridge takes its addresses over. */
    method MoveOff(bridge: string, interface: string) returns (ok: bool)
      requires bridge in kernel.links && interface in kernel.links && bridge != interface
      requires kernel.Consistent()
      modifies kernel`links, kernel.script
      ensures kernel.links.Keys == old(kernel.links).Keys
      ensures kernel.Consistent() && MovedPartly(old(kernel.links), kernel.links, bridge, interface)
      ensures Near(old(kernel.links), kernel.links, [bridge, interface])
      ensures ok ==> kernel.links == Moved(old(kernel.links), bridge, interface)
      ensures ok ==> |Members(old(kernel.links), bridge)| == 1
      ensures kernel.script.Smooth(ok <==> |Members(old(kernel.links), bridge)| == 1)
    {
      assert kernel.links[bridge := kernel.links[bridge]][interface := kernel.links[interface]] == kernel.links;
      var members := BridgeMembers(bridge);
      if members.None? || |members.value| != 1 {
        return false;
      }
      ok := kernel.MoveConfiguration(bridge, interface);
      MovedIsNear(old(kernel.links), old(kernel.links), kernel.links, bridge, interface, [bridge, interface]);
    }

    // ---- provider_linux.go:329-396

    /**
     * From any state that differs from `base` only in the snapshot's links, a
     * rollback that reports success leaves `base`, except for the routes in
     * `Lost`; and except that a created bridge stays when the first call, its
     * lookup, fails.  A rollback that fails makes nothing irrecoverable.
     */
    method Restore(snapshot: Snapshot, ghost base: Links) returns (ok: bool)
      requires Records(snapshot, base) && HostOk(base, kernel.exclusive) && kernel.Consistent()
      requires Near(base, kernel.links, snapshot.change.Names())
      modifies kernel`links, kernel.script
      ensures kernel.Consistent() && Near(base, kernel.links, snapshot.change.Names())
      ensures ok ==>
                kernel.links == AfterRollback(base, old(kernel.links), snapshot.change, kernel.exclusive,
                                              old(kernel.script.Succeeding()))
      ensures snapshot.change.CreateBridge? ==> RemovalFollows(snapshot.change.bridge, base, ok)
      ensures !snapshot.change.CreateBridge? ==> EndedAtOnce(ok)
      ensures Lost(base, kernel.links, snapshot.change, kernel.exclusive)
              <= Lost(base, old(kernel.links), snapshot.change, kernel.exclusive)
      ensures Recreatable(base, old(kernel.links), snapshot.change.Names()) ==>
                Recreatable(base, kernel.links, snapshot.change.Names())
      ensures kernel.script.Smooth(ok <==> Recreatable(base, old(kernel.links), snapshot.change.Names()))
      ensures old(kernel.script.CrashOnly()) && kernel.script.alive && ok ==>
                kernel.links == RolledBack(base, old(kernel.links), snapshot.change, kernel.exclusive)
    {
      hide NoLoneFailure, HostOk;
      if snapshot.links[0].saved.None? {
        ok := RemoveCreated(snapshot.links[0].name, base);
        return;
      }
      ok := RecreateAll(snapshot, base);
      ghost var present := kernel.links;
      if ok {
        ok := RewriteAll(snapshot, base);
        SameLoss(base, old(kernel.links), present, snapshot.change, kernel.exclusive);
      }
      RoutesFromBoth(base, old(kernel.links), present, kernel.links, snapshot.change, kernel.exclusive);
    }

    twostate predicate RemovalFollows(name: string, base: Links, ok: bool)
      reads kernel, kernel.script
    {
      Removal(Moment(old(kernel.script.alive), old(kernel.script.fates), old(kernel.links)),
              Moment(kernel.script.alive, kernel.script.fates, kernel.links), name, base, ok)
    }

    /** provider_linux.go:333-340: a bridge that cannot be looked up is passed over in silence. */
    method RemoveCreated(name: string, ghost base: Links) returns (ok: bool)
      requires kernel.Consistent() && HostOk(base, kernel.exclusive) && name !in base && name != ""
               && Near(base, kernel.links, [name])
      modifies kernel`links, kernel.script
      ensures kernel.Consistent() && Near(base, kernel.links, [name])
      ensures RemovalFollows(name, base, ok)
      ensures name !in old(kernel.links) ==> old(kernel.links) == base
      ensures kernel.script.Smooth(ok && kernel.links == base)
    {
      RestOfRest(kernel.script.fates, 1, 1);
      FateLater(kernel.script.fates, 1, 0);
      var found := kernel.LinkByName(name);
      assert Kernel.Deleted(kernel.links, name) == base by {
        forall n | n != name
          ensures n in kernel.links <==> n in base
          ensures n in base ==> kernel.links[n] == base[n] && base[n].master != name
        {
        }
      }
      assert name !in kernel.links ==> kernel.links == base;
      ok := true;
      if found.Found? {
        ok := kernel.LinkDel(name);
      }
    }

    /** The first loop, provider_linux.go:330-358, over links that existed. */
    method RecreateAll(snapshot: Snapshot, ghost base: Links) returns (ok: bool)
      requires Records(snapshot, base) && !snapshot.change.CreateBridge? && HostOk(base, kernel.exclusive)
               && kernel.Consistent()
      requires Near(base, kernel.links, snapshot.change.Names())
      modifies kernel`links, kernel.script
      ensures kernel.Consistent() && Near(base, kernel.links, snapshot.change.Names())
      ensures ok ==> Present(base, old(kernel.links), kernel.links, snapshot.change.Names())
      ensures Grown(base, old(kernel.links), kernel.links)
      ensures EndedAtOnce(ok)
      ensures kernel.script.Smooth(ok <==> Recreatable(base, old(kernel.links), snapshot.change.Names()))
    {
      hide NoLoneFailure, Present, Grown, Recreatable;
      ghost var names := snapshot.change.Names();
      NothingRecreated(base, kernel.links, names);
      ok := true;
      for i := 0 to |snapshot.links|
        invariant kernel.Consistent() && Near(base, kernel.links, names)
        invariant RecreatedSoFar(base, old(kernel.links), kernel.links, names, i) && kernel.script.Smooth(ok)
        invariant if i == 0
                  then kernel.links == old(kernel.links) && kernel.script.Future() == old(kernel.script.Future())
                  else old(kernel.script.Succeeding())
      {
        assert snapshot.links[i] == Captured(base, names[i]) && names[i] in names;
        ghost var before := kernel.links;
        ok := Recreate(snapshot.links[i].name, snapshot.links[i].saved.value);
        NearKept(base, before, kernel.links, names[i], names);
        RecreateStep(base, old(kernel.links), before, kernel.links, names, i, ok);
        if !ok {
          return;
        }
      }
      assert names[..|names|] == names;
    }

    /** When the first call fails, nothing more is done. */
    twostate predicate EndedAtOnce(ok: bool)
      reads kernel, kernel.script
    {
      !old(kernel.script.Succeeding()) ==> !ok && kernel.links == old(kernel.links) && kernel.script.Advanced()
    }

    method Recreate(name: string, saved: Link) returns (ok: bool)
      requires kernel.Consistent() && saved.mtu > 0 && name != ""
      modifies kernel`links, kernel.script
      ensures kernel.Consistent() && kernel.links - {name} == old(kernel.links) - {name}
      ensures name in old(kernel.links) ==>
                name in kernel.links && kernel.links[name] == old(kernel.links)[name].(mtu := kernel.links[name].mtu)
      ensures name !in old(kernel.links) && name in kernel.links ==>
                saved.isBridge && kernel.links[name] == NEW_BRIDGE.(mtu := kernel.links[name].mtu)
      ensures ok ==> name in kernel.links && kernel.links[name].mtu == saved.mtu
      ensures EndedAtOnce(ok)
      ensures kernel.script.Smooth(ok <==> name in old(kernel.links) || saved.isBridge)
    {
      var found := kernel.LinkByName(name);
      var mtu := 0;
      match found {
        case NotFound =>
          if !saved.isBridge {
            return false;
          }
          ok := kernel.LinkAdd(name);
          if !ok {
            return;
          }
        case LookupFailed =>
          return false;
        case Found(link) =>
          mtu := link.mtu;
      }
      ok := true;
      if saved.mtu > 0 && mtu != saved.mtu {
        ok := kernel.SetMtu(name, saved.mtu);
      }
    }

    /** The second loop, provider_linux.go:360-394. */
    method RewriteAll(snapshot: Snapshot, ghost base: Links) returns (ok: bool)
      requires Records(snapshot, base) && !snapshot.change.CreateBridge? && HostOk(base, kernel.exclusive)
               && kernel.Consistent()
      requires Near(base, kernel.links, snapshot.change.Names())
      requires Rewritten(base, kernel.links, kernel.links, snapshot.change, 0, kernel.exclusive)
      modifies kernel`links, kernel.script
      ensures kernel.Consistent() && Near(base, kernel.links, snapshot.change.Names())
      ensures ok ==> kernel.links == RolledBack(base, old(kernel.links), snapshot.change, kernel.exclusive)
      ensures Grown(base, old(kernel.links), kernel.links)
      ensures kernel.script.Smooth(ok)
    {
      hide NoLoneFailure;
      ghost var names := snapshot.change.Names();
      ok := true;
      for i := 0 to |snapshot.links|
        invariant kernel.Consistent() && Near(base, kernel.links, names)
        invariant Rewritten(base, old(kernel.links), kernel.links, snapshot.change, i, kernel.exclusive)
        invariant Grown(base, old(kernel.links), kernel.links)
        invariant kernel.script.Smooth(ok)
      {
        assert snapshot.links[i] == Captured(base, names[i]) && names[i] in names;
        ghost var before := kernel.links;
        AllThere(base, before, names);
        ok := Rewrite(snapshot.links[i].name, snapshot.links[i].saved.value);
        NearKept(base, before, kernel.links, names[i], names);
        GrownStep(base, old(kernel.links), before, kernel.links, names[i]);
        if !ok {
          return;
        }
        RewrittenStep(base, old(kernel.links), before, kernel.links, snapshot.change, i, kernel.exclusive);
      }
      AllRewritten(base, old(kernel.links), kernel.links, snapshot.change, kernel.exclusive);
    }

    method Rewrite(name: string, saved: Link) returns (ok: bool)
      requires kernel.Consistent() && name in kernel.links && kernel.links[name].mtu == saved.mtu
               && kernel.links[name].isBridge == saved.isBridge
      modifies kernel`links, kernel.script
      ensures kernel.Consistent() && kernel.links - {name} == old(kernel.links) - {name}
      ensures name in kernel.links && kernel.links[name].mtu == saved.mtu
              && kernel.links[name].isBridge == saved.isBridge
      ensures kernel.links[name].routes <= old(kernel.links)[name].routes + saved.routes
      ensures ok ==>
                kernel.links[name]
                  == saved.(routes := saved.routes - Blocked(old(kernel.links), name, saved.routes, kernel.exclusive))
      ensures kernel.script.Smooth(ok <==> saved.master == "" || saved.master in old(kernel.links))
    {
      var found := kernel.LinkByName(name);
      if !found.Found? {
        return false;
      }
      ok := RestoreMaster(name, saved.master, found.link);
      if !ok {
        return;
      }
      ghost var attached := kernel.links;
      ok := RestoreState(name, saved);
      SameBlocked(old(kernel.links), attached, name, saved.routes, kernel.exclusive);
    }

    /** provider_linux.go:383-393. */
    method RestoreState(name: string, saved: Link) returns (ok: bool)
      requires kernel.Consistent() && name in kernel.links
      modifies kernel`links, kernel.script
      ensures kernel.Consistent() && kernel.links - {name} == old(kernel.links) - {name}
      ensures name in kernel.links && kernel.links[name].mtu == old(kernel.links)[name].mtu
      ensures kernel.links[name].isBridge == old(kernel.links)[name].isBridge
      ensures kernel.links[name].routes <= old(kernel.links)[name].routes + saved.routes
      ensures ok ==> kernel.links[name] == old(kernel.links)[name].(addresses := saved.addresses, up := saved.up,
                       routes := saved.routes - Blocked(old(kernel.links), name, saved.routes, kernel.exclusive))
      ensures kernel.script.Smooth(ok)
    {
      ok := RestoreConfiguration(name, saved);
      if ok {
        ok := kernel.SetUp(name, saved.up);
      }
    }

    /** provider_linux.go:368-382. */
    method RestoreMaster(name: string, wanted: string, link: Link) returns (ok: bool)
      requires kernel.Consistent() && name in kernel.links && link == kernel.links[name]
      modifies kernel`links, kernel.script
      ensures kernel.Consistent() && name in kernel.links
      ensures kernel.links == old(kernel.links)[name := link.(master := kernel.links[name].master)]
      ensures ok ==> kernel.links[name].master == wanted
      ensures kernel.script.Smooth(ok <==> wanted == "" || wanted in old(kernel.links))
    {
      assert kernel.links == kernel.links[name := link];
      ok := true;
      if wanted == "" {
        if link.master != "" {
          ok := kernel.SetMaster(name, "");
        }
      } else {
        var master := kernel.LinkByName(wanted);
        ok := master.Found?;
        if ok {
          ok := kernel.SetMaster(name, wanted);
        }
      }
    }

    /** provider_linux.go:785-790. */
    method RestoreConfiguration(name: string, saved: Link) returns (ok: bool)
      requires kernel.Consistent() && name in kernel.links
      modifies kernel`links, kernel.script
      ensures kernel.Consistent() && Reconfigured(old(kernel.links), kernel.links, name)
      ensures kernel.links[name].routes <= old(kernel.links)[name].routes + saved.routes
      ensures ok ==>
                && kernel.links[name].addresses == saved.addresses
                && kernel.links[name].routes
                   == saved.routes - Blocked(old(kernel.links), name, saved.routes, kernel.exclusive)
      ensures kernel.script.Smooth(ok)
    {
      ok := kernel.RemoveMovable(name);
      if ok {
        ghost var emptied := kernel.links;
        ok := kernel.AddConfiguration(name, saved.addresses, saved.routes);
        SameBlocked(old(kernel.links), emptied, name, saved.routes, kernel.exclusive);
      }
    }
  }

  /** Each of `names` is there with its MTU, and nothing gained a route. */
  ghost predicate Present(base: Links, before: Links, now: Links, names: seq<string>) {
    && (forall n :: n in names ==> n in now && n in base && now[n].mtu == base[n].mtu)
    && (forall n :: n in before ==> n in now) && (forall n :: n in now && n !in names ==> n in before)
    && (forall n :: n in now ==> now[n].routes == if n in before then before[n].routes else {})
  }

  /** How far the second loop has come: its first `i` links are as they will stay. */
  ghost predicate Rewritten(base: Links, start: Links, now: Links, change: Change, i: nat, exclusive: bool) {
    && (forall n :: n in change.Names() ==> n in base && n in now && now[n].mtu == base[n].mtu && n in start)
    && (i == 0 ==> now == start)
    && (i >= 1 && change.bridge in base ==> RolledBackAt(base, start, now, change, exclusive))
    && (i >= 2 && (change.AttachInterface? || change.DetachInterface?) ==>
          change.interface in now && change.interface in base && now[change.interface] == base[change.interface])
  }

  ghost predicate RolledBackAt(base: Links, start: Links, now: Links, change: Change, exclusive: bool)
    requires change.bridge in base
  {
    && change.bridge in now
    && now[change.bridge]
       == base[change.bridge].(routes := base[change.bridge].routes - Lost(base, start, change, exclusive))
  }

  lemma RewrittenStep(base: Links, start: Links, before: Links, after: Links, change: Change, i: nat, exclusive: bool)
    requires change.Valid() && !change.CreateBridge? && Applicable(change, base) && HostOk(base, exclusive)
    requires i < |change.Names()| && Near(base, before, change.Names())
    requires Rewritten(base, start, before, change, i, exclusive)
    requires var name := change.Names()[i];
             && before - {name} == after - {name} && name in base && name in after
             && after[name]
                == base[name].(routes := base[name].routes - Blocked(before, name, base[name].routes, exclusive))
    ensures Rewritten(base, start, after, change, i + 1, exclusive)
  {
    var name := change.Names()[i];
    assert change.Names()[0] == change.bridge && change.bridge in change.Names();
    OthersKept(before, after, name);
    BlockedByTheOther(base, start, before, change, i, exclusive);
    if i == 1 {
      assert name == change.interface;
    }
  }

  lemma AllRewritten(base: Links, start: Links, now: Links, change: Change, exclusive: bool)
    requires change.Valid() && !change.CreateBridge? && Applicable(change, base)
    requires Near(base, now, change.Names()) && Rewritten(base, start, now, change, |change.Names()|, exclusive)
    ensures now == RolledBack(base, start, change, exclusive)
  {
  }

  lemma HolderIsNamed(base: Links, now: Links, names: seq<string>, name: string, holder: string, route: Route,
                      exclusive: bool)
    requires exclusive && HostOk(base, exclusive) && Near(base, now, names) && name in base
             && route in base[name].routes
    requires holder in now && holder != name && route in now[holder].routes
    ensures holder in names
  {
  }

  /** Of the routes to put back, another link holds only those in `Lost`. */
  lemma BlockedByTheOther(base: Links, start: Links, now: Links, change: Change, i: nat, exclusive: bool)
    requires change.Valid() && !change.CreateBridge? && Applicable(change, base) && HostOk(base, exclusive)
    requires Near(base, now, change.Names()) && i < |change.Names()|
    requires Rewritten(base, start, now, change, i, exclusive)
    ensures change.Names()[i] in base
    ensures Blocked(now, change.Names()[i], base[change.Names()[i]].routes, exclusive) == if i == 0
            then Lost(base, start, change, exclusive) else {}
  {
    var name := change.Names()[i];
    assert name in change.Names();
    assert change.bridge in base && change.bridge == change.Names()[0];
    forall r | r in base[name].routes && HeldElsewhere(now, name, r, exclusive)
      ensures i == 0 && r in Lost(base, start, change, exclusive)
    {
      var holder :| holder in now && holder != name && r in now[holder].routes;
      HolderIsNamed(base, now, change.Names(), name, holder, r, exclusive);
      assert holder == change.Names()[1 - i];
    }
    if i == 0 {
      forall r | r in Lost(base, start, change, exclusive)
        ensures HeldElsewhere(now, name, r, exclusive)
      {
        assert change.interface in change.Names();
      }
    }
  }

  lemma RecreatableStep(base: Links, start: Links, before: Links, names: seq<string>, i: nat)
    requires i < |names| && Recreatable(base, start, names[..i]) && Present(base, start, before, names[..i])
    requires names[i] !in names[..i] && names[i] in base
    ensures if names[i] in before || base[names[i]].isBridge then Recreatable(base, start, names[..i + 1])
            else !Recreatable(base, start, names)
  {
  }

  lemma AllThere(base: Links, now: Links, names: seq<string>)
    requires Near(base, now, names) && forall n :: n in names ==> n in now
    ensures forall n :: n in base ==> n in now
  {
  }

  lemma PresentStep(base: Links, start: Links, before: Links, after: Links, names: seq<string>, i: nat)
    requires i < |names| && Present(base, start, before, names[..i]) && before - {names[i]} == after - {names[i]}
    requires names[i] in after && names[i] in base && after[names[i]].mtu == base[names[i]].mtu
    requires after[names[i]].routes == if names[i] in before then before[names[i]].routes else {}
    ensures Present(base, start, after, names[..i + 1])
  {
    OthersKept(before, after, names[i]);
    assert names[..i + 1] == names[..i] + [names[i]];
  }

  lemma NearKept(base: Links, before: Links, after: Links, name: string, names: seq<string>)
    requires Near(base, before, names) && name in names && before - {name} == after - {name}
    requires name in after && name in base ==> after[name].isBridge == base[name].isBridge
    ensures Near(base, after, names)
  {
    OthersKept(before, after, name);
  }

  lemma AttachedIsChanged(before: Links, attached: Links, after: Links, bridge: string, interface: string,
                          migrate: bool)
    requires bridge in before && interface in before
    requires attached == before[interface := before[interface].(master := bridge)]
    requires after == if migrate then Moved(attached, interface, bridge) else attached
    ensures after == Changed(before, AttachInterface(bridge, interface, migrate))
  {
  }

  lemma DetachedIsChanged(before: Links, moved: Links, after: Links, bridge: string, interface: string, migrate: bool)
    requires bridge in before && interface in before
    requires moved == if migrate then Moved(before, bridge, interface) else before
    requires after == moved[interface := moved[interface].(master := "")]
    ensures after == Changed(before, DetachInterface(bridge, interface, migrate))
  {
  }

  lemma MovedIsNear(base: Links, before: Links, after: Links, source: string, target: string, names: seq<string>)
    requires source in before && target in before && source in names && target in names
    requires Near(base, before, names) && MovedPartly(before, after, source, target)
    ensures Near(base, after, names)
  {
  }

  lemma OthersKept(before: Links, after: Links, name: string)
    requires before - {name} == after - {name}
    ensures forall n :: n != name ==> (n in after <==> n in before) && (n in before ==> after[n] == before[n])
  {
    forall n | n != name
      ensures n in after <==> n in before
      ensures n in before ==> after[n] == before[n]
    {
      assert n in after <==> n in after - {name};
      assert n in before <==> n in before - {name};
    }
  }

  lemma SameBlocked(before: Links, after: Links, name: string, routes: set<Route>, exclusive: bool)
    requires before - {name} == after - {name}
    ensures Blocked(before, name, routes, exclusive) == Blocked(after, name, routes, exclusive)
  {
    OthersKept(before, after, name);
    forall r
      ensures HeldElsewhere(before, name, r, exclusive) == HeldElsewhere(after, name, r, exclusive)
    {
    }
  }

  function RoutesAt(links: Links, name: string): set<Route> {
    if name in links then links[name].routes else {}
  }

  /** Every route of a link was there before or is one of the base. */
  ghost predicate RoutesFrom(base: Links, before: Links, now: Links) {
    forall n :: RoutesAt(now, n) <= RoutesAt(before, n) + RoutesAt(base, n)
  }

  /** Nothing went, and no route came from elsewhere. */
  ghost predicate Grown(base: Links, before: Links, now: Links) {
    before.Keys <= now.Keys && RoutesFrom(base, before, now)
  }

  lemma GrownStep(base: Links, start: Links, before: Links, after: Links, name: string)
    requires Grown(base, start, before) && before - {name} == after - {name} && (name in before ==> name in after)
    requires RoutesAt(after, name) <= RoutesAt(before, name) + RoutesAt(base, name)
    ensures Grown(base, start, after)
  {
    OthersKept(before, after, name);
    forall n
      ensures RoutesAt(after, n) <= RoutesAt(start, n) + RoutesAt(base, n)
    {
      assert RoutesAt(before, n) <= RoutesAt(start, n) + RoutesAt(base, n);
      assert n != name ==> RoutesAt(after, n) == RoutesAt(before, n);
    }
  }

  /** How far the first loop has come. */
  ghost predicate RecreatedSoFar(base: Links, start: Links, now: Links, names: seq<string>, i: nat)
    requires i <= |names|
  {
    Present(base, start, now, names[..i]) && Recreatable(base, start, names[..i]) && Grown(base, start, now)
  }

  lemma NothingRecreated(base: Links, start: Links, names: seq<string>)
    ensures RecreatedSoFar(base, start, start, names, 0)
  {
  }

  lemma RecreateStep(base: Links, start: Links, before: Links, after: Links, names: seq<string>, i: nat, ok: bool)
    requires i < |names| && names[i] !in names[..i] && names[i] in base
    requires RecreatedSoFar(base, start, before, names, i) && before - {names[i]} == after - {names[i]}
    requires names[i] in before ==> names[i] in after && after[names[i]].routes == before[names[i]].routes
    requires names[i] !in before && names[i] in after ==> base[names[i]].isBridge && after[names[i]].routes == {}
    requires ok ==> names[i] in after && after[names[i]].mtu == base[names[i]].mtu
    ensures Grown(base, start, after)
    ensures ok ==> RecreatedSoFar(base, start, after, names, i + 1)
    ensures names[i] !in before && !base[names[i]].isBridge ==> !Recreatable(base, start, names)
  {
    GrownStep(base, start, before, after, names[i]);
    RecreatableStep(base, start, before, names, i);
    if ok {
      PresentStep(base, start, before, after, names, i);
    }
  }

  /** So no further route can be lost. */
  lemma RoutesFromBoth(base: Links, start: Links, middle: Links, now: Links, change: Change, exclusive: bool)
    requires change.Valid() && HostOk(base, exclusive) && Applicable(change, base) && !change.CreateBridge?
    requires Grown(base, start, middle) && Grown(base, middle, now)
    ensures Lost(base, now, change, exclusive) <= Lost(base, start, change, exclusive)
  {
    if change.AttachInterface? || change.DetachInterface? {
      var i := change.interface;
      assert change.bridge in change.Names() && i in change.Names();
      assert RoutesAt(now, i) <= RoutesAt(middle, i) + RoutesAt(base, i);
      assert RoutesAt(middle, i) <= RoutesAt(start, i) + RoutesAt(base, i);
    }
  }

  /** Recreating what is missing does not change what is lost. */
  lemma SameLoss(base: Links, before: Links, present: Links, change: Change, exclusive: bool)
    requires change.Valid() && Applicable(change, base) && !change.CreateBridge?
    requires Present(base, before, present, change.Names())
    ensures Lost(base, before, change, exclusive) == Lost(base, present, change, exclusive)
  {
  }

  /**
   * A change that took full effect is taken back completely, unless it moved
   * routes off a bridge in an exclusive routing table: then all of the
   * bridge's routes are lost, because the interface still holds them when the
   * bridge is restored, before the interface.
   */
  lemma RollbackIsInverse(base: Links, change: Change, exclusive: bool)
    requires change.Valid() && Applicable(change, base) && HostOk(base, exclusive)
    ensures RolledBack(base, Changed(base, change), change, exclusive) == base
       <==> !(exclusive && change.DetachInterface? && change.migrate && base[change.bridge].routes != {})
  {
    assert change.bridge in change.Names();
    if change.AttachInterface? || change.DetachInterface? {
      assert change.interface in change.Names();
    }
    if !change.CreateBridge? {
      var lost := Lost(base, Changed(base, change), change, exclusive);
      var saved := base[change.bridge];
      var left := RolledBack(base, Changed(base, change), change, exclusive);
      assert left[change.bridge].routes == saved.routes - lost;
      if exclusive && change.DetachInterface? && change.migrate {
        assert lost == saved.routes;
        assert left[change.bridge].routes == {};
        assert saved.routes == {} ==> left == base;
      } else {
        assert lost == {};
        assert saved.routes - lost == saved.routes;
      }
    }
  }
}
