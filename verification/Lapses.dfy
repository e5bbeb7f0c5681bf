/**
 * Runs of the network-change transaction that end with the host changed and
 * no record left, one for each way the code has of getting there.
 */
module Lapses {
  import opened Faults
  import opened Netlink
  import opened Provider
  import P = PendingChange

  /** The host differs from what was committed, and no restart will change that. */
  ghost predicate Lapsed(host: P.Host)
    reads host, host.kernel
  {
    host.file.None? && host.kernel.links != host.committed
  }

  method NewManager(fates: seq<Fate>, exclusive: bool, links: Links) returns (manager: P.Manager)
    requires HostOk(links, exclusive)
    ensures fresh(manager) && fresh(manager.host) && fresh(manager.host.provider) && fresh(manager.host.kernel)
            && fresh(manager.host.kernel.script)
    ensures manager.Valid() && manager.host.Intact() && manager.pending.None? && manager.host.issued == {}
    ensures manager.host.committed == manager.host.kernel.links == links && manager.host.kernel.exclusive == exclusive
    ensures manager.host.kernel.script.alive && manager.host.kernel.script.fates == fates
  {
    var script := new Script(fates);
    var kernel := new Kernel(script, exclusive, links);
    var host := new P.Host(kernel);
    manager := new P.Manager(host);
  }

  /** A change that was applied, and from then on every call works. */
  method NewlyApplied(fates: seq<Fate>, exclusive: bool, links: Links, change: Change) returns (manager: P.Manager)
    requires HostOk(links, exclusive) && change.Valid() && Applicable(change, links) && Permitted(change, links)
    requires P.Recordable(links, change, fates) && |fates| <= SnapshotCalls(links, change) + 1
    ensures fresh(manager) && fresh(manager.host) && fresh(manager.host.kernel) && fresh(manager.host.kernel.script)
    ensures manager.Valid() && manager.pending.Some? && manager.pending.value.id == 0
            && manager.pending.value.snapshot.change == change
    ensures manager.host.committed == links && manager.host.base == SnapshotBase(links, change, fates)
    ensures manager.host.kernel.links == Changed(links, change) && manager.host.kernel.exclusive == exclusive
    ensures manager.host.kernel.script.Calm()
  {
    manager := NewManager(fates, exclusive, links);
    var _ := manager.Apply(change, 0, [], false);
  }

  const HALF_CREATED: seq<Fate> := [Works, Works, Works, Works, Fails, Works, Fails, Works]

  lemma HalfCreationLapses()
    ensures P.Recordable(map[], CreateBridge("br0"), HALF_CREATED) && P.CreationLapses(HALF_CREATED, 2)
  {
  }

  /**
   * A bridge is added and cannot be brought up; it is found and cannot be
   * deleted; the record is removed all the same (manager.go:428-435).
   */
  method RecordGoneAfterFailedRollback() returns (manager: P.Manager)
    ensures Lapsed(manager.host) && manager.host.committed == map[]
  {
    HalfCreationLapses();
    manager := NewManager(HALF_CREATED, true, map[]);
    var _ := manager.Apply(CreateBridge("br0"), 0, [], false);
  }

  const LATE_FAILURE: seq<Fate> := [Works, Works, Works, Works, Works, FailsLate, Fails, Works]

  lemma LateFailure()
    ensures var links, change := map["br0" := NEW_BRIDGE.(up := true)], SetBridgeDown("br0");
            && HostOk(links, true) && change.Valid() && Applicable(change, links) && Permitted(change, links)
            && P.Recordable(links, change, LATE_FAILURE) && P.StateLapses(P.Recorded(links, change, LATE_FAILURE))
            && Changed(links, change) != links
  {
    var links, change := map["br0" := NEW_BRIDGE.(up := true)], SetBridgeDown("br0");
    assert SnapshotCalls(links, change) == 2;
    assert Rest(LATE_FAILURE, 3) == [Works, Works, FailsLate, Fails, Works];
    assert Rest(Rest(LATE_FAILURE, 3), 1) == [Works, FailsLate, Fails, Works];
    assert Rest(Rest(Rest(LATE_FAILURE, 3), 1), 1) == [FailsLate, Fails, Works];
    assert Rest(Rest(Rest(Rest(LATE_FAILURE, 3), 1), 1), 1) == [Fails, Works];
    assert Rest(Rest(Rest(Rest(Rest(LATE_FAILURE, 3), 1), 1), 1), 1) == [Works];
    assert Changed(links, change)["br0"] != links["br0"];
  }

  /**
   * The same for a bridge that exists: it goes down, the call reports a
   * failure, and the rollback fails at its first call.
   */
  method RecordGoneWithBridgeDown() returns (manager: P.Manager)
    ensures Lapsed(manager.host) && "br0" in manager.host.committed && manager.host.committed["br0"].up
    ensures "br0" in manager.host.kernel.links && !manager.host.kernel.links["br0"].up
  {
    hide P.LateFailureLapses, P.StateLapses, P.Recordable, P.CreationLapses, HostOk;
    LateFailure();
    manager := NewManager(LATE_FAILURE, true, map["br0" := NEW_BRIDGE.(up := true)]);
    var _ := manager.Apply(SetBridgeDown("br0"), 0, [], false);
  }

  const OVERLOOKED: seq<Fate> := [Works, Works, Works, Works, Works, Fails, Works]

  lemma CreationThenOverlooked()
    ensures P.Recordable(map[], CreateBridge("br0"), OVERLOOKED) && P.CreationWorks(OVERLOOKED, 2)
    ensures Rest(OVERLOOKED, 5) == [Fails, Works] && P.CreationReverted([Fails, Works], true)
  {
  }

  /**
   * A created bridge that cannot be looked up is passed over, and the rollback
   * reports success (provider_linux.go:333-340).
   */
  method BridgeOverlooked() returns (manager: P.Manager, ok: bool)
    ensures ok && Lapsed(manager.host) && manager.host.committed == map[] && "br0" in manager.host.kernel.links
  {
    CreationThenOverlooked();
    manager := NewManager(OVERLOOKED, true, map[]);
    var _ := manager.Apply(CreateBridge("br0"), 0, [], false);
    ok := manager.Revert(0);
  }

  const PORT: Link := Link(false, true, DEFAULT_MTU, "br0", {}, {})

  /** br0 with its one member eth0; `routes` are the bridge's. */
  function Attached(routes: set<Route>): Links {
    map["br0" := NEW_BRIDGE.(up := true, routes := routes), "eth0" := PORT]
  }

  lemma DetachmentOf(routes: set<Route>, migrate: bool, fates: seq<Fate>)
    ensures var links, change := Attached(routes), DetachInterface("br0", "eth0", migrate);
            && HostOk(links, true) && change.Valid() && Applicable(change, links) && Permitted(change, links)
            && AddCalls(links, "br0") == 2 && AddCalls(links, "eth0") == 3
            && SnapshotBase(links, change, fates)
               == (if FateAt(fates, 4) == Works then links else Unmastered(links, "eth0"))
            && Changed(links, change)["eth0"].routes == if migrate then routes else {}
  {
    var links, change := Attached(routes), DetachInterface("br0", "eth0", migrate);
    assert change.Names() == ["br0", "eth0"];
    assert Members(links, "br0") == {"eth0"};
  }

  /**
   * The name of a master cannot be looked up and none is noted: the rollback
   * of a detachment succeeds and leaves the interface detached
   * (provider_linux.go:677-682).
   */
  method MasterForgotten() returns (manager: P.Manager, ok: bool)
    ensures ok && Lapsed(manager.host)
    ensures "eth0" in manager.host.committed && manager.host.committed["eth0"].master == "br0"
    ensures "eth0" in manager.host.kernel.links && manager.host.kernel.links["eth0"].master == ""
  {
    var fates := [Works, Works, Works, Works, Fails, Works];
    DetachmentOf({}, false, fates);
    manager := NewlyApplied(fates, true, Attached({}), DetachInterface("br0", "eth0", false));
    ok := manager.Revert(0);
  }

  /** The routes of a bridge are lost when a migrating detachment is rolled back, with every call working. */
  method RoutesLost(route: Route) returns (manager: P.Manager, ok: bool)
    ensures ok && Lapsed(manager.host)
    ensures "br0" in manager.host.committed && manager.host.committed["br0"].routes == {route}
    ensures "br0" in manager.host.kernel.links && manager.host.kernel.links["br0"].routes == {}
  {
    DetachmentOf({route}, true, []);
    manager := NewlyApplied([], true, Attached({route}), DetachInterface("br0", "eth0", true));
    ok := manager.Revert(0);
  }
}
