/**
 * What the VM manager keeps true of its definitions whenever its lock is
 * free (internal/vm/vm.go): the identities of listed and reserved machines,
 * the machines that an unlocked operation holds still, and the network
 * services they use.
 */
module VmState {
  import opened Faults
  import opened Text
  import opened VirtualMachines
  import D = Dhcp

  /**
   * An operation that has released the lock: Create, Clone and AddDisk keep
   * the definitions they will commit.
   */
  datatype Task =
    | Creating(vm: VirtualMachine)
    | Cloning(source: VirtualMachine, clone: VirtualMachine)
    | AddingDisk(before: VirtualMachine, disk: Disk)
  {
    /** The machine this operation marked busy. */
    function Holds(): Option<VirtualMachine> {
      match this
      case Creating(_) => None
      case Cloning(source, _) => Some(source)
      case AddingDisk(before, _) => Some(before)
    }

    /** The definition it reserved. */
    function Reserves(): Option<VirtualMachine> {
      match this
      case Creating(vm) => Some(vm)
      case Cloning(_, clone) => Some(clone)
      case AddingDisk(_, _) => None
    }
  }

  datatype State = State(vms: seq<VirtualMachine>, creating: map<string, VirtualMachine>, busy: map<string, string>,
                         tasks: set<Task>)

  // ---- identities

  ghost predicate MacsApart(v: VirtualMachine, w: VirtualMachine) {
    forall i, j :: 0 <= i < |v.nics| && 0 <= j < |w.nics| ==> !EqualFold(v.nics[i].mac, w.nics[j].mac)
  }

  ghost predicate Apart(v: VirtualMachine, w: VirtualMachine) {
    v.id != w.id && !EqualFold(v.name, w.name) && MacsApart(v, w)
  }

  ghost predicate Sound(v: VirtualMachine) {
    && v.id != ""
    && (forall i, j :: 0 <= i < j < |v.nics| ==> !EqualFold(v.nics[i].mac, v.nics[j].mac))
    && (!v.IsActive() ==> v.pid == 0)
  }

  /** Names and MAC addresses are pairwise distinct over listed and reserved machines together. */
  ghost predicate Identities(vms: seq<VirtualMachine>, creating: map<string, VirtualMachine>) {
    && (forall i :: 0 <= i < |vms| ==> Sound(vms[i]))
    && (forall i, j :: 0 <= i < |vms| && 0 <= j < |vms| && i != j ==> Apart(vms[i], vms[j]))
    && (forall id :: id in creating ==> creating[id].id == id && Sound(creating[id]) && creating[id].status == Stopped)
    && (forall i, id :: 0 <= i < |vms| && id in creating ==> Apart(vms[i], creating[id]))
    && (forall a, b :: a in creating && b in creating && a != b ==> Apart(creating[a], creating[b]))
  }

  /** v may stand beside every other definition. */
  ghost predicate ApartFromAll(v: VirtualMachine, vms: seq<VirtualMachine>, creating: map<string, VirtualMachine>) {
    && (forall i :: 0 <= i < |vms| && vms[i].id != v.id ==> Apart(vms[i], v))
    && (forall id :: id in creating && id != v.id ==> Apart(creating[id], v))
  }

  // ---- unlocked operations

  /** The machine is listed and inactive, with the disks and interfaces it had. */
  ghost predicate Frozen(vms: seq<VirtualMachine>, before: VirtualMachine) {
    exists i :: 0 <= i < |vms| && Still(vms[i], before)
  }

  predicate Still(now: VirtualMachine, before: VirtualMachine) {
    now.id == before.id && !now.IsActive() && now.disks == before.disks && now.nics == before.nics
  }

  /** Disk by disk the same size and image. */
  ghost predicate DisksMatch(copy: seq<Disk>, original: seq<Disk>) {
    && |copy| == |original|
    && forall i :: 0 <= i < |copy| ==>
       copy[i].sizeGiB == original[i].sizeGiB && copy[i].sourceImage == original[i].sourceImage
  }

  ghost predicate TaskOk(s: State, t: Task) {
    && (t.Holds().Some? ==> t.Holds().value.id in s.busy && Frozen(s.vms, t.Holds().value))
    && (t.Reserves().Some? ==>
        t.Reserves().value.id in s.creating && s.creating[t.Reserves().value.id] == t.Reserves().value)
    && (t.Cloning? ==> DisksMatch(t.clone.disks, t.source.disks))
  }

  /** Every mark belongs to exactly one unlocked operation. */
  ghost predicate TasksOk(s: State) {
    && (forall t :: t in s.tasks ==> TaskOk(s, t))
    && (forall t, u :: t in s.tasks && u in s.tasks && t != u ==> Unrelated(t, u))
    && MarksOwned(s)
  }

  ghost predicate MarksOwned(s: State) {
    && (forall id :: id in s.busy ==> Held(s.tasks, id))
    && (forall id :: id in s.creating ==> ReservedBy(s.tasks, id))
  }

  ghost predicate Held(tasks: set<Task>, id: string) {
    exists t :: t in tasks && HoldsId(t, id)
  }

  ghost predicate ReservedBy(tasks: set<Task>, id: string) {
    exists t :: t in tasks && ReservesId(t, id)
  }

  predicate HoldsId(t: Task, id: string) {
    t.Holds().Some? && t.Holds().value.id == id
  }

  predicate ReservesId(t: Task, id: string) {
    t.Reserves().Some? && t.Reserves().value.id == id
  }

  ghost predicate Unrelated(t: Task, u: Task) {
    && (t.Holds().Some? ==> !HoldsId(u, t.Holds().value.id))
    && (t.Reserves().Some? ==> !ReservesId(u, t.Reserves().value.id))
  }

  ghost predicate Ok(s: State) {
    Identities(s.vms, s.creating) && TasksOk(s)
  }

  // ---- network services

  /** A user of a bridge is an active machine with an interface there, as it was prepared. */
  ghost predicate UserOk(vms: seq<VirtualMachine>, bridge: string, id: string, prepared: VirtualMachine) {
    exists i :: 0 <= i < |vms| && Serves(vms[i], bridge, id, prepared)
  }

  predicate Serves(now: VirtualMachine, bridge: string, id: string, prepared: VirtualMachine) {
    now.id == id && now.IsActive() && now.nics == prepared.nics && now.UsesBridge(bridge)
  }

  ghost predicate UsersOk(vms: seq<VirtualMachine>, runtimes: D.Runtimes) {
    forall b, id :: id in D.Attached(runtimes, b) ==> UserOk(vms, b, id, D.Attached(runtimes, b)[id])
  }

  // ---- one definition changes in place

  lemma ReplaceKeepsIdentities(s: State, index: nat, v: VirtualMachine)
    requires Identities(s.vms, s.creating) && index < |s.vms| && v.id == s.vms[index].id
    requires Sound(v) && ApartFromAll(v, s.vms, s.creating)
    ensures Identities(s.vms[index := v], s.creating)
  {
  }

  lemma ReplaceKeepsTasks(s: State, index: nat, v: VirtualMachine)
    requires Ok(s) && index < |s.vms| && v.id == s.vms[index].id
    requires v.id in s.busy ==> !v.IsActive() && v.disks == s.vms[index].disks && v.nics == s.vms[index].nics
    ensures TasksOk(s.(vms := s.vms[index := v]))
  {
    var after := s.(vms := s.vms[index := v]);
    forall t | t in s.tasks
      ensures TaskOk(after, t)
    {
      assert TaskOk(s, t);
      if t.Holds().Some? {
        var before := t.Holds().value;
        var i :| 0 <= i < |s.vms| && Still(s.vms[i], before);
        assert i != index ==> Apart(s.vms[i], s.vms[index]);
        assert Still(after.vms[i], before);
      }
    }
  }

  lemma ReplaceKeepsUsers(s: State, index: nat, v: VirtualMachine, runtimes: D.Runtimes)
    requires Identities(s.vms, s.creating) && UsersOk(s.vms, runtimes)
    requires index < |s.vms| && v.id == s.vms[index].id
    requires forall b :: v.id in D.Attached(runtimes, b) ==> v.IsActive() && v.nics == s.vms[index].nics
    ensures UsersOk(s.vms[index := v], runtimes)
  {
    var vms := s.vms[index := v];
    forall b, id | id in D.Attached(runtimes, b)
      ensures UserOk(vms, b, id, D.Attached(runtimes, b)[id])
    {
      assert UserOk(s.vms, b, id, D.Attached(runtimes, b)[id]);
      var i :| 0 <= i < |s.vms| && Serves(s.vms[i], b, id, D.Attached(runtimes, b)[id]);
      assert i != index ==> Apart(s.vms[i], s.vms[index]);
      assert Serves(vms[i], b, id, D.Attached(runtimes, b)[id]);
    }
  }

  /** An inactive machine uses no bridge. */
  lemma InactiveIsNoUser(s: State, index: nat, runtimes: D.Runtimes)
    requires Identities(s.vms, s.creating) && UsersOk(s.vms, runtimes)
    requires index < |s.vms| && !s.vms[index].IsActive()
    ensures forall b :: s.vms[index].id !in D.Attached(runtimes, b)
  {
  }

  /** A machine changes only its status: nothing its identity or its bridges depend on moves. */
  lemma SameDefinitionIsApart(s: State, index: nat, v: VirtualMachine)
    requires Identities(s.vms, s.creating) && index < |s.vms|
    requires v.id == s.vms[index].id && v.name == s.vms[index].name && v.nics == s.vms[index].nics
    ensures ApartFromAll(v, s.vms, s.creating)
  {
  }

  // ---- a definition comes or goes

  lemma AppendKeepsUsers(vms: seq<VirtualMachine>, v: VirtualMachine, runtimes: D.Runtimes)
    requires UsersOk(vms, runtimes)
    ensures UsersOk(vms + [v], runtimes)
  {
    forall b, id | id in D.Attached(runtimes, b)
      ensures UserOk(vms + [v], b, id, D.Attached(runtimes, b)[id])
    {
      assert UserOk(vms, b, id, D.Attached(runtimes, b)[id]);
      var i :| 0 <= i < |vms| && Serves(vms[i], b, id, D.Attached(runtimes, b)[id]);
      assert Serves((vms + [v])[i], b, id, D.Attached(runtimes, b)[id]);
    }
  }

  lemma RemoveKeepsUsers(s: State, index: nat, runtimes: D.Runtimes)
    requires Identities(s.vms, s.creating) && UsersOk(s.vms, runtimes)
    requires index < |s.vms| && !s.vms[index].IsActive()
    ensures UsersOk(s.vms[..index] + s.vms[index + 1..], runtimes)
  {
    InactiveIsNoUser(s, index, runtimes);
    forall b, id | id in D.Attached(runtimes, b)
      ensures UserOk(s.vms[..index] + s.vms[index + 1..], b, id, D.Attached(runtimes, b)[id])
    {
      assert UserOk(s.vms, b, id, D.Attached(runtimes, b)[id]);
      RemoveKeepsUser(s.vms, index, b, id, D.Attached(runtimes, b)[id]);
    }
  }

  lemma RemoveKeepsUser(vms: seq<VirtualMachine>, index: nat, bridge: string, id: string, prepared: VirtualMachine)
    requires index < |vms| && vms[index].id != id && UserOk(vms, bridge, id, prepared)
    ensures UserOk(vms[..index] + vms[index + 1..], bridge, id, prepared)
  {
    var i :| 0 <= i < |vms| && Serves(vms[i], bridge, id, prepared);
    assert Serves((vms[..index] + vms[index + 1..])[if i < index then i else i - 1], bridge, id, prepared);
  }

  lemma RemoveKeepsIdentities(vms: seq<VirtualMachine>, creating: map<string, VirtualMachine>, index: nat)
    requires Identities(vms, creating) && index < |vms|
    ensures Identities(vms[..index] + vms[index + 1..], creating)
  {
  }

  lemma RemoveKeepsTasks(s: State, index: nat)
    requires Ok(s) && index < |s.vms| && s.vms[index].id !in s.busy
    ensures TasksOk(s.(vms := s.vms[..index] + s.vms[index + 1..]))
  {
    var after := s.(vms := s.vms[..index] + s.vms[index + 1..]);
    forall t | t in s.tasks
      ensures TaskOk(after, t)
    {
      assert TaskOk(s, t);
      if t.Holds().Some? {
        RemoveKeepsFrozen(s.vms, index, t.Holds().value);
      }
    }
  }

  lemma RemoveKeepsFrozen(vms: seq<VirtualMachine>, index: nat, before: VirtualMachine)
    requires index < |vms| && vms[index].id != before.id && Frozen(vms, before)
    ensures Frozen(vms[..index] + vms[index + 1..], before)
  {
    var i :| 0 <= i < |vms| && Still(vms[i], before);
    assert Still((vms[..index] + vms[index + 1..])[if i < index then i else i - 1], before);
  }

  /** Create and Clone reserve a definition (vm.go:564, 641, 741). */
  function Reserved(s: State, t: Task, reason: string): State
    requires t.Reserves().Some?
  {
    State(s.vms, s.creating[t.Reserves().value.id := t.Reserves().value],
          if t.Holds().Some? then s.busy[t.Holds().value.id := reason] else s.busy, s.tasks + {t})
  }

  lemma ReserveKeepsOk(s: State, t: Task, reason: string)
    requires Ok(s) && t.Reserves().Some? && CanJoin(s, t.Reserves().value)
    requires t.Holds().Some? ==> t.Holds().value.id !in s.busy && Frozen(s.vms, t.Holds().value)
    requires t.Cloning? ==> DisksMatch(t.clone.disks, t.source.disks)
    ensures Ok(Reserved(s, t, reason))
  {
    ReserveKeepsIdentities(s, t.Reserves().value);
    NewTaskKeepsTasks(s, Reserved(s, t, reason), t);
  }

  /** A new operation joins: it owns its marks, and nobody else's. */
  lemma NewTaskKeepsTasks(s: State, after: State, t: Task)
    requires TasksOk(s) && TaskOk(after, t) && after.vms == s.vms && after.tasks == s.tasks + {t}
    requires t.Holds().Some? ==> t.Holds().value.id !in s.busy
    requires t.Reserves().Some? ==> t.Reserves().value.id !in s.creating
    requires forall id :: id in s.busy ==> id in after.busy
    requires forall id :: id in after.busy ==> id in s.busy || HoldsId(t, id)
    requires forall id :: id in s.creating ==> id in after.creating && after.creating[id] == s.creating[id]
    requires forall id :: id in after.creating ==> id in s.creating || ReservesId(t, id)
    ensures TasksOk(after)
  {
  }

  lemma ReserveKeepsIdentities(s: State, v: VirtualMachine)
    requires Identities(s.vms, s.creating) && v.id !in s.creating
    requires Sound(v) && v.status == Stopped && ApartFromAll(v, s.vms, s.creating)
    requires forall i :: 0 <= i < |s.vms| ==> s.vms[i].id != v.id
    ensures Identities(s.vms, s.creating[v.id := v])
  {
  }

  /** AddDisk marks its machine (vm.go:1274). */
  function Marked(s: State, t: Task, reason: string): State
    requires t.AddingDisk?
  {
    s.(busy := s.busy[t.before.id := reason], tasks := s.tasks + {t})
  }

  lemma MarkKeepsOk(s: State, t: Task, reason: string)
    requires Ok(s) && t.AddingDisk? && t.before.id !in s.busy && Frozen(s.vms, t.before)
    ensures Ok(Marked(s, t, reason))
  {
  }

  /** An operation takes the lock again and drops its own marks (vm.go:505, 677-678, 1281). */
  function Ended(s: State, t: Task): State {
    State(s.vms,
          if t.Reserves().Some? then s.creating - {t.Reserves().value.id} else s.creating,
          if t.Holds().Some? then s.busy - {t.Holds().value.id} else s.busy, s.tasks - {t})
  }

  /** The definition may be listed, or reserved. */
  ghost predicate CanJoin(s: State, v: VirtualMachine) {
    && Sound(v) && v.status == Stopped && ApartFromAll(v, s.vms, s.creating)
    && v.id !in s.creating && forall i :: 0 <= i < |s.vms| ==> s.vms[i].id != v.id
  }

  lemma EndKeepsOk(s: State, t: Task)
    requires Ok(s) && t in s.tasks
    ensures Ok(Ended(s, t))
  {
    var after := Ended(s, t);
    assert TaskOk(s, t);
    forall u | u in after.tasks
      ensures TaskOk(after, u)
    {
      OtherTaskRemains(s, t, u);
    }
    OthersOwn(s, after, t);
  }

  /** What an operation reserved may be listed when the operation ends. */
  lemma EndedCanJoin(s: State, t: Task)
    requires Ok(s) && t in s.tasks && t.Reserves().Some?
    ensures CanJoin(Ended(s, t), t.Reserves().value)
  {
    assert TaskOk(s, t);
    EndedReservation(s, t.Reserves().value);
  }

  lemma OtherTaskRemains(s: State, t: Task, u: Task)
    requires TaskOk(s, u) && Unrelated(t, u)
    ensures TaskOk(Ended(s, t), u)
  {
  }

  lemma OthersOwn(s: State, after: State, t: Task)
    requires MarksOwned(s) && after.tasks == s.tasks - {t}
    requires forall id :: id in after.busy ==> id in s.busy && !HoldsId(t, id)
    requires forall id :: id in after.creating ==> id in s.creating && !ReservesId(t, id)
    ensures MarksOwned(after)
  {
  }

  lemma EndedReservation(s: State, v: VirtualMachine)
    requires Identities(s.vms, s.creating) && v.id in s.creating && s.creating[v.id] == v
    ensures Sound(v) && v.status == Stopped && ApartFromAll(v, s.vms, s.creating - {v.id})
    ensures forall i :: 0 <= i < |s.vms| ==> s.vms[i].id != v.id
  {
  }

  lemma AppendKeepsOk(s: State, v: VirtualMachine)
    requires Ok(s) && Sound(v) && ApartFromAll(v, s.vms, s.creating)
    requires v.id !in s.creating && forall i :: 0 <= i < |s.vms| ==> s.vms[i].id != v.id
    ensures Ok(s.(vms := s.vms + [v]))
  {
    var after := s.(vms := s.vms + [v]);
    AppendKeepsIdentities(s, v);
    forall t | t in s.tasks
      ensures TaskOk(after, t)
    {
      assert TaskOk(s, t);
      if t.Holds().Some? {
        var i :| 0 <= i < |s.vms| && Still(s.vms[i], t.Holds().value);
        assert Still(after.vms[i], t.Holds().value);
      }
    }
  }

  lemma AppendKeepsIdentities(s: State, v: VirtualMachine)
    requires Identities(s.vms, s.creating) && Sound(v) && ApartFromAll(v, s.vms, s.creating)
    requires v.id !in s.creating && forall i :: 0 <= i < |s.vms| ==> s.vms[i].id != v.id
    ensures Identities(s.vms + [v], s.creating)
  {
  }

  // ---- status changes and the network

  /** What reconciling with the hypervisor may do to one machine. */
  predicate SettledOne(before: VirtualMachine, after: VirtualMachine) {
    after == before || (before.IsActive() && after == before.(status := Stopped, pid := 0))
  }

  ghost predicate Settled(before: seq<VirtualMachine>, after: seq<VirtualMachine>) {
    && |after| == |before|
    && forall i :: 0 <= i < |before| ==> SettledOne(before[i], after[i])
  }

  /** The machine as the hypervisor finds it when every process it is asked about runs. */
  function Found(v: VirtualMachine): VirtualMachine {
    if v.IsActive() && v.pid <= 0 then v.(status := Stopped, pid := 0) else v
  }

  ghost predicate AllFound(before: seq<VirtualMachine>, after: seq<VirtualMachine>) {
    && |after| == |before|
    && forall i :: 0 <= i < |before| ==> after[i] == Found(before[i])
  }

  lemma SettledTwice(before: seq<VirtualMachine>, middle: seq<VirtualMachine>, after: seq<VirtualMachine>)
    requires Settled(before, middle) && Settled(middle, after)
    ensures Settled(before, after)
  {
    forall i | 0 <= i < |before|
      ensures SettledOne(before[i], after[i])
    {
      assert SettledOne(before[i], middle[i]);
    }
  }

  /** One machine was edited; the others were at most settled. */
  ghost predicate EditedAt(before: seq<VirtualMachine>, after: seq<VirtualMachine>, index: nat, id: string) {
    && |after| == |before| && index < |before|
    && before[index].id == id && after[index].id == id
    && forall i :: 0 <= i < |before| && i != index ==> SettledOne(before[i], after[i])
  }

  /** One machine changed at most its status and process; the others were at most settled. */
  ghost predicate StatusChanged(before: seq<VirtualMachine>, after: seq<VirtualMachine>, id: string) {
    exists i: nat ::
      EditedAt(before, after, i, id) && after[i] == before[i].(status := after[i].status, pid := after[i].pid)
  }

  lemma SettledThenStatus(before: seq<VirtualMachine>, settled: seq<VirtualMachine>, after: seq<VirtualMachine>,
                          index: nat)
    requires Settled(before, settled) && index < |settled| && |after| == |settled|
    requires after == settled[index := settled[index].(status := after[index].status, pid := after[index].pid)]
    ensures StatusChanged(before, after, settled[index].id)
  {
    assert EditedAt(before, after, index, settled[index].id);
  }

  /** One inactive machine went away. */
  ghost predicate Deleted(before: seq<VirtualMachine>, after: seq<VirtualMachine>, id: string) {
    exists settled, index: nat :: DeletedAt(before, settled, after, index, id)
  }

  ghost predicate DeletedAt(before: seq<VirtualMachine>, settled: seq<VirtualMachine>, after: seq<VirtualMachine>,
                            index: nat, id: string)
  {
    && Settled(before, settled) && index < |settled| && settled[index].id == id && !settled[index].IsActive()
    && after == settled[..index] + settled[index + 1..]
  }

  /** A machine left the bridges it uses, and nothing else changed. */
  ghost predicate ReleasedFrom(machine: VirtualMachine, before: D.Runtimes, after: D.Runtimes) {
    forall b :: D.Attached(after, b) == D.Attached(before, b) - (if machine.UsesBridge(b) then {machine.id} else {})
  }

  lemma SettledThenEdited(before: seq<VirtualMachine>, middle: seq<VirtualMachine>, index: nat, v: VirtualMachine)
    requires Settled(before, middle) && index < |middle| && v.id == middle[index].id
    ensures EditedAt(before, middle[index := v], index, v.id)
    ensures before[index].name == middle[index].name && before[index].disks == middle[index].disks
            && before[index].nics == middle[index].nics
  {
  }

  /** Releasing a machine's bridges leaves it nowhere, whatever becomes of its definition. */
  lemma ReleasedKeepsUsers(s: State, index: nat, v: VirtualMachine, released: VirtualMachine, before: D.Runtimes,
                           after: D.Runtimes)
    requires Identities(s.vms, s.creating) && UsersOk(s.vms, before)
    requires index < |s.vms| && v.id == s.vms[index].id == released.id && released.nics == s.vms[index].nics
    requires ReleasedFrom(released, before, after)
    ensures UsersOk(s.vms[index := v], after)
    ensures forall b :: v.id !in D.Attached(after, b)
  {
    var vms := s.vms[index := v];
    OtherIds(s, index);
    forall b
      ensures v.id !in D.Attached(after, b)
    {
      if v.id in D.Attached(before, b) {
        assert UserOk(s.vms, b, v.id, D.Attached(before, b)[v.id]);
      }
    }
    forall b, id | id in D.Attached(after, b)
      ensures UserOk(vms, b, id, D.Attached(after, b)[id])
    {
      assert UserOk(s.vms, b, id, D.Attached(before, b)[id]);
      var i :| 0 <= i < |s.vms| && Serves(s.vms[i], b, id, D.Attached(before, b)[id]);
      assert Serves(vms[i], b, id, D.Attached(after, b)[id]);
    }
  }

  lemma OtherIds(s: State, index: nat)
    requires Identities(s.vms, s.creating) && index < |s.vms|
    ensures forall i :: 0 <= i < |s.vms| && i != index ==> s.vms[i].id != s.vms[index].id
  {
  }

  /** A prepared machine that runs serves every bridge it was attached to. */
  lemma StartedKeepsUsers(s: State, index: nat, v: VirtualMachine, before: D.Runtimes, after: D.Runtimes)
    requires Identities(s.vms, s.creating) && UsersOk(s.vms, before)
    requires index < |s.vms| && v.id == s.vms[index].id && v.nics == s.vms[index].nics && v.IsActive()
    requires !s.vms[index].IsActive()
    requires forall b :: D.AttachedBy(s.vms[index], before, after, b)
    ensures UsersOk(s.vms[index := v], after)
  {
    var vms, machine := s.vms[index := v], s.vms[index];
    InactiveIsNoUser(s, index, before);
    OtherIds(s, index);
    forall b, id | id in D.Attached(after, b)
      ensures UserOk(vms, b, id, D.Attached(after, b)[id])
    {
      assert D.AttachedBy(machine, before, after, b);
      if id == machine.id {
        assert Serves(vms[index], b, id, D.Attached(after, b)[id]);
      } else {
        assert UserOk(s.vms, b, id, D.Attached(before, b)[id]);
        var i :| 0 <= i < |s.vms| && Serves(s.vms[i], b, id, D.Attached(before, b)[id]);
        assert Serves(vms[i], b, id, D.Attached(after, b)[id]);
      }
    }
  }

  /** A machine that runs already may come to its bridges, or leave them. */
  lemma ActiveKeepsUsers(vms: seq<VirtualMachine>, index: nat, before: D.Runtimes, after: D.Runtimes)
    requires UsersOk(vms, before) && index < |vms| && vms[index].IsActive()
    requires forall b :: D.AttachedBy(vms[index], before, after, b)
    ensures UsersOk(vms, after)
  {
    var machine := vms[index];
    forall b, id | id in D.Attached(after, b)
      ensures UserOk(vms, b, id, D.Attached(after, b)[id])
    {
      assert D.AttachedBy(machine, before, after, b);
      if id in D.Attached(before, b) && D.Attached(after, b)[id] == D.Attached(before, b)[id] {
        assert UserOk(vms, b, id, D.Attached(before, b)[id]);
      } else {
        assert Serves(vms[index], b, id, machine);
      }
    }
  }

  /** Preparing and releasing again leaves every bridge as it was. */
  lemma PreparedThenReleased(s: State, index: nat, before: D.Runtimes, middle: D.Runtimes, after: D.Runtimes)
    requires Identities(s.vms, s.creating) && UsersOk(s.vms, before)
    requires index < |s.vms| && !s.vms[index].IsActive()
    requires var m := s.vms[index];
             (forall b :: D.AttachedBy(m, before, middle, b)) && ReleasedFrom(m, middle, after)
    ensures D.SameAttachments(before, after)
  {
    var m := s.vms[index];
    InactiveIsNoUser(s, index, before);
    forall b
      ensures D.Attached(after, b) == D.Attached(before, b)
    {
      OnAndOffAgain(m, before, middle, after, b);
    }
  }

  lemma OnAndOffAgain(m: VirtualMachine, before: D.Runtimes, middle: D.Runtimes, after: D.Runtimes, b: string)
    requires D.AttachedBy(m, before, middle, b) && ReleasedFrom(m, middle, after) && m.id !in D.Attached(before, b)
    ensures D.Attached(after, b) == D.Attached(before, b)
  {
  }

  // ---- edits keep machines apart

  lemma RenamedIsApart(s: State, index: nat, v: VirtualMachine)
    requires Identities(s.vms, s.creating) && index < |s.vms|
    requires v == s.vms[index].(name := v.name)
    requires v.name != s.vms[index].name ==>
               && (forall i :: 0 <= i < |s.vms| && s.vms[i].id != v.id ==> !EqualFold(s.vms[i].name, v.name))
               && (forall id :: id in s.creating ==> !EqualFold(s.creating[id].name, v.name))
    ensures ApartFromAll(v, s.vms, s.creating) && Sound(v)
  {
  }

  /** A machine whose MAC addresses are its own earlier ones or free ones stays apart. */
  lemma MacsStayApart(s: State, index: nat, v: VirtualMachine)
    requires Identities(s.vms, s.creating) && index < |s.vms|
    requires v.id == s.vms[index].id && v.name == s.vms[index].name
    requires forall k :: 0 <= k < |v.nics| ==>
               || (exists j :: 0 <= j < |s.vms[index].nics| && EqualFold(s.vms[index].nics[j].mac, v.nics[k].mac))
               || ((forall i :: 0 <= i < |s.vms| ==> !s.vms[i].HasMac(v.nics[k].mac))
                   && (forall id :: id in s.creating ==> !s.creating[id].HasMac(v.nics[k].mac)))
    ensures ApartFromAll(v, s.vms, s.creating)
  {
    forall i | 0 <= i < |s.vms| && s.vms[i].id != v.id
      ensures Apart(s.vms[i], v)
    {
      assert Apart(s.vms[i], s.vms[index]);
    }
    forall id | id in s.creating && id != v.id
      ensures Apart(s.creating[id], v)
    {
      assert Apart(s.vms[index], s.creating[id]);
    }
  }

  lemma NewMacIsApart(s: State, index: nat, v: VirtualMachine, mac: string)
    requires Identities(s.vms, s.creating) && index < |s.vms|
    requires exists nic: Nic :: nic.mac == mac && v == s.vms[index].(nics := s.vms[index].nics + [nic])
    requires forall i :: 0 <= i < |s.vms| ==> !s.vms[i].HasMac(mac)
    requires forall id :: id in s.creating ==> !s.creating[id].HasMac(mac)
    ensures ApartFromAll(v, s.vms, s.creating) && Sound(v)
  {
    var m := s.vms[index];
    forall k | 0 <= k < |m.nics|
      ensures EqualFold(m.nics[k].mac, v.nics[k].mac) && !EqualFold(m.nics[k].mac, mac)
    {
    }
    MacsStayApart(s, index, v);
  }

  lemma UpdatedNicIsApart(s: State, index: nat, at: nat, updated: Nic)
    requires Identities(s.vms, s.creating) && index < |s.vms| && at < |s.vms[index].nics|
    requires || EqualFold(updated.mac, s.vms[index].nics[at].mac)
             || ((forall i :: 0 <= i < |s.vms| ==> !s.vms[i].HasMac(updated.mac))
                 && (forall id :: id in s.creating ==> !s.creating[id].HasMac(updated.mac)))
    ensures var v := s.vms[index].(nics := s.vms[index].nics[at := updated]);
            ApartFromAll(v, s.vms, s.creating) && Sound(v)
  {
  }

  lemma FewerNicsIsApart(s: State, index: nat, at: nat)
    requires Identities(s.vms, s.creating) && index < |s.vms| && at < |s.vms[index].nics|
    ensures var m := s.vms[index];
            var v := m.(nics := m.nics[..at] + m.nics[at + 1..]);
            ApartFromAll(v, s.vms, s.creating) && Sound(v)
  {
    var m := s.vms[index];
    var v := m.(nics := m.nics[..at] + m.nics[at + 1..]);
    forall k | 0 <= k < |v.nics|
      ensures v.nics[k] == m.nics[if k < at then k else k + 1]
      ensures EqualFold(m.nics[if k < at then k else k + 1].mac, v.nics[k].mac)
    {
    }
    MacsStayApart(s, index, v);
  }
}
