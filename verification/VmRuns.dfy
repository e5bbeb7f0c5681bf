/**
 * Whole runs of the VM manager: any interleaving of its critical sections with
 * each other, with DHCP and with restarts.
 */
module VmRuns {
  import opened Faults
  import opened Text
  import opened VirtualMachines
  import opened VmState
  import opened VmManager
  import D = Dhcp

  /** One critical section, with the answers of the outside world it needs. */
  datatype Step =
    | Start(id: string, ready: bool, pid: int, meanwhile: seq<seq<D.Operation>>)
    | Stop(id: string)
    | StopForced(id: string)
    | ForceStopFinish(id: string)
    | EscalateStop(id: string, pid: int)
    | ProcessExited(id: string, pid: int)
    | Reconcile
    | Delete(id: string, files: bool)
    | Rename(id: string, name: string, valid: bool)
    | AddNic(id: string, spec: NicSpec)
    | UpdateNic(id: string, nicId: string, spec: NicSpec)
    | RemoveNic(id: string, nicId: string)
    | RemoveDisk(id: string, diskId: string, staged: bool)
    | CreateBegin(name: string, id: string, disks: seq<Disk>, specs: seq<NicSpec>)
    | CloneBegin(id: string, name: string, valid: bool, cloneId: string, freshDisk: nat -> string,
                 freshNic: nat -> (string, string))
    | AddDiskBegin(id: string, disk: Disk)
    | Finish(which: nat, good: bool)
    | Network(operation: D.Operation)
    | Restart(others: seq<seq<seq<D.Operation>>>)

  ghost predicate Known(vms: seq<VirtualMachine>, creating: map<string, VirtualMachine>, v: VirtualMachine) {
    v in vms || exists id :: id in creating && creating[id] == v
  }

  /** Names are distinct ignoring case, and MAC addresses are distinct, over listed and reserved machines together. */
  lemma NamesAndMacsDistinct(vms: seq<VirtualMachine>, creating: map<string, VirtualMachine>, v: VirtualMachine,
                             w: VirtualMachine, i: nat, j: nat)
    requires Identities(vms, creating) && Known(vms, creating, v) && Known(vms, creating, w)
    ensures v != w ==> v.id != w.id && !EqualFold(v.name, w.name)
    ensures i < |v.nics| && j < |w.nics| && (v != w || i != j) ==> !EqualFold(v.nics[i].mac, w.nics[j].mac)
  {
    if v != w {
      DifferentIsApart(vms, creating, v, w);
    } else if i < j < |v.nics| {
      assert Sound(v);
    } else if j < i < |v.nics| {
      assert Sound(v);
      assert !EqualFold(v.nics[j].mac, v.nics[i].mac);
    }
  }

  lemma DifferentIsApart(vms: seq<VirtualMachine>, creating: map<string, VirtualMachine>, v: VirtualMachine,
                         w: VirtualMachine)
    requires Identities(vms, creating) && Known(vms, creating, v) && Known(vms, creating, w) && v != w
    ensures Apart(v, w)
  {
    if v in vms {
      var i :| 0 <= i < |vms| && vms[i] == v;
      if w in vms {
        var j :| 0 <= j < |vms| && vms[j] == w;
        assert Apart(vms[i], vms[j]);
      } else {
        var id :| id in creating && creating[id] == w;
        assert Apart(vms[i], creating[id]);
      }
    } else {
      var id :| id in creating && creating[id] == v;
      if w in vms {
        var j :| 0 <= j < |vms| && vms[j] == w;
        assert Apart(vms[j], creating[id]);
      } else {
        var other :| other in creating && creating[other] == w;
        assert Apart(creating[id], creating[other]);
      }
    }
  }

  /** The machines that hold a bridge have MAC addresses apart, as Auto DNS needs. */
  lemma AttachedMacsApart(vms: seq<VirtualMachine>, runtimes: D.Runtimes, bridge: string, a: string, b: string, i: nat,
                          j: nat)
    requires Identities(vms, map[]) && UsersOk(vms, runtimes)
    requires a in D.Attached(runtimes, bridge) && b in D.Attached(runtimes, bridge) && a != b
    requires i < |D.Attached(runtimes, bridge)[a].nics| && j < |D.Attached(runtimes, bridge)[b].nics|
    ensures !EqualFold(D.Attached(runtimes, bridge)[a].nics[i].mac, D.Attached(runtimes, bridge)[b].nics[j].mac)
  {
    assert UserOk(vms, bridge, a, D.Attached(runtimes, bridge)[a]);
    assert UserOk(vms, bridge, b, D.Attached(runtimes, bridge)[b]);
    var k :| 0 <= k < |vms| && Serves(vms[k], bridge, a, D.Attached(runtimes, bridge)[a]);
    var l :| 0 <= l < |vms| && Serves(vms[l], bridge, b, D.Attached(runtimes, bridge)[b]);
    assert Apart(vms[k], vms[l]);
  }

  /** `running` lists the operations in flight. */
  ghost predicate Listed(running: seq<Task>, tasks: set<Task>) {
    && (forall t :: t in running <==> t in tasks)
    && (forall i, j :: 0 <= i < j < |running| ==> running[i] != running[j])
  }

  lemma StillListed(running: seq<Task>, which: nat, tasks: set<Task>)
    requires Listed(running, tasks) && which < |running|
    ensures Listed(running[..which] + running[which + 1..], tasks - {running[which]})
  {
    var left := running[..which] + running[which + 1..];
    forall t
      ensures t in left <==> t in tasks - {running[which]}
    {
      if t in tasks && t != running[which] {
        var i :| 0 <= i < |running| && running[i] == t;
        assert left[if i < which then i else i - 1] == t;
      }
    }
  }

  /** The operation at one place of the list goes on where it had unlocked. */
  method FinishTask(m: Manager, running: seq<Task>, which: nat, good: bool) returns (left: seq<Task>)
    requires m.Valid() && Listed(running, m.tasks) && which < |running|
    modifies m`vms, m`creating, m`busy, m`file, m`tasks, m.script
    ensures m.Valid() && Listed(left, m.tasks)
  {
    var task := running[which];
    left := running[..which] + running[which + 1..];
    StillListed(running, which, m.tasks);
    match task {
      case Creating(_) => var _ := m.CreateFinish(task, good);
      case Cloning(_, _) => var _ := m.CloneFinish(task, good);
      case AddingDisk(_, _) => var _ := m.AddDiskFinish(task, good);
    }
  }

  /** A new operation joins those in flight. */
  function Joined(running: seq<Task>, task: Option<Task>): seq<Task> {
    if task.Some? && task.value !in running then running + [task.value] else running
  }

  method Unused(m: Manager, id: string) returns (unused: bool)
    ensures unused ==> m.FreshId(id) && id != ""
  {
    var found := m.IndexById(id);
    unused := found.None? && id !in m.creating && id != "";
  }

  /** The sections that start no unlocked operation. */
  method Perform(m: Manager, step: Step, ghost running: seq<Task>)
    requires m.Valid() && Listed(running, m.tasks)
    modifies m`vms, m`exits, m`nextChannel, m`closed, m`file, m`published
    modifies m.script, m.net, m.net.store, m.net.store.script
    ensures m.Valid() && Listed(running, m.tasks)
  {
    match step {
      case Start(id, ready, pid, meanwhile) => var _ := m.Start(id, ready, pid, meanwhile);
      case Network(operation) => PerformNetwork(m, operation);
      case Delete(_, _) => PerformEdit(m, step);
      case Rename(_, _, _) => PerformEdit(m, step);
      case AddNic(_, _) => PerformEdit(m, step);
      case UpdateNic(_, _, _) => PerformEdit(m, step);
      case RemoveNic(_, _) => PerformEdit(m, step);
      case RemoveDisk(_, _, _) => PerformEdit(m, step);
      case _ => PerformStop(m, step);
    }
  }

  /** DHCP serves a request, or is configured. */
  method PerformNetwork(m: Manager, operation: D.Operation)
    requires m.Valid()
    modifies m.net, m.net.store, m.net.store.script
    ensures m.Valid()
  {
    ghost var before := m.net.runtimes;
    m.net.Perform(operation);
    SameUsers(m.vms, before, m.net.runtimes);
  }

  /** Machines stop, or are found stopped. */
  method PerformStop(m: Manager, step: Step)
    requires m.Valid()
    modifies m`vms, m`exits, m`closed, m`file, m`published, m.script, m.net`runtimes
    ensures m.Valid()
  {
    match step {
      case Stop(id) => var _ := m.Stop(id);
      case StopForced(id) => var _, _ := m.StopForced(id);
      case ForceStopFinish(id) => var _ := m.ForceStopFinish(id);
      case EscalateStop(id, pid) => var _ := m.EscalateStop(id, pid);
      case ProcessExited(id, pid) => m.ProcessExited(id, pid);
      case Reconcile => var _ := m.Reconcile();
      case _ =>
    }
  }

  /** Definitions change or go. */
  method PerformEdit(m: Manager, step: Step)
    requires m.Valid()
    modifies m`vms, m`exits, m`closed, m`file, m.script, m.net`runtimes
    ensures m.Valid()
  {
    match step {
      case Delete(id, files) => var _ := m.Delete(id, files);
      case Rename(id, name, valid) => var _ := m.Rename(id, name, valid);
      case AddNic(id, spec) => var _ := m.AddNic(id, spec);
      case UpdateNic(id, nicId, spec) => var _ := m.UpdateNic(id, nicId, spec);
      case RemoveNic(id, nicId) => var _ := m.RemoveNic(id, nicId);
      case RemoveDisk(id, diskId, staged) => var _ := m.RemoveDisk(id, diskId, staged);
      case _ =>
    }
  }

  /** The sections that start an unlocked operation; random identities never repeat. */
  method Begin(m: Manager, step: Step) returns (task: Option<Task>)
    requires m.Valid() && (step.CreateBegin? || step.CloneBegin? || step.AddDiskBegin?)
    modifies m, m.net`runtimes, m.script
    ensures m.Valid() && m.tasks == old(m.tasks) + if task.Some? then {task.value} else {}
  {
    task := None;
    match step {
      case CreateBegin(name, id, disks, specs) =>
        var unused := Unused(m, id);
        if unused {
          task := m.CreateBegin(name, id, disks, specs);
        }
      case CloneBegin(id, name, valid, cloneId, freshDisk, freshNic) =>
        var unused := Unused(m, cloneId);
        if unused {
          task := m.CloneBegin(id, name, valid, cloneId, freshDisk, freshNic);
        }
      case AddDiskBegin(id, disk) =>
        task := m.AddDiskBegin(id, disk);
    }
  }

  // ---- starting up

  /** Every active machine that Auto DNS can publish uses every managed bridge of its interfaces. */
  ghost predicate AllServed(vms: seq<VirtualMachine>, configs: D.Configs, runtimes: D.Runtimes) {
    forall i :: 0 <= i < |vms| ==> OneServed(vms[i], configs, runtimes)
  }

  ghost predicate OneServed(machine: VirtualMachine, configs: D.Configs, runtimes: D.Runtimes) {
    machine.IsActive() && D.Publishable(configs, machine) ==>
      forall b :: b in configs && machine.UsesBridge(b) ==> machine.id in D.Attached(runtimes, b)
  }

  lemma OthersStayServed(vms: seq<VirtualMachine>, configs: D.Configs, before: D.Runtimes, after: D.Runtimes,
                         index: nat)
    requires Identities(vms, map[]) && index < |vms| && AllServed(vms[..index], configs, before)
    requires forall b :: D.AttachedBy(vms[index], before, after, b)
    ensures AllServed(vms[..index], configs, after)
  {
    forall i | 0 <= i < index
      ensures OneServed(vms[..index][i], configs, after)
    {
      assert OneServed(vms[..index][i], configs, before) && Apart(vms[i], vms[index]);
      forall b | b in configs && vms[i].UsesBridge(b) && vms[i].id in D.Attached(before, b)
        ensures vms[i].id in D.Attached(after, b)
      {
        assert D.AttachedBy(vms[index], before, after, b);
      }
    }
  }

  /** dhcp.go:530-541: the machines that still run come back to their bridges; a failure is reported and passed over. */
  method Restore(m: Manager, meanwhile: seq<seq<seq<D.Operation>>>)
    requires m.Valid() && m.creating == map[]
    modifies m.net, m.net.store, m.net.store.script
    ensures m.Valid()
    ensures meanwhile == [] ==> m.net.configs == old(m.net.configs)
    ensures meanwhile == [] && old(m.net.store.script.Calm()) ==> AllServed(m.vms, m.net.configs, m.net.runtimes)
  {
    for index := 0 to |m.vms|
      invariant m.Valid()
      invariant meanwhile == [] ==> m.net.configs == old(m.net.configs)
      invariant meanwhile == [] && old(m.net.store.script.Calm()) ==>
                  m.net.store.script.Calm() && AllServed(m.vms[..index], m.net.configs, m.net.runtimes)
    {
      RestoreOne(m, index, if index < |meanwhile| then meanwhile[index] else []);
      assert m.vms[..index + 1] == m.vms[..index] + [m.vms[index]];
    }
    assert m.vms[..|m.vms|] == m.vms;
  }

  method RestoreOne(m: Manager, index: nat, meanwhile: seq<seq<D.Operation>>)
    requires m.Valid() && m.creating == map[] && index < |m.vms|
    modifies m.net, m.net.store, m.net.store.script
    ensures m.Valid()
    ensures meanwhile == [] ==> m.net.configs == old(m.net.configs)
    ensures meanwhile == [] && old(m.net.store.script.Calm()) ==>
              && m.net.store.script.Calm() && OneServed(m.vms[index], m.net.configs, m.net.runtimes)
    ensures meanwhile == [] && AllServed(m.vms[..index], old(m.net.configs), old(m.net.runtimes)) ==>
              AllServed(m.vms[..index], m.net.configs, m.net.runtimes)
  {
    if m.vms[index].IsActive() {
      ghost var before := m.net.runtimes;
      var _ := m.net.Prepare(m.vms[index], meanwhile);
      ActiveKeepsUsers(m.vms, index, before, m.net.runtimes);
      if meanwhile == [] && AllServed(m.vms[..index], m.net.configs, before) {
        OthersStayServed(m.vms, m.net.configs, before, m.net.runtimes, index);
      }
    }
  }

  /**
   * vm.go:266-312 and server.go:85-101: the definitions of an earlier run are
   * loaded, reconciled with the hypervisor twice, and the network services of
   * the machines that run are restored.  `file` is what vms.json holds after it.
   */
  method Open(script: Script, store: D.Store, saved: seq<VirtualMachine>, meanwhile: seq<seq<seq<D.Operation>>>)
    returns (started: Option<Manager>, file: seq<VirtualMachine>)
    requires Identities(saved, map[]) && D.StateOk(store.configs, store.leases)
    modifies script, store, store.script
    ensures D.StateOk(store.configs, store.leases)
    ensures Identities(file, map[]) && Settled(saved, file)
    ensures started.Some? ==>
              && fresh(started.value) && fresh(started.value.net) && Ready(started.value, script, store)
              && started.value.tasks == {} && started.value.file == file && Settled(saved, started.value.vms)
    ensures old(script.Calm()) && old(store.script.Calm()) && script != store.script && meanwhile == [] ==>
              && started.Some? && AllFound(saved, started.value.vms)
              && AllServed(started.value.vms, started.value.net.configs, started.value.net.runtimes)
  {
    hide TasksOk, Identities;
    started, file := None, saved;
    var net := D.Open(store);
    if net.None? {
      return;
    }
    var m := new Manager(script, net.value, saved);
    var ok := Settle(m);
    file := m.file;
    if ok {
      Restore(m, meanwhile);
      started := Some(m);
    }
  }

  /** vm.go:303-308 and 340-345: a new manager asks the hypervisor which machines still run. */
  method Settle(m: Manager) returns (ok: bool)
    requires m.Valid() && m.file == m.vms && m.creating == map[]
    modifies m, m.net`runtimes, m.script
    ensures m.Valid() && m.creating == map[] && m.tasks == old(m.tasks)
    ensures Settled(old(m.vms), m.vms) && Settled(old(m.vms), m.file)
    ensures old(m.script.Calm()) ==> m.script.Calm() && ok && AllFound(old(m.vms), m.vms)
  {
    ghost var saved := m.vms;
    ok := m.Reconcile();
    if ok {
      ghost var middle := m.vms;
      ok := m.Reconcile();
      SettledTwice(saved, middle, m.vms);
    }
  }

  /** A running manager over this host. */
  ghost predicate Ready(m: Manager, script: Script, store: D.Store)
    reads m, m.net, m.net.store
  {
    m.Valid() && m.script == script && m.net.store == store
  }

  /**
   * Any run, with calls that fail and restarts: identities, unlocked
   * operations, exit channels, network users and the DHCP state are
   * consistent whenever the lock is free, and the files hold definitions and
   * leases that the next start can use.
   */
  method Run(script: Script, store: D.Store, saved: seq<VirtualMachine>, steps: seq<Step>)
    returns (m: Option<Manager>, running: seq<Task>, file: seq<VirtualMachine>)
    requires Identities(saved, map[]) && D.StateOk(store.configs, store.leases)
    modifies script, store, store.script
    ensures Identities(file, map[]) && D.StateOk(store.configs, store.leases)
    ensures m.Some? ==> Ready(m.value, script, store) && m.value.file == file && Listed(running, m.value.tasks)
  {
    m, file := Open(script, store, saved, []);
    running := [];
    for k := 0 to |steps|
      invariant Identities(file, map[]) && D.StateOk(store.configs, store.leases)
      invariant m.Some? ==>
                  && fresh(m.value) && fresh(m.value.net)
                  && Ready(m.value, script, store) && m.value.file == file && Listed(running, m.value.tasks)
    {
      if steps[k].Restart? {
        script.Restart();
        store.script.Restart();
        m, file := Open(script, store, file, steps[k].others);
        running := [];
      } else if m.Some? && script.alive && store.script.alive {
        running := Take(m.value, steps[k], running);
        file := m.value.file;
      }
    }
  }

  /** One step of a running manager. */
  method Take(m: Manager, step: Step, running: seq<Task>) returns (left: seq<Task>)
    requires m.Valid() && Listed(running, m.tasks) && !step.Restart?
    modifies m, m.script, m.net, m.net.store, m.net.store.script
    ensures m.Valid() && Listed(left, m.tasks)
  {
    left := running;
    if step.Finish? {
      if step.which < |running| {
        left := FinishTask(m, running, step.which, step.good);
      }
    } else if step.CreateBegin? || step.CloneBegin? || step.AddDiskBegin? {
      var task := Begin(m, step);
      left := Joined(running, task);
    } else {
      Perform(m, step, running);
    }
  }
}
