/**
 * The VM manager (internal/vm/vm.go).  Create, Clone, AddDisk and a forced
 * stop release the lock midway; each is a Begin method that runs up to the
 * unlock and a Finish method that runs from the next lock on, so that any
 * other operation may come between.
 */
module VmManager {
  import opened Faults
  import opened Text
  import opened VirtualMachines
  import opened VmState
  import D = Dhcp

  /** An interface to add, with the identity and address generated for it. */
  datatype NicSpec = NicSpec(mode: Mode, bridgeName: string, mac: string, id: string, generated: string) {
    function Build(): Nic {
      Nic(id, mode, bridgeName, if mac == "" then generated else mac)
    }
  }

  /** Channels that announce process exits: the registered one of each machine, and those closed. */
  ghost predicate ChannelsOk(vms: seq<VirtualMachine>, exits: map<string, nat>, published: set<nat>, closed: set<nat>,
                             next: nat)
  {
    && (forall id :: id in exits ==> ListedActive(vms, id) && exits[id] < next && exits[id] !in closed)
    && (forall a, b :: a in exits && b in exits && a != b ==> exits[a] != exits[b])
    && (forall ch :: ch in closed ==> ch < next)
    && (forall ch :: ch in published ==> ch in closed || ch in exits.Values)
  }

  ghost predicate ListedActive(vms: seq<VirtualMachine>, id: string) {
    exists i :: 0 <= i < |vms| && vms[i].id == id && vms[i].IsActive()
  }

  lemma ReplaceKeepsListed(s: State, index: nat, v: VirtualMachine, id: string)
    requires Identities(s.vms, s.creating) && index < |s.vms| && v.id == s.vms[index].id
    requires ListedActive(s.vms, id) && (id == v.id ==> v.IsActive())
    ensures ListedActive(s.vms[index := v], id)
  {
    OtherIds(s, index);
    var i :| 0 <= i < |s.vms| && s.vms[i].id == id && s.vms[i].IsActive();
    assert s.vms[index := v][i].id == id && s.vms[index := v][i].IsActive();
  }

  lemma RemoveKeepsListed(vms: seq<VirtualMachine>, index: nat, id: string)
    requires index < |vms| && vms[index].id != id && ListedActive(vms, id)
    ensures ListedActive(vms[..index] + vms[index + 1..], id)
  {
    var i :| 0 <= i < |vms| && vms[i].id == id && vms[i].IsActive();
    assert (vms[..index] + vms[index + 1..])[if i < index then i else i - 1] == vms[i];
  }

  lemma AppendKeepsListed(vms: seq<VirtualMachine>, v: VirtualMachine, id: string)
    requires ListedActive(vms, id)
    ensures ListedActive(vms + [v], id)
  {
    var i :| 0 <= i < |vms| && vms[i].id == id && vms[i].IsActive();
    assert (vms + [v])[i] == vms[i];
  }

  lemma SameUsers(vms: seq<VirtualMachine>, before: D.Runtimes, after: D.Runtimes)
    requires UsersOk(vms, before) && D.SameAttachments(before, after)
    ensures UsersOk(vms, after)
  {
  }

  lemma ChannelClosed(vms: seq<VirtualMachine>, exits: map<string, nat>, published: set<nat>, closed: set<nat>,
                      next: nat, id: string)
    requires ChannelsOk(vms, exits, published, closed, next)
    ensures id in exits ==> ChannelsOk(vms, exits - {id}, published, closed + {exits[id]}, next)
  {
  }

  class Manager {
    const script: Script
    const net: D.Manager
    var vms: seq<VirtualMachine>
    var creating: map<string, VirtualMachine>
    var busy: map<string, string>
    var exits: map<string, nat>
    var nextChannel: nat
    /** vms.json */
    var file: seq<VirtualMachine>
    /** Operations that are running unlocked. */
    ghost var tasks: set<Task>
    /** Channels some forced stop has waited on, and channels closed. */
    ghost var published: set<nat>
    ghost var closed: set<nat>

    ghost function View(): State
      reads this
    {
      State(vms, creating, busy, tasks)
    }

    /** Holds whenever the lock is free. */
    ghost predicate Valid()
      reads this, net, net.store
    {
      && Core() && UsersOk(vms, net.runtimes)
    }

    /** Everything but the network users, which catch up last in a critical section. */
    ghost predicate Core()
      reads this, net, net.store
    {
      && Ok(View()) && Identities(file, map[]) && net.Valid()
      && ChannelsOk(vms, exits, published, closed, nextChannel)
    }

    /** vm.go:266-312, over definitions that an earlier run saved. */
    constructor (script: Script, net: D.Manager, loaded: seq<VirtualMachine>)
      requires Identities(loaded, map[]) && net.Valid() && net.runtimes == map[]
      ensures Valid() && this.script == script && this.net == net
      ensures vms == file == loaded && creating == map[] && busy == map[] && tasks == {}
    {
      this.script := script;
      this.net := net;
      vms, file := loaded, loaded;
      creating, busy, exits, nextChannel := map[], map[], map[], 0;
      tasks, published, closed := {}, {}, {};
    }

    // ---- lookups

    /** vm.go:1785-1792. */
    method IndexById(id: string) returns (found: Option<nat>)
      ensures found.Some? ==> found.value < |vms| && vms[found.value].id == id
      ensures found.None? ==> forall i :: 0 <= i < |vms| ==> vms[i].id != id
    {
      for i := 0 to |vms|
        invariant forall j :: 0 <= j < i ==> vms[j].id != id
      {
        if vms[i].id == id {
          return Some(i);
        }
      }
      found := None;
    }

    /** vm.go:568-580. */
    method NameInUse(name: string, exclude: string) returns (used: bool)
      ensures used <==> NameTaken(name, exclude)
    {
      for i := 0 to |vms|
        invariant forall j :: 0 <= j < i && vms[j].id != exclude ==> !EqualFold(vms[j].name, name)
      {
        if vms[i].id != exclude && EqualFold(vms[i].name, name) {
          return true;
        }
      }
      var remaining := creating.Keys;
      while remaining != {}
        invariant remaining <= creating.Keys
        invariant forall id :: id in creating && id !in remaining ==> !EqualFold(creating[id].name, name)
        decreases remaining
      {
        var id :| id in remaining;
        remaining := remaining - {id};
        if EqualFold(creating[id].name, name) {
          return true;
        }
      }
      used := false;
    }

    /** vm.go:1212-1224. */
    method MacInUse(mac: string) returns (used: bool)
      ensures used <==> !FreeMac(mac)
    {
      for i := 0 to |vms|
        invariant forall j :: 0 <= j < i ==> !vms[j].HasMac(mac)
      {
        if vms[i].HasMac(mac) {
          return true;
        }
      }
      var remaining := creating.Keys;
      while remaining != {}
        invariant remaining <= creating.Keys
        invariant forall id :: id in creating && id !in remaining ==> !creating[id].HasMac(mac)
        decreases remaining
      {
        var id :| id in remaining;
        remaining := remaining - {id};
        if creating[id].HasMac(mac) {
          return true;
        }
      }
      used := false;
    }

    // ---- state changes and their proofs

    method Save() returns (ok: bool)
      requires Core()
      modifies this`file, script
      ensures Core()
      ensures file == if ok then vms else old(file)
      ensures ok == old(script.Succeeding()) && script.Advanced()
      ensures old(script.Calm()) ==> script.Calm() && ok
    {
      var took;
      took, ok := script.Attempt();
      if ok {
        file := vms;
      }
    }

    /** Assign to one definition. */
    method Assign(index: nat, v: VirtualMachine)
      requires Core() && index < |vms| && v.id == vms[index].id
      requires Sound(v) && ApartFromAll(v, vms, creating)
      requires v.id in busy ==> !v.IsActive() && v.disks == vms[index].disks && v.nics == vms[index].nics
      requires v.id in exits ==> v.IsActive()
      modifies this`vms
      ensures Core() && vms == old(vms)[index := v]
    {
      ReplaceKeepsIdentities(View(), index, v);
      ReplaceKeepsTasks(View(), index, v);
      forall id | id in exits
        ensures ListedActive(vms[index := v], id)
      {
        ReplaceKeepsListed(View(), index, v, id);
      }
      vms := vms[index := v];
    }

    /** Assign a new status and process; name, disks and interfaces stay. */
    method AssignStatus(index: nat, status: Status, pid: int)
      requires Core() && index < |vms|
      requires var v := vms[index].(status := status, pid := pid);
               && (!v.IsActive() ==> pid == 0 && v.id !in exits)
               && (v.IsActive() ==> v.id !in busy)
      modifies this`vms
      ensures Core() && vms == old(vms)[index := old(vms)[index].(status := status, pid := pid)]
    {
      var v := vms[index].(status := status, pid := pid);
      SameDefinitionIsApart(View(), index, v);
      Assign(index, v);
    }

    /** vm.go:945-951: a channel is closed at most once, and forgotten when it is. */
    method SignalExit(id: string)
      requires Core()
      modifies this`exits, this`closed
      ensures Core() && exits == old(exits) - {id}
      ensures closed == old(closed) + (if id in old(exits) then {old(exits)[id]} else {})
      ensures id in old(exits) ==> old(exits)[id] !in old(closed)
    {
      ChannelClosed(vms, exits, published, closed, nextChannel, id);
      if id in exits {
        closed := closed + {exits[id]};
        exits := exits - {id};
      } else {
        assert exits == exits - {id};
      }
    }

    /** The machine stops: status, process, exit channel and bridges, as in processExited and its like. */
    method MarkStopped(index: nat)
      requires Valid() && index < |vms|
      modifies this`vms, this`exits, this`closed, net`runtimes
      ensures Valid() && vms == old(vms)[index := old(vms)[index].(status := Stopped, pid := 0)]
      ensures vms[index].id !in exits
      ensures forall b :: vms[index].id !in D.Attached(net.runtimes, b)
    {
      ghost var before, s := net.runtimes, View();
      var machine := vms[index];
      SignalExit(machine.id);
      AssignStatus(index, Stopped, 0);
      net.Release(machine);
      ReleasedKeepsUsers(s, index, vms[index], machine, before, net.runtimes);
    }

    /** vm.go:1640-1662. */
    method Reconcile() returns (ok: bool)
      requires Valid()
      modifies this`vms, this`exits, this`closed, this`file, net`runtimes, script
      ensures Valid() && Settled(old(vms), vms)
      ensures file == old(file) || file == vms
      ensures old(script.Calm()) ==> script.Calm() && ok && AllFound(old(vms), vms)
    {
      hide TasksOk, Identities, UsersOk, ChannelsOk;
      var changed := Survey();
      ok := true;
      if changed {
        ok := Save();
      }
    }

    /** vm.go:1641-1655: the machines whose process is gone are stopped. */
    method Survey() returns (changed: bool)
      requires Valid()
      modifies this`vms, this`exits, this`closed, net`runtimes, script
      ensures Valid() && Settled(old(vms), vms)
      ensures old(script.Calm()) ==> script.Calm() && AllFound(old(vms), vms)
    {
      hide TasksOk, Identities, UsersOk, ChannelsOk;
      changed := false;
      for index := 0 to |vms|
        invariant Valid() && Settled(old(vms), vms) && (old(script.Calm()) ==> script.Calm())
        invariant old(script.Calm()) ==> forall i :: 0 <= i < |vms| ==>
                    vms[i] == if i < index then Found(old(vms)[i]) else old(vms)[i]
      {
        if vms[index].IsActive() {
          var took, alive := script.Attempt();
          if vms[index].pid <= 0 || !alive {
            MarkStopped(index);
            changed := true;
          }
        }
      }
    }

    // ---- starting and stopping

    /**
     * vm.go:745-841.  `ready` is the answer of the host checks, `pid` what the
     * hypervisor returns; `meanwhile` is what the DHCP manager does for others
     * while it prepares the bridges.
     */
    method Start(id: string, ready: bool, pid: int, meanwhile: seq<seq<D.Operation>>) returns (ok: bool)
      requires Valid()
      modifies this`vms, this`exits, this`nextChannel, this`closed, this`file, script
      modifies net`configs, net`leases, net`runtimes, net`nextSerial, net.store, net.store.script
      ensures Valid()
      ensures ok ==> id !in busy && exists i: nat ::
                EditedAt(old(vms), vms, i, id) && vms[i] == old(vms)[i].(status := Running, pid := pid)
                  && ServicesUp(i, meanwhile)
      ensures old(script.Calm()) && old(net.store.script.Calm()) && meanwhile == [] && ready ==>
                ok || !old(Editable(id)) || !old(Publishable(id))
      ensures Settled(old(vms), vms) || StatusChanged(old(vms), vms, id)
    {
      hide TasksOk, UsersOk, ChannelsOk;
      ok := Reconcile();
      if !ok {
        return;
      }
      var found := IndexById(id);
      if found.None? || id in busy || vms[found.value].IsActive() || !ready {
        return false;
      }
      ghost var settled := vms;
      ok := StartAt(found.value, pid, meanwhile);
      if ok {
        SettledThenEdited(old(vms), settled, found.value, vms[found.value]);
      }
      SettledThenStatus(old(vms), settled, vms, found.value);
    }

    /** The machine may use Auto DNS wherever its bridges have it. */
    ghost predicate Publishable(id: string)
      reads this, net
    {
      forall i :: 0 <= i < |vms| && vms[i].id == id ==> D.Publishable(net.configs, vms[i])
    }

    /** Unless others changed the configuration meanwhile, every managed bridge of the machine serves it. */
    ghost predicate ServicesUp(index: nat, meanwhile: seq<seq<D.Operation>>)
      requires index < |vms|
      reads this, net
    {
      meanwhile == [] ==>
        forall b :: vms[index].UsesBridge(b) && b in net.configs ==> vms[index].id in D.Attached(net.runtimes, b)
    }

    /** vm.go:808-840. */
    method StartAt(index: nat, pid: int, meanwhile: seq<seq<D.Operation>>) returns (ok: bool)
      requires Valid() && index < |vms| && !vms[index].IsActive() && vms[index].id !in busy
      modifies this`vms, this`exits, this`nextChannel, this`file, script
      modifies net`configs, net`leases, net`runtimes, net`nextSerial, net.store, net.store.script
      ensures Valid() && |vms| == |old(vms)|
      ensures ok ==>
                vms == old(vms)[index := old(vms)[index].(status := Running, pid := pid)]
                  && ServicesUp(index, meanwhile)
      ensures !ok ==> D.SameAttachments(old(net.runtimes), net.runtimes)
      ensures vms == old(vms)[index := old(vms)[index].(status := vms[index].status, pid := vms[index].pid)]
      ensures old(script.Calm()) && old(net.store.script.Calm()) && meanwhile == [] ==>
                ok || !D.Publishable(old(net.configs), old(vms)[index])
    {
      ghost var s, before := View(), net.runtimes;
      var machine := vms[index];
      InactiveIsNoUser(s, index, before);
      ok := net.Prepare(machine, meanwhile);
      if !ok {
        return;
      }
      ok := Launch(index, pid, before);
    }

    /** vm.go:812-840: the hypervisor is asked to run the machine. */
    method Launch(index: nat, pid: int, ghost before: D.Runtimes) returns (ok: bool)
      requires Core() && UsersOk(vms, before) && index < |vms| && !vms[index].IsActive() && vms[index].id !in busy
      requires forall b :: vms[index].id !in D.Attached(before, b)
      requires forall b :: D.AttachedBy(vms[index], before, net.runtimes, b)
      modifies this`vms, this`exits, this`nextChannel, this`file, net`runtimes, script
      ensures Valid() && |vms| == |old(vms)|
      ensures ok ==>
                vms == old(vms)[index := old(vms)[index].(status := Running, pid := pid)]
                  && net.runtimes == old(net.runtimes)
      ensures !ok ==> D.SameAttachments(before, net.runtimes)
      ensures vms == old(vms)[index := old(vms)[index].(status := vms[index].status, pid := vms[index].pid)]
      ensures old(script.Calm()) ==> script.Calm() && ok
    {
      hide TasksOk, ChannelsOk, UsersOk;
      ghost var s, prepared := View(), net.runtimes;
      var machine := vms[index];
      var took;
      took, ok := script.Attempt();
      if !ok {
        Abandon(index, machine, before, prepared);
        return;
      }
      StartedKeepsUsers(s, index, machine.(status := Running, pid := pid), before, prepared);
      ok := Launched(index, pid);
      if !ok {
        PreparedThenReleased(s, index, before, prepared, net.runtimes);
      }
    }

    /** vm.go:827-839: the process runs; without a saved definition it is given up again. */
    method Launched(index: nat, pid: int) returns (ok: bool)
      requires Core() && index < |vms| && !vms[index].IsActive() && vms[index].id !in busy
      requires UsersOk(vms[index := vms[index].(status := Running, pid := pid)], net.runtimes)
      modifies this`vms, this`exits, this`nextChannel, this`file, net`runtimes, script
      ensures Valid() && vms == old(vms)[index := old(vms)[index].(status := Running, pid := pid)]
      ensures ok ==> net.runtimes == old(net.runtimes)
      ensures !ok ==> ReleasedFrom(vms[index], old(net.runtimes), net.runtimes)
      ensures old(script.Calm()) ==> script.Calm() && ok
    {
      var machine := vms[index];
      NotActiveNoChannel(index);
      AssignStatus(index, Running, pid);
      RegisterChannel(index);
      ok := Save();
      if !ok {
        var _, _ := script.Attempt();
        LeaveBridges(index, machine);
      }
    }

    method LeaveBridges(index: nat, machine: VirtualMachine)
      requires Valid() && index < |vms| && machine.id == vms[index].id && machine.nics == vms[index].nics
      modifies net`runtimes
      ensures Valid() && ReleasedFrom(vms[index], old(net.runtimes), net.runtimes)
    {
      ghost var running := net.runtimes;
      net.Release(machine);
      ReleasedKeepsUsers(View(), index, vms[index], machine, running, net.runtimes);
      assert vms[index := vms[index]] == vms;
    }

    /** vm.go:817-825: the hypervisor refused. */
    method Abandon(index: nat, machine: VirtualMachine, ghost before: D.Runtimes, ghost prepared: D.Runtimes)
      requires Core() && UsersOk(vms, before) && index < |vms| && machine == vms[index] && !machine.IsActive()
      requires net.runtimes == prepared && forall b :: D.AttachedBy(machine, before, prepared, b)
      modifies this`vms, this`file, net`runtimes, script
      ensures Valid() && D.SameAttachments(before, net.runtimes)
      ensures vms == old(vms)[index := machine.(status := Error, pid := 0)]
    {
      ghost var s := View();
      net.Release(machine);
      PreparedThenReleased(s, index, before, prepared, net.runtimes);
      InactiveIsNoUser(s, index, before);
      NotActiveNoChannel(index);
      AssignStatus(index, Error, 0);
      ReplaceKeepsUsers(s, index, vms[index], before);
      assert UsersOk(vms, net.runtimes) by {
        SameUsers(vms, before, net.runtimes);
      }
      var _ := Save();
    }

    lemma NotActiveNoChannel(index: nat)
      requires Core() && index < |vms| && !vms[index].IsActive()
      ensures vms[index].id !in exits
    {
    }

    /** vm.go:814-815. */
    method RegisterChannel(index: nat)
      requires Core() && index < |vms| && vms[index].IsActive() && vms[index].id !in exits
      modifies this`exits, this`nextChannel
      ensures Core() && exits == old(exits)[vms[index].id := old(nextChannel)]
    {
      assert ListedActive(vms, vms[index].id);
      forall ch | ch in exits.Values
        ensures ch in exits[vms[index].id := nextChannel].Values
      {
        var other :| other in exits && exits[other] == ch;
        assert exits[vms[index].id := nextChannel][other] == ch;
      }
      assert nextChannel !in closed;
      exits := exits[vms[index].id := nextChannel];
      nextChannel := nextChannel + 1;
    }

    /** vm.go:846-876, without force. */
    method Stop(id: string) returns (ok: bool)
      requires Valid()
      modifies this`vms, this`exits, this`closed, this`file, net`runtimes, script
      ensures Valid()
      ensures ok ==>
                exists i: nat ::
                  EditedAt(old(vms), vms, i, id) && old(vms)[i].IsActive() && vms[i] == old(vms)[i].(status := Stopping)
      ensures old(script.Calm()) ==>
                script.Calm() && (ok || forall i :: 0 <= i < |vms| ==> vms[i].id == id ==> !vms[i].IsActive())
      ensures Settled(old(vms), vms) || StatusChanged(old(vms), vms, id)
    {
      hide TasksOk, UsersOk, ChannelsOk;
      ok := Reconcile();
      if !ok {
        return;
      }
      var found := IndexById(id);
      if found.None? || !vms[found.value].IsActive() {
        return false;
      }
      ghost var settled := vms;
      ok := StopAt(found.value);
      SettledThenStatus(old(vms), settled, vms, found.value);
      if ok {
        SettledThenEdited(old(vms), settled, found.value, vms[found.value]);
        assert EditedAt(old(vms), vms, found.value, id);
      }
    }

    method StopAt(index: nat) returns (ok: bool)
      requires Valid() && index < |vms| && vms[index].IsActive()
      modifies this`vms, this`file, script
      ensures Valid()
      ensures vms == old(vms) || vms == old(vms)[index := old(vms)[index].(status := Stopping)]
      ensures ok ==> vms == old(vms)[index := old(vms)[index].(status := Stopping)]
      ensures old(script.Calm()) ==> script.Calm() && ok
    {
      var took;
      took, ok := script.Attempt();
      if ok {
        MarkStopping(index);
        ok := Save();
      }
    }

    method MarkStopping(index: nat)
      requires Valid() && index < |vms| && vms[index].IsActive()
      modifies this`vms
      ensures Valid() && vms == old(vms)[index := old(vms)[index].(status := Stopping)]
    {
      ghost var s := View();
      ActiveIsNotBusy(index);
      AssignStatus(index, Stopping, vms[index].pid);
      ReplaceKeepsUsers(s, index, vms[index], net.runtimes);
    }

    lemma ActiveIsNotBusy(index: nat)
      requires Ok(View()) && index < |vms| && vms[index].IsActive()
      ensures vms[index].id !in busy
    {
    }

    /** vm.go:905-916: up to the unlock; the exit channel is what the caller waits on. */
    method ForceStopBegin(index: nat) returns (ok: bool, exited: Option<nat>)
      requires Valid() && index < |vms| && vms[index].IsActive()
      modifies this`vms, this`file, this`published, script
      ensures Valid()
      ensures vms == old(vms) || vms == old(vms)[index := old(vms)[index].(status := Stopping)]
      ensures exited.Some? ==> ok && vms[index].status == Stopping
      ensures exited.Some? ==>
                vms[index].id in exits && exits[vms[index].id] == exited.value && exited.value in published
      ensures old(published) <= published
    {
      exited := None;
      var took;
      took, ok := script.Attempt();
      if !ok {
        return;
      }
      MarkStopping(index);
      ok := Save();
      if ok {
        exited := ExitOf(vms[index].id);
      }
    }

    /** vm.go:915: the channel a forced stop waits on. */
    method ExitOf(id: string) returns (exited: Option<nat>)
      requires Valid()
      modifies this`published
      ensures Valid() && old(published) <= published
      ensures exited.None? ==> id !in exits && published == old(published)
      ensures exited.Some? ==>
                id in exits && exits[id] == exited.value && exited.value in published && exited.value !in closed
    {
      if id !in exits {
        return None;
      }
      published := published + {exits[id]};
      exited := Some(exits[id]);
    }

    /** vm.go:923-940: after the exit was announced, or the wait timed out. */
    method ForceStopFinish(id: string) returns (ok: bool)
      requires Valid()
      modifies this`vms, this`exits, this`closed, this`file, net`runtimes, script
      ensures Valid()
      ensures |vms| == |old(vms)|
      ensures forall i :: 0 <= i < |vms| ==>
                vms[i] == if old(vms)[i].id == id && old(vms)[i].status != Stopped
                  then old(vms)[i].(status := Stopped, pid := 0) else old(vms)[i]
    {
      var found := IndexById(id);
      if found.None? {
        return false;
      }
      OtherIds(View(), found.value);
      ok := true;
      if vms[found.value].status != Stopped {
        MarkStopped(found.value);
        ok := Save();
      }
    }

    ghost predicate IsStopping(id: string)
      reads this
    {
      exists i :: 0 <= i < |vms| && vms[i].id == id && vms[i].status == Stopping
    }

    /** vm.go:846-861, with force. */
    method StopForced(id: string) returns (ok: bool, exited: Option<nat>)
      requires Valid()
      modifies this`vms, this`exits, this`closed, this`file, this`published, net`runtimes, script
      ensures Valid()
      ensures exited.Some? ==> exited.value in published
      ensures Settled(old(vms), vms) || StatusChanged(old(vms), vms, id)
      ensures exited.Some? ==> ok && id in exits && exits[id] == exited.value && IsStopping(id)
    {
      exited := None;
      ok := Reconcile();
      if !ok {
        return;
      }
      var found := IndexById(id);
      if found.None? || !vms[found.value].IsActive() {
        return false, None;
      }
      ghost var settled := vms;
      ok, exited := ForceStopBegin(found.value);
      SettledThenStatus(old(vms), settled, vms, found.value);
    }

    /** vm.go:880-892: a stop timer, armed for some process, fires. */
    method EscalateStop(id: string, pid: int) returns (exited: Option<nat>)
      requires Valid()
      modifies this`vms, this`file, this`published, script
      ensures Valid()
      ensures vms == old(vms) && exits == old(exits)
      ensures exited.Some? ==> IsStopping(id) && id in exits && exits[id] == exited.value
      ensures (forall i :: 0 <= i < |vms| ==> !(vms[i].id == id && vms[i].status == Stopping && vms[i].pid == pid)) ==>
                exited == None && file == old(file)
      ensures exited.Some? ==> exited.value in published
    {
      exited := None;
      var found := IndexById(id);
      if found.Some? && vms[found.value].status == Stopping && vms[found.value].pid == pid {
        var ok;
        ok, exited := ForceStopBegin(found.value);
      }
    }

    /** vm.go:1608-1630. */
    method ProcessExited(id: string, expectedPid: int)
      requires Valid()
      modifies this`vms, this`exits, this`closed, this`file, net`runtimes, script
      ensures Valid()
      ensures |vms| == |old(vms)|
      ensures forall i :: 0 <= i < |vms| ==>
                vms[i] == if old(vms)[i].id == id && old(vms)[i].pid != 0
                  && (expectedPid == 0 || old(vms)[i].pid == expectedPid)
                          then old(vms)[i].(status := Stopped, pid := 0) else old(vms)[i]
    {
      var found := IndexById(id);
      if found.None? {
        return;
      }
      OtherIds(View(), found.value);
      var pid := vms[found.value].pid;
      if pid == 0 || (expectedPid != 0 && pid != expectedPid) {
        return;
      }
      MarkStopped(found.value);
      var _ := Save();
    }

    // ---- definitions

    /** vm.go:953-988; `files` is whether the machine's files could be removed. */
    method Delete(id: string, files: bool) returns (ok: bool)
      requires Valid()
      modifies this`vms, this`exits, this`closed, this`file, net`runtimes, script
      ensures Valid()
      ensures Settled(old(vms), vms) || (id !in busy && Deleted(old(vms), vms, id))
      ensures ok ==> forall i :: 0 <= i < |vms| ==> vms[i].id != id
      ensures old(script.Calm()) ==> script.Calm() && (ok || !Editable(id) || !files)
    {
      ok := Reconcile();
      if !ok {
        return;
      }
      var found := IndexById(id);
      if found.None? || id in busy || vms[found.value].IsActive() || !files {
        return false;
      }
      ghost var settled := vms;
      ok := DeleteAt(found.value);
      assert DeletedAt(old(vms), settled, vms, found.value, id);
    }

    method DeleteAt(index: nat) returns (ok: bool)
      requires Valid() && index < |vms| && !vms[index].IsActive() && vms[index].id !in busy
      modifies this`vms, this`file, script
      ensures Valid() && vms == old(vms)[..index] + old(vms)[index + 1..]
      ensures forall i :: 0 <= i < |vms| ==> vms[i].id != old(vms)[index].id
      ensures old(script.Calm()) ==> script.Calm() && ok
    {
      OtherIds(View(), index);
      Remove(index);
      ok := Save();
    }

    method Remove(index: nat)
      requires Valid() && index < |vms| && !vms[index].IsActive() && vms[index].id !in busy
      modifies this`vms
      ensures Valid() && vms == old(vms)[..index] + old(vms)[index + 1..]
    {
      ghost var s := View();
      RemoveKeepsIdentities(vms, creating, index);
      RemoveKeepsTasks(s, index);
      RemoveKeepsUsers(s, index, net.runtimes);
      NotActiveNoChannel(index);
      forall other | other in exits
        ensures ListedActive(vms[..index] + vms[index + 1..], other)
      {
        RemoveKeepsListed(vms, index, other);
      }
      vms := vms[..index] + vms[index + 1..];
    }

    /** An edit of an inactive, idle machine, undone when it cannot be saved. */
    method Edit(index: nat, v: VirtualMachine) returns (ok: bool)
      requires Valid() && index < |vms| && v.id == vms[index].id && v.status == vms[index].status
               && v.pid == vms[index].pid
      requires Sound(v) && ApartFromAll(v, vms, creating) && v.id !in busy
      requires v.IsActive() ==> v.nics == vms[index].nics
      modifies this`vms, this`file, script
      ensures Valid()
      ensures vms == if ok then old(vms)[index := v] else old(vms)
      ensures file == if ok then vms else old(file)
      ensures ok == old(script.Succeeding()) && script.Advanced()
      ensures old(script.Calm()) ==> script.Calm() && ok
    {
      hide TasksOk, UsersOk, ChannelsOk;
      ghost var s := View();
      var previous := vms[index];
      if !previous.IsActive() {
        InactiveIsNoUser(s, index, net.runtimes);
        NotActiveNoChannel(index);
      }
      Assign(index, v);
      ReplaceKeepsUsers(s, index, v, net.runtimes);
      ok := Save();
      if !ok {
        SameDefinitionIsApart(s, index, previous);
        StillApart(s, index, v, previous);
        Assign(index, previous);
        assert vms == s.vms;
      }
    }

    lemma StillApart(s: State, index: nat, v: VirtualMachine, previous: VirtualMachine)
      requires index < |s.vms| && v.id == s.vms[index].id == previous.id
      requires ApartFromAll(previous, s.vms, s.creating)
      ensures ApartFromAll(previous, s.vms[index := v], s.creating)
    {
    }

    /** vm.go:990-1041, of which only the name concerns other machines. */
    method Rename(id: string, name: string, valid: bool) returns (ok: bool)
      requires Valid()
      modifies this`vms, this`exits, this`closed, this`file, net`runtimes, script
      ensures Valid()
      ensures !ok ==> Settled(old(vms), vms)
      ensures ok ==> id !in busy && exists i: nat :: EditedAt(old(vms), vms, i, id) && vms[i].name == name
                                          && vms[i].nics == old(vms)[i].nics && vms[i].disks == old(vms)[i].disks
      ensures old(script.Calm()) ==> script.Calm() && (ok || !Listed(id) || id in busy || !valid || NameTaken(name, id))
    {
      hide TasksOk, UsersOk, ChannelsOk;
      ok := Reconcile();
      if !ok {
        return;
      }
      var found := IndexById(id);
      if found.None? || id in busy || !valid {
        return false;
      }
      var index := found.value;
      var candidate := vms[index].(name := name);
      var taken := NameInUse(name, id);
      if name != vms[index].name && taken {
        return false;
      }
      RenamedIsApart(View(), index, candidate);
      ghost var settled := vms;
      ok := Edit(index, candidate);
      if ok {
        SettledThenEdited(old(vms), settled, index, candidate);
        assert EditedAt(old(vms), vms, index, id);
      }
    }

    /** vm.go:1197-1210. */
    method NewNic(machine: VirtualMachine, spec: NicSpec) returns (nic: Option<Nic>)
      ensures nic.Some? ==> nic.value == spec.Build() && FreeMac(nic.value.mac) && !machine.HasMac(nic.value.mac)
      ensures nic.None? ==> !FreeMac(spec.Build().mac) || machine.HasMac(spec.Build().mac)
    {
      var built := spec.Build();
      var used := MacInUse(built.mac);
      if used || machine.HasMac(built.mac) {
        return None;
      }
      nic := Some(built);
    }

    ghost predicate Listed(id: string)
      reads this
    {
      exists i :: 0 <= i < |vms| && vms[i].id == id
    }

    /** The machine is listed and inactive, and no unlocked operation holds it. */
    ghost predicate Editable(id: string)
      reads this
    {
      id !in busy && exists i :: 0 <= i < |vms| && vms[i].id == id && !vms[i].IsActive()
    }

    ghost predicate HasNic(id: string, nicId: string)
      reads this
    {
      exists i, k :: 0 <= i < |vms| && vms[i].id == id && 0 <= k < |vms[i].nics| && vms[i].nics[k].id == nicId
    }

    ghost predicate HasDisk(id: string, diskId: string)
      reads this
    {
      exists i, k :: 0 <= i < |vms| && vms[i].id == id && 0 <= k < |vms[i].disks| && vms[i].disks[k].id == diskId
    }

    ghost predicate NameTaken(name: string, exclude: string)
      reads this
    {
      || (exists i :: 0 <= i < |vms| && vms[i].id != exclude && EqualFold(vms[i].name, name))
      || (exists id :: id in creating && EqualFold(creating[id].name, name))
    }

    /** The addresses of new interfaces are free and apart. */
    ghost predicate NicsFree(specs: seq<NicSpec>)
      reads this
    {
      && (forall k :: 0 <= k < |specs| ==> FreeMac(specs[k].Build().mac))
      && (forall i, j :: 0 <= i < j < |specs| ==> !EqualFold(specs[i].Build().mac, specs[j].Build().mac))
    }

    ghost predicate FreeMac(mac: string)
      reads this
    {
      && (forall i :: 0 <= i < |vms| ==> !vms[i].HasMac(mac))
      && (forall id :: id in creating ==> !creating[id].HasMac(mac))
    }

    /** vm.go:1086-1117. */
    method AddNic(id: string, spec: NicSpec) returns (ok: bool)
      requires Valid()
      modifies this`vms, this`exits, this`closed, this`file, net`runtimes, script
      ensures Valid()
      ensures !ok ==> Settled(old(vms), vms)
      ensures ok ==>
                id !in busy && exists i: nat ::
                  EditedAt(old(vms), vms, i, id) && !vms[i].IsActive() && vms[i].name == old(vms)[i].name
                                          && vms[i].nics == old(vms)[i].nics + [spec.Build()]
                                          && vms[i].disks == old(vms)[i].disks
      ensures old(script.Calm()) ==> script.Calm() && (ok || !Editable(id) || !FreeMac(spec.Build().mac))
    {
      hide TasksOk, UsersOk, ChannelsOk;
      ok := Reconcile();
      if !ok {
        return;
      }
      var found := IndexById(id);
      if found.None? || id in busy || vms[found.value].IsActive() {
        return false;
      }
      var index := found.value;
      var nic := NewNic(vms[index], spec);
      if nic.None? {
        return false;
      }
      var candidate := vms[index].(nics := vms[index].nics + [nic.value]);
      NewMacIsApart(View(), index, candidate, nic.value.mac);
      ghost var settled := vms;
      ok := Edit(index, candidate);
      if ok {
        SettledThenEdited(old(vms), settled, index, candidate);
        assert EditedAt(old(vms), vms, index, id);
      }
    }

    method NicIndex(machine: VirtualMachine, nicId: string) returns (found: Option<nat>)
      ensures found.Some? ==> found.value < |machine.nics| && machine.nics[found.value].id == nicId
      ensures found.None? ==> forall i :: 0 <= i < |machine.nics| ==> machine.nics[i].id != nicId
    {
      for i := 0 to |machine.nics|
        invariant forall j :: 0 <= j < i ==> machine.nics[j].id != nicId
      {
        if machine.nics[i].id == nicId {
          return Some(i);
        }
      }
      found := None;
    }

    /** vm.go:1121-1164. */
    method UpdateNic(id: string, nicId: string, spec: NicSpec) returns (ok: bool)
      requires Valid()
      modifies this`vms, this`exits, this`closed, this`file, net`runtimes, script
      ensures Valid()
      ensures Settled(old(vms), vms) || (ok && id !in busy && NicReplaced(old(vms), vms, id, nicId, spec))
      ensures old(script.Calm()) ==>
                script.Calm() && (ok || !Editable(id) || !HasNic(id, nicId) || (spec.mac != "" && !FreeMac(spec.mac)))
    {
      hide TasksOk, UsersOk, ChannelsOk;
      ok := Reconcile();
      if !ok {
        return;
      }
      var index, at := LocateNic(id, nicId);
      if at.None? {
        return false;
      }
      ghost var settled := vms;
      ok := UpdateNicAt(index, at.value, spec);
      if vms != settled {
        SettledThenNic(old(vms), settled, index, at.value, spec);
      }
    }

    /** One interface of one inactive machine has the new definition. */
    static ghost predicate NicReplaced(before: seq<VirtualMachine>, after: seq<VirtualMachine>, id: string,
                                       nicId: string, spec: NicSpec)
    {
      exists i: nat, k: nat ::
        && EditedAt(before, after, i, id) && !after[i].IsActive() && k < |before[i].nics|
        && before[i].nics[k].id == nicId
        && after[i].name == before[i].name && after[i].disks == before[i].disks
        && after[i].nics == before[i].nics[k := Updated(before[i].nics[k], spec)]
    }

    static lemma SettledThenNic(before: seq<VirtualMachine>, settled: seq<VirtualMachine>, index: nat, at: nat,
                                spec: NicSpec)
      requires Settled(before, settled) && index < |settled| && !settled[index].IsActive() && at < |settled[index].nics|
      ensures NicReplaced(before, settled[index := WithNic(settled[index], at, spec)], settled[index].id,
                          settled[index].nics[at].id, spec)
    {
      SettledThenEdited(before, settled, index, WithNic(settled[index], at, spec));
      assert EditedAt(before, settled[index := WithNic(settled[index], at, spec)], index, settled[index].id);
      assert settled[index].nics == before[index].nics;
    }

    /** vm.go:1142-1163. */
    method UpdateNicAt(index: nat, at: nat, spec: NicSpec) returns (ok: bool)
      requires Valid() && index < |vms| && at < |vms[index].nics| && vms[index].id !in busy
      modifies this`vms, this`file, script
      ensures Valid()
      ensures vms == old(vms)
              || (ok && !old(vms)[index].IsActive() && vms == old(vms)[index := WithNic(old(vms)[index], at, spec)])
      ensures old(script.Calm()) ==>
                script.Calm() && (ok || vms[index].IsActive() || (spec.mac != "" && !FreeMac(spec.mac)))
    {
      var machine := vms[index];
      var current := machine.nics[at];
      var updated := Updated(current, spec);
      if updated.mode == current.mode && updated.bridgeName == current.bridgeName
        && EqualFold(updated.mac, current.mac) {
        return true;
      }
      if machine.IsActive() {
        return false;
      }
      var taken := MacInUse(updated.mac);
      if !EqualFold(updated.mac, current.mac) && taken {
        return false;
      }
      var candidate := WithNic(machine, at, spec);
      UpdatedNicIsApart(View(), index, at, updated);
      ok := Edit(index, candidate);
    }

    static function WithNic(machine: VirtualMachine, at: nat, spec: NicSpec): VirtualMachine
      requires at < |machine.nics|
    {
      machine.(nics := machine.nics[at := Updated(machine.nics[at], spec)])
    }

    static function Updated(current: Nic, spec: NicSpec): Nic {
      Nic(current.id, spec.mode, spec.bridgeName, if spec.mac == "" then current.mac else spec.mac)
    }

    /** vm.go:1166-1193. */
    method RemoveNic(id: string, nicId: string) returns (ok: bool)
      requires Valid()
      modifies this`vms, this`exits, this`closed, this`file, net`runtimes, script
      ensures Valid()
      ensures !ok ==> Settled(old(vms), vms)
      ensures ok ==> id !in busy && exists i: nat, k: nat ::
                EditedAt(old(vms), vms, i, id) && !vms[i].IsActive() && k < |old(vms)[i].nics|
                  && old(vms)[i].nics[k].id == nicId
                && vms[i].nics == old(vms)[i].nics[..k] + old(vms)[i].nics[k + 1..]
      ensures old(script.Calm()) ==> script.Calm() && (ok || !Editable(id) || !HasNic(id, nicId))
    {
      ok := Reconcile();
      if !ok {
        return;
      }
      var index, at := LocateNic(id, nicId);
      if at.None? || vms[index].IsActive() {
        return false;
      }
      ghost var settled := vms;
      ok := RemoveNicAt(index, at.value);
      if ok {
        SettledThenEdited(old(vms), settled, index, vms[index]);
        assert EditedAt(old(vms), vms, index, id);
      }
    }

    /** An interface of an idle machine. */
    method LocateNic(id: string, nicId: string) returns (index: nat, at: Option<nat>)
      requires Valid()
      ensures at.Some? ==>
                && id !in busy && index < |vms| && vms[index].id == id
                && at.value < |vms[index].nics| && vms[index].nics[at.value].id == nicId
      ensures at.None? ==> id in busy || !HasNic(id, nicId)
    {
      var found := IndexById(id);
      if found.None? || id in busy {
        return 0, None;
      }
      index := found.value;
      OtherIds(View(), index);
      at := NicIndex(vms[index], nicId);
    }

    method RemoveNicAt(index: nat, at: nat) returns (ok: bool)
      requires Valid() && index < |vms| && at < |vms[index].nics| && vms[index].id !in busy && !vms[index].IsActive()
      modifies this`vms, this`file, script
      ensures Valid()
      ensures vms == if ok then old(vms)[index := WithoutNic(old(vms)[index], at)] else old(vms)
      ensures old(script.Calm()) ==> script.Calm() && ok
    {
      FewerNicsIsApart(View(), index, at);
      ok := Edit(index, WithoutNic(vms[index], at));
    }

    static function WithoutNic(machine: VirtualMachine, at: nat): VirtualMachine
      requires at < |machine.nics|
    {
      machine.(nics := machine.nics[..at] + machine.nics[at + 1..])
    }

    /** One inactive machine lost one disk. */
    static ghost predicate DiskRemoved(before: seq<VirtualMachine>, after: seq<VirtualMachine>, id: string,
                                       diskId: string)
    {
      exists i: nat, k: nat ::
        && i < |before| && before[i].id == id && !before[i].IsActive() && k < |before[i].disks|
        && before[i].disks[k].id == diskId
        && after == before[i := before[i].(disks := before[i].disks[..k] + before[i].disks[k + 1..])]
    }

    /**
     * vm.go:1300-1334; `staged` is whether the disk file could be moved aside.
     * A file that was moved aside and then cannot be deleted is reported as a
     * failure of a removal that stands.
     */
    method RemoveDisk(id: string, diskId: string, staged: bool) returns (ok: bool)
      requires Valid()
      modifies this`vms, this`file, script
      ensures Valid()
      ensures vms == old(vms) || (id !in busy && DiskRemoved(old(vms), vms, id, diskId) && file == vms)
      ensures ok ==> id !in busy && DiskRemoved(old(vms), vms, id, diskId)
      ensures old(Editable(id)) && old(HasDisk(id, diskId)) && staged ==>
                && (vms != old(vms) <==> old(script.Succeeding()))
                && (ok <==> old(script.Succeeding()) && FateAt(old(script.fates), 1) == Works)
      ensures old(script.Calm()) ==> script.Calm() && (ok || !Editable(id) || !staged || !HasDisk(id, diskId))
    {
      FateLater(script.fates, 1, 0);
      var found := IndexById(id);
      if found.None? || id in busy || vms[found.value].IsActive() || !staged {
        return false;
      }
      var index := found.value;
      var machine := vms[index];
      for k := 0 to |machine.disks|
        invariant Valid() && vms == old(vms) && forall j :: 0 <= j < k ==> machine.disks[j].id != diskId
      {
        if machine.disks[k].id == diskId {
          var candidate := machine.(disks := machine.disks[..k] + machine.disks[k + 1..]);
          SameDefinitionIsApart(View(), index, candidate);
          ok := Edit(index, candidate);
          if ok {
            assert DiskRemoved(old(vms), vms, id, diskId) && |vms[index].disks| < |old(vms)[index].disks|;
            var took;
            took, ok := script.Attempt();
          }
          return;
        }
      }
      ok := false;
    }

    // ---- operations that release the lock

    /** vm.go:557-563, 734-740: the interfaces of a definition that is not listed yet. */
    method BuildNics(draft: VirtualMachine, specs: seq<NicSpec>) returns (built: Option<VirtualMachine>)
      requires draft.nics == []
      ensures built.Some? ==>
                && built.value == draft.(nics := built.value.nics)
                && |built.value.nics| == |specs|
                && (forall k :: 0 <= k < |specs| ==> built.value.nics[k] == specs[k].Build())
                && (forall i, j :: 0 <= i < j < |built.value.nics| ==>
                    !EqualFold(built.value.nics[i].mac, built.value.nics[j].mac))
                && (forall k :: 0 <= k < |specs| ==> FreeMac(built.value.nics[k].mac))
      ensures built.Some? <==> NicsFree(specs)
    {
      var machine := draft;
      for k := 0 to |specs|
        invariant machine == draft.(nics := machine.nics)
        invariant |machine.nics| == k && (forall l :: 0 <= l < k ==> machine.nics[l] == specs[l].Build())
        invariant forall i, j :: 0 <= i < j < k ==> !EqualFold(machine.nics[i].mac, machine.nics[j].mac)
        invariant forall l :: 0 <= l < k ==> FreeMac(machine.nics[l].mac)
      {
        var nic := NewNic(machine, specs[k]);
        if nic.None? {
          return None;
        }
        machine := machine.(nics := machine.nics + [nic.value]);
      }
      built := Some(machine);
    }

    /** An identity that no definition has (random IDs never repeat). */
    ghost predicate FreshId(id: string)
      reads this
    {
      id !in creating && forall i :: 0 <= i < |vms| ==> vms[i].id != id
    }

    lemma NewDefinitionIsApart(v: VirtualMachine)
      requires FreshId(v.id)
      requires forall k :: 0 <= k < |v.nics| ==> FreeMac(v.nics[k].mac)
      requires forall i :: 0 <= i < |vms| ==> !EqualFold(vms[i].name, v.name)
      requires forall id :: id in creating ==> creating[id].id == id && !EqualFold(creating[id].name, v.name)
      ensures ApartFromAll(v, vms, creating)
    {
    }

    /** vm.go:465-472, 521-566. */
    method CreateBegin(name: string, id: string, disks: seq<Disk>, specs: seq<NicSpec>) returns (task: Option<Task>)
      requires Valid() && FreshId(id) && id != ""
      modifies this`creating, this`tasks, script
      ensures Valid()
      ensures task.None? ==> creating == old(creating) && tasks == old(tasks)
      ensures task.Some? ==>
                && task.value.Creating? && task.value.vm.id == id && task.value.vm.name == name
                && task.value.vm.disks == disks
                && |task.value.vm.nics| == |specs|
                && (forall k :: 0 <= k < |specs| ==> task.value.vm.nics[k] == specs[k].Build())
                && creating == old(creating)[id := task.value.vm] && tasks == old(tasks) + {task.value}
      ensures old(script.Calm()) ==>
                script.Calm() && (task.Some? <==> !old(NameTaken(name, "")) && old(NicsFree(specs)))
    {
      hide TasksOk, UsersOk, ChannelsOk;
      var taken := NameInUse(name, "");
      if taken {
        return None;
      }
      var took, ok := script.Attempt();
      if !ok {
        return None;
      }
      var built := BuildNics(VirtualMachine(id, name, Stopped, 0, disks, []), specs);
      if built.None? {
        return None;
      }
      NewDefinitionIsApart(built.value);
      var reserved := Creating(built.value);
      ReserveKeepsOk(View(), reserved, "");
      creating := creating[id := built.value];
      tasks := tasks + {reserved};
      task := Some(reserved);
    }

    /** vm.go:503-516; `produced` is whether the files were made. */
    method CreateFinish(task: Task, produced: bool) returns (ok: bool)
      requires Valid() && task in tasks && task.Creating?
      modifies this`vms, this`creating, this`busy, this`file, this`tasks, script
      ensures Valid()
      ensures creating == old(creating) - {task.vm.id} && busy == old(busy) && tasks == old(tasks) - {task}
      ensures ok ==> produced
      ensures vms == if ok then old(vms) + [task.vm] else old(vms)
      ensures old(script.Calm()) ==> script.Calm() && (ok <==> produced)
    {
      EndedCanJoin(View(), task);
      Conclude(task);
      if !produced {
        return false;
      }
      ok := Commit(task.vm);
    }

    /** An operation drops its marks. */
    method Conclude(task: Task)
      requires Valid() && task in tasks
      modifies this`creating, this`busy, this`tasks
      ensures Valid() && View() == Ended(old(View()), task)
    {
      hide Identities, TasksOk, UsersOk, ChannelsOk;
      EndKeepsOk(View(), task);
      ghost var after := Ended(View(), task);
      Unmark(task);
      tasks := tasks - {task};
      assert View() == after;
    }

    method Unmark(task: Task)
      modifies this`creating, this`busy
      ensures busy == if task.Holds().Some? then old(busy) - {task.Holds().value.id} else old(busy)
      ensures creating == if task.Reserves().Some? then old(creating) - {task.Reserves().value.id} else old(creating)
    {
      if task.Holds().Some? {
        busy := busy - {task.Holds().value.id};
      }
      if task.Reserves().Some? {
        creating := creating - {task.Reserves().value.id};
      }
    }

    ghost predicate Committable(v: VirtualMachine)
      reads this
    {
      CanJoin(View(), v)
    }

    method Commit(v: VirtualMachine) returns (ok: bool)
      requires Valid() && Committable(v)
      modifies this`vms, this`file, script
      ensures Valid()
      ensures vms == if ok then old(vms) + [v] else old(vms)
      ensures old(script.Calm()) ==> script.Calm() && ok
    {
      AppendKeepsOk(View(), v);
      AppendKeepsUsers(vms, v, net.runtimes);
      forall id | id in exits
        ensures ListedActive(vms + [v], id)
      {
        AppendKeepsListed(vms, v, id);
      }
      vms := vms + [v];
      ok := Save();
      if !ok {
        vms := vms[..|vms| - 1];
        assert vms == old(vms);
      }
    }

    /** vm.go:609-642, 694-743; `freshDisk` names the copies, `freshNic` the interfaces and their addresses. */
    method CloneBegin(id: string, name: string, valid: bool, cloneId: string, freshDisk: nat -> string,
                      freshNic: nat -> (string, string))
      returns (task: Option<Task>)
      requires Valid() && FreshId(cloneId) && cloneId != ""
      modifies this`vms, this`exits, this`closed, this`creating, this`busy, this`tasks, this`file, net`runtimes, script
      ensures Valid() && Settled(old(vms), vms)
      ensures task.None? ==> creating == old(creating) && busy == old(busy) && tasks == old(tasks)
      ensures task.Some? ==>
                && task.value.Cloning? && task.value.source in vms && task.value.source.id == id
                && task.value.source.status == Stopped
                && task.value.clone.id == cloneId && task.value.clone.name == name && task.value.clone.status == Stopped
                && DisksMatch(task.value.clone.disks, task.value.source.disks)
                && NicsMatch(task.value.clone.nics, task.value.source.nics)
                && id !in old(busy) && busy == old(busy)[id := "cloning"]
                && creating == old(creating)[cloneId := task.value.clone] && tasks == old(tasks) + {task.value}
    {
      task := None;
      var ok := Reconcile();
      if !ok {
        return;
      }
      var found := IndexById(id);
      if found.None? {
        return;
      }
      task := CloneAt(found.value, name, valid, cloneId, freshDisk, freshNic);
    }

    method CloneAt(index: nat, name: string, valid: bool, cloneId: string, freshDisk: nat -> string,
                   freshNic: nat -> (string, string))
      returns (task: Option<Task>)
      requires Valid() && index < |vms| && FreshId(cloneId) && cloneId != ""
      modifies this`creating, this`busy, this`tasks, script
      ensures Valid()
      ensures task.None? ==> creating == old(creating) && busy == old(busy) && tasks == old(tasks)
      ensures task.Some? ==>
                && task.value.Cloning? && task.value.source == vms[index] && vms[index].status == Stopped
                && task.value.clone.id == cloneId && task.value.clone.name == name && task.value.clone.status == Stopped
                && DisksMatch(task.value.clone.disks, task.value.source.disks)
                && NicsMatch(task.value.clone.nics, task.value.source.nics)
                && vms[index].id !in old(busy) && busy == old(busy)[vms[index].id := "cloning"]
                && creating == old(creating)[cloneId := task.value.clone] && tasks == old(tasks) + {task.value}
      ensures old(script.Calm()) ==>
                && script.Calm()
                && (task.Some? <==> && vms[index].status == Stopped && vms[index].id !in old(busy) && valid
                                    && !old(NameTaken(name, "")) && old(NicsFree(CloneSpecs(vms[index], freshNic))))
    {
      var source := vms[index];
      if source.status != Stopped || source.id in busy || !valid {
        return None;
      }
      var clone := ReserveClone(source, name, cloneId, freshDisk, freshNic);
      if clone.None? {
        return None;
      }
      var reserved := Cloning(source, clone.value);
      MarkCloning(index, reserved);
      task := Some(reserved);
    }

    /** vm.go:640-642. */
    method MarkCloning(index: nat, reserved: Task)
      requires Valid() && index < |vms| && reserved.Cloning? && reserved.source == vms[index] && !vms[index].IsActive()
      requires vms[index].id !in busy && Committable(reserved.clone)
               && DisksMatch(reserved.clone.disks, reserved.source.disks)
      modifies this`creating, this`busy, this`tasks
      ensures Valid()
      ensures busy == old(busy)[vms[index].id := "cloning"]
      ensures creating == old(creating)[reserved.clone.id := reserved.clone] && tasks == old(tasks) + {reserved}
    {
      hide UsersOk, ChannelsOk;
      assert Still(vms[index], reserved.source);
      ReserveKeepsOk(View(), reserved, "cloning");
      ghost var after := Reserved(View(), reserved, "cloning");
      creating := creating[reserved.clone.id := reserved.clone];
      busy := busy[reserved.source.id := "cloning"];
      tasks := tasks + {reserved};
      assert View() == after;
    }

    /** Every interface gets a new identity and a generated address. */
    static function CloneSpecs(source: VirtualMachine, freshNic: nat -> (string, string)): seq<NicSpec> {
      seq(|source.nics|, k requires 0 <= k < |source.nics| =>
        NicSpec(source.nics[k].mode, source.nics[k].bridgeName, "", freshNic(k).0, freshNic(k).1))
    }

    /** vm.go:694-740. */
    method ReserveClone(source: VirtualMachine, name: string, cloneId: string, freshDisk: nat -> string,
                        freshNic: nat -> (string, string))
      returns (clone: Option<VirtualMachine>)
      requires Valid() && FreshId(cloneId) && cloneId != ""
      modifies script
      ensures clone.Some? ==>
                && clone.value.id == cloneId && clone.value.name == name && clone.value.status == Stopped
                && Committable(clone.value)
                && DisksMatch(clone.value.disks, source.disks) && NicsMatch(clone.value.nics, source.nics)
      ensures old(script.Calm()) ==>
                script.Calm() && (clone.Some? <==> !NameTaken(name, "") && NicsFree(CloneSpecs(source, freshNic)))
    {
      var taken := NameInUse(name, "");
      if taken {
        return None;
      }
      var took, ok := script.Attempt();
      if !ok {
        return None;
      }
      var disks := [];
      for k := 0 to |source.disks|
        invariant DisksMatch(disks, source.disks[..k])
      {
        disks := disks + [source.disks[k].(id := freshDisk(k))];
      }
      assert source.disks[..|source.disks|] == source.disks;
      var specs := CloneSpecs(source, freshNic);
      clone := BuildNics(VirtualMachine(cloneId, name, Stopped, 0, disks, []), specs);
      if clone.Some? {
        NewDefinitionIsApart(clone.value);
      }
    }

    /** vm.go:675-689; `copied` is whether every file was copied. */
    method CloneFinish(task: Task, copied: bool) returns (ok: bool)
      requires Valid() && task in tasks && task.Cloning?
      modifies this`vms, this`creating, this`busy, this`file, this`tasks, script
      ensures Valid()
      ensures creating == old(creating) - {task.clone.id} && busy == old(busy) - {task.source.id}
              && tasks == old(tasks) - {task}
      ensures vms == if ok then old(vms) + [task.clone] else old(vms)
      ensures ok ==> copied && SourceStillMatches(task)
      ensures old(script.Calm()) ==> script.Calm() && (ok <==> copied)
    {
      hide UsersOk, ChannelsOk;
      assert TaskOk(View(), task);
      EndedCanJoin(View(), task);
      Conclude(task);
      if !copied {
        return false;
      }
      ok := Commit(task.clone);
      if ok {
        StillFrozen(old(vms), task.clone, task.source);
      }
    }

    /** The source is still listed and inactive, and its disks are the committed clone's, one by one. */
    ghost predicate SourceStillMatches(task: Task)
      requires task.Cloning?
      reads this
    {
      exists i :: 0 <= i < |vms| && Still(vms[i], task.source) && DisksMatch(task.clone.disks, vms[i].disks)
    }

    /** vm.go:1249-1275. */
    method AddDiskBegin(id: string, disk: Disk) returns (task: Option<Task>)
      requires Valid()
      modifies this`busy, this`tasks
      ensures Valid()
      ensures task.None? ==> busy == old(busy) && tasks == old(tasks)
      ensures task.Some? ==>
                && task.value.AddingDisk? && task.value.disk == disk && task.value.before in vms
                && task.value.before.id == id
                && !task.value.before.IsActive() && id !in old(busy)
                && busy == old(busy)[id := "adding a disk"] && tasks == old(tasks) + {task.value}
      ensures task.Some? <==> old(Editable(id))
    {
      var found := IndexById(id);
      if found.None? || vms[found.value].IsActive() || id in busy {
        return None;
      }
      var marked := AddingDisk(vms[found.value], disk);
      assert Still(vms[found.value], vms[found.value]);
      MarkKeepsOk(View(), marked, "adding a disk");
      busy := busy[id := "adding a disk"];
      tasks := tasks + {marked};
      task := Some(marked);
    }

    /** vm.go:1279-1297; `made` is whether the disk file was created. */
    method AddDiskFinish(task: Task, made: bool) returns (ok: bool)
      requires Valid() && task in tasks && task.AddingDisk?
      modifies this`vms, this`busy, this`file, this`creating, this`tasks, script
      ensures Valid()
      ensures creating == old(creating) && busy == old(busy) - {task.before.id} && tasks == old(tasks) - {task}
      ensures !ok ==> vms == old(vms)
      ensures ok ==> made && exists i: nat :: i < |old(vms)| && Still(old(vms)[i], task.before)
                               && vms == old(vms)[i := old(vms)[i].(disks := task.before.disks + [task.disk])]
      ensures old(script.Calm()) ==> script.Calm() && (ok <==> made)
    {
      hide UsersOk, ChannelsOk;
      assert TaskOk(View(), task);
      Conclude(task);
      if !made {
        return false;
      }
      var found := IndexById(task.before.id);
      if found.None? {
        return false;
      }
      var index := found.value;
      OtherIds(View(), index);
      assert Still(vms[index], task.before);
      var candidate := vms[index].(disks := vms[index].disks + [task.disk]);
      SameDefinitionIsApart(View(), index, candidate);
      ok := Edit(index, candidate);
    }
  }

  lemma StillFrozen(vms: seq<VirtualMachine>, added: VirtualMachine, source: VirtualMachine)
    requires Frozen(vms, source)
    ensures exists i :: 0 <= i < |vms + [added]| && Still((vms + [added])[i], source)
  {
    var i :| 0 <= i < |vms| && Still(vms[i], source);
    assert Still((vms + [added])[i], source);
  }

  ghost predicate NicsMatch(copy: seq<Nic>, original: seq<Nic>) {
    && |copy| == |original|
    && forall i :: 0 <= i < |copy| ==> copy[i].mode == original[i].mode && copy[i].bridgeName == original[i].bridgeName
  }
}
