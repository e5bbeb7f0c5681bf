/**
 * The DHCP manager (internal/dhcp/dhcp.go): bridge configurations, their
 * lease tables, and the services that run while a bridge has users.
 */
module Dhcp {
  import opened Faults
  import opened Ipv4
  import opened Text
  import opened VirtualMachines
  import L = Leases

  datatype BridgeConfig = BridgeConfig(range: Range, natEnabled: bool, dnsEnabled: bool, autoDns: bool)

  /**
   * What a configuration request asks for.  `bootUrl` is whether the boot URL
   * that was given names a boot file, `names` whether the DNS forwarders and
   * suffix can be normalized, `hostAgrees` the answer of the host's own check.
   */
  datatype Setting =
    Setting(enabled: bool, cidr: Prefix, natEnabled: bool, dnsEnabled: bool, autoDns: bool,
            bootUrl: Option<bool>, names: bool, hostAgrees: bool)
  {
    predicate Sensible() {
      && (natEnabled || bootUrl.Some? || dnsEnabled ==> enabled) && (autoDns ==> dnsEnabled)
      && bootUrl != Some(false)
      && (enabled ==> ParseRange(cidr).Some? && hostAgrees && (dnsEnabled ==> names))
    }

    function Config(): BridgeConfig
      requires ParseRange(cidr).Some?
    {
      BridgeConfig(ParseRange(cidr).value, natEnabled, dnsEnabled, autoDns)
    }
  }

  type Configs = map<string, BridgeConfig>

  type LeaseTables = map<string, L.Table>

  /** `serial` tells runtimes apart; `handler` is what the live packet handler captured. */
  datatype Runtime =
    Runtime(serial: nat, users: set<string>, vms: map<string, VirtualMachine>, running: bool,
            handler: Option<BridgeConfig>)
  {
    function With(machine: VirtualMachine): Runtime {
      this.(users := users + {machine.id}, vms := vms[machine.id := machine])
    }
  }

  function TableOf(leases: LeaseTables, bridge: string): L.Table {
    if bridge in leases then leases[bridge] else map[]
  }

  type Runtimes = map<string, Runtime>

  /** The machines that use a bridge, as they were when they were prepared. */
  function Attached(runtimes: Runtimes, bridge: string): map<string, VirtualMachine> {
    if bridge in runtimes then runtimes[bridge].vms else map[]
  }

  ghost predicate SameAttachments(before: Runtimes, after: Runtimes) {
    forall b :: Attached(after, b) == Attached(before, b)
  }

  /** What holds of the configuration and the leases, in memory and in the file. */
  ghost predicate StateOk(configs: Configs, leases: LeaseTables) {
    ConfigsOk(configs) && TablesOk(configs, leases)
  }

  ghost predicate ConfigsOk(configs: Configs) {
    && (forall b :: b in configs ==> IsRange(configs[b].range))
    && (forall a, b :: a in configs && b in configs && a != b ==>
          !PrefixesOverlap(configs[a].range.prefix, configs[b].range.prefix))
  }

  ghost predicate TablesOk(configs: Configs, leases: LeaseTables) {
    forall b :: b in leases ==> b in configs && "" !in leases[b] && L.TableOk(leases[b], configs[b].range)
  }

  ghost predicate RuntimeOk(runtime: Runtime) {
    && runtime.users != {} && runtime.users == runtime.vms.Keys
    && forall id :: id in runtime.vms ==> runtime.vms[id].id == id
  }

  /** Every runtime has users, and a live handler answers from the stored configuration. */
  ghost predicate RuntimesOk(configs: Configs, runtimes: Runtimes) {
    && (forall b :: b in runtimes ==> RuntimeOk(runtimes[b]) && b in configs && NamesOk(configs[b], runtimes[b].vms))
    && (forall b :: b in runtimes && runtimes[b].running ==> runtimes[b].handler == Some(configs[b]))
  }

  /** Auto DNS can publish the users of a bridge. */
  ghost predicate NamesOk(config: BridgeConfig, users: map<string, VirtualMachine>) {
    config.autoDns ==> forall id :: id in users ==> DnsLabel(users[id].name)
  }

  /** Auto DNS can publish the name on every bridge of the machine that has it. */
  ghost predicate Publishable(configs: Configs, machine: VirtualMachine) {
    forall b :: b in configs && machine.UsesBridge(b) && configs[b].autoDns ==> DnsLabel(machine.name)
  }

  lemma EnabledKeepsState(configs: Configs, leases: LeaseTables, bridge: string, config: BridgeConfig)
    requires StateOk(configs, leases) && IsRange(config.range)
    requires forall b :: b in configs && b != bridge ==> !PrefixesOverlap(config.range.prefix, configs[b].range.prefix)
    ensures StateOk(configs[bridge := config], leases - {bridge})
    ensures bridge in configs && configs[bridge].range == config.range ==> StateOk(configs[bridge := config], leases)
  {
    EnabledKeepsConfigs(configs, bridge, config);
    EnabledKeepsTables(configs, leases, bridge, config);
  }

  lemma EnabledKeepsTables(configs: Configs, leases: LeaseTables, bridge: string, config: BridgeConfig)
    requires TablesOk(configs, leases)
    ensures TablesOk(configs[bridge := config], leases - {bridge})
    ensures bridge in configs && configs[bridge].range == config.range ==> TablesOk(configs[bridge := config], leases)
  {
  }

  lemma EnabledKeepsConfigs(configs: Configs, bridge: string, config: BridgeConfig)
    requires ConfigsOk(configs) && IsRange(config.range)
    requires forall b :: b in configs && b != bridge ==> !PrefixesOverlap(config.range.prefix, configs[b].range.prefix)
    ensures ConfigsOk(configs[bridge := config])
  {
  }

  lemma DisabledKeepsState(configs: Configs, leases: LeaseTables, bridge: string)
    requires StateOk(configs, leases)
    ensures StateOk(configs - {bridge}, leases - {bridge})
  {
  }

  lemma TableKeepsState(configs: Configs, leases: LeaseTables, bridge: string, table: L.Table)
    requires StateOk(configs, leases) && bridge in configs
    requires "" !in table && L.TableOk(table, configs[bridge].range)
    ensures StateOk(configs, leases[bridge := table])
  {
  }

  lemma SubtableKeepsState(configs: Configs, leases: LeaseTables, bridge: string, table: L.Table)
    requires StateOk(configs, leases) && bridge in leases
    requires forall k :: k in table ==> k in leases[bridge] && table[k] == leases[bridge][k]
    ensures StateOk(configs, leases[bridge := table])
  {
    assert L.TableOk(table, configs[bridge].range);
  }

  /** dhcp.json. */
  class Store {
    const script: Script
    var configs: Configs
    var leases: LeaseTables

    constructor (script: Script)
      ensures this.script == script && configs == map[] && leases == map[]
    {
      this.script := script;
      configs, leases := map[], map[];
    }

    method Save(configs: Configs, leases: LeaseTables) returns (ok: bool)
      modifies this, script
      ensures this.configs == if ok then configs else old(this.configs)
      ensures this.leases == if ok then leases else old(this.leases)
      ensures old(script.Calm()) ==> ok && script.Calm()
    {
      var took;
      took, ok := script.Attempt();
      if ok {
        this.configs, this.leases := configs, leases;
      }
    }
  }

  /** Requests and changes that other goroutines make whenever they get the lock. */
  datatype Operation =
    | Configure(bridge: string, setting: Setting)
    | Acquire(bridge: string, request: L.Request)
    | ReleaseLease(bridge: string, key: string)
    | ClearDynamicLeases(bridge: string)
    | DeleteLease(bridge: string, hardware: string)
    | SetStaticLease(bridge: string, hardware: string, address: Address)
    | ServerExited(bridge: string, serial: nat)

  /** A bridge can be configured when nobody uses it and its prefix meets no other. */
  ghost predicate Configurable(configs: Configs, runtimes: Runtimes, bridge: string, setting: Setting) {
    && InterfaceName(bridge) && setting.Sensible() && Attached(runtimes, bridge) == map[]
    && (setting.enabled ==>
          forall b :: b in configs && b != bridge ==>
            !Meet(ParseRange(setting.cidr).value.prefix, configs[b].range.prefix))
  }

  /** An address can be pinned when it is below the pool and no other machine has it. */
  ghost predicate Pinnable(table: L.Table, range: Range, hardware: string, address: Address) {
    range.InStaticRange(address) && forall k :: k in table && table[k].address == Some(address) ==>
      L.Held(table[k], hardware)
  }

  class Manager {
    const store: Store
    var configs: Configs
    var leases: LeaseTables
    var runtimes: Runtimes
    var nextSerial: nat

    ghost predicate Valid()
      reads this, store
    {
      && StateOk(configs, leases)
      && StateOk(store.configs, store.leases)
      && RuntimesOk(configs, runtimes)
    }

    constructor (store: Store, leases: LeaseTables)
      requires StateOk(store.configs, leases) && StateOk(store.configs, store.leases)
      ensures Valid() && this.store == store && runtimes == map[]
      ensures configs == store.configs && this.leases == leases
    {
      this.store := store;
      configs := store.configs;
      this.leases := leases;
      runtimes := map[];
      nextSerial := 0;
    }

    method Save() returns (ok: bool)
      requires Valid()
      modifies store, store.script
      ensures Valid()
      ensures old(store.script.Calm()) ==> store.script.Calm() && ok
    {
      ok := store.Save(configs, leases);
    }

    // ---- configuration (dhcp.go:161-257)

    method Overlapping(bridge: string, prefix: Prefix) returns (found: bool)
      ensures found <==> exists b :: b in configs && b != bridge && PrefixesOverlap(prefix, configs[b].range.prefix)
    {
      found := false;
      var remaining := configs.Keys;
      while remaining != {}
        invariant remaining <= configs.Keys
        invariant forall b :: b in configs && b !in remaining && b != bridge ==>
                    !PrefixesOverlap(prefix, configs[b].range.prefix)
        decreases remaining
      {
        var other :| other in remaining;
        remaining := remaining - {other};
        if other != bridge && PrefixesOverlap(prefix, configs[other].range.prefix) {
          return true;
        }
      }
    }

    /** dhcp.go:162-231: the checks; the overlap test is exact. */
    method MayConfigure(bridge: string, setting: Setting) returns (allowed: bool)
      requires Valid()
      ensures allowed <==> Configurable(configs, runtimes, bridge, setting)
      ensures allowed && setting.enabled ==>
                && IsRange(setting.Config().range)
                && forall b :: b in configs && b != bridge ==>
                   !PrefixesOverlap(setting.Config().range.prefix, configs[b].range.prefix)
    {
      if !InterfaceName(bridge) || !setting.Sensible() {
        return false;
      }
      if bridge in runtimes && runtimes[bridge].users != {} {
        return false;
      }
      if setting.enabled {
        ParsedIsRange(setting.cidr);
        var prefix := setting.Config().range.prefix;
        var overlap := Overlapping(bridge, prefix);
        forall b | b in configs {
          OverlapIsMeeting(prefix, configs[b].range.prefix);
        }
        if overlap {
          return false;
        }
      }
      allowed := true;
    }

    method Configure(bridge: string, setting: Setting) returns (ok: bool)
      requires Valid()
      modifies this`configs, this`leases, store, store.script
      ensures Valid()
      ensures ok ==> Attached(runtimes, bridge) == map[] && setting.Sensible()
      ensures ok && setting.enabled ==> configs == old(configs)[bridge := setting.Config()]
      ensures ok && !setting.enabled ==> configs == old(configs) - {bridge}
      ensures ok ==>
                var kept := bridge in old(configs) && bridge in configs
                  && old(configs)[bridge].range == configs[bridge].range;
                leases == if kept then old(leases) else old(leases) - {bridge}
      ensures !ok ==> configs == old(configs) && leases == old(leases)
      ensures old(store.script.Calm()) ==>
                store.script.Calm() && (ok <==> Configurable(old(configs), old(runtimes), bridge, setting))
    {
      var allowed := MayConfigure(bridge, setting);
      if !allowed {
        return false;
      }
      var previous, previousLeases := configs, leases;
      if setting.enabled {
        Enable(bridge, setting.Config());
      } else {
        DisabledKeepsState(configs, leases, bridge);
        configs, leases := configs - {bridge}, leases - {bridge};
      }
      ok := store.Save(configs, leases);
      if !ok {
        configs, leases := previous, previousLeases;
      }
    }

    /** dhcp.go:230-238: leases survive when the prefix stays. */
    method Enable(bridge: string, config: BridgeConfig)
      requires Valid() && bridge !in runtimes && IsRange(config.range)
      requires forall b :: b in configs && b != bridge ==>
                 !PrefixesOverlap(config.range.prefix, configs[b].range.prefix)
      modifies this`configs, this`leases
      ensures Valid() && configs == old(configs)[bridge := config]
      ensures leases == if bridge in old(configs) && old(configs)[bridge].range == config.range then old(leases)
              else old(leases) - {bridge}
    {
      EnabledKeepsState(configs, leases, bridge, config);
      if bridge !in configs || configs[bridge].range.prefix != config.range.prefix {
        leases := leases - {bridge};
      }
      configs := configs[bridge := config];
    }

    // ---- leases

    /** A request that a live handler received (dhcp.go:618-663, 729-802). */
    method AcquireLease(bridge: string, request: L.Request) returns (outcome: L.Outcome)
      requires Valid() && bridge in runtimes && runtimes[bridge].running && request.key != ""
      modifies this`leases, store, store.script
      ensures Valid()
      ensures bridge in leases && leases == old(leases)[bridge := leases[bridge]]
      ensures L.AcquireStep(TableOf(old(leases), bridge), leases[bridge], configs[bridge].range, request, outcome)
      ensures old(store.script.Calm()) ==> store.script.Calm() && outcome != L.NotSaved
    {
      hide RuntimeOk, NamesOk;
      var network := runtimes[bridge].handler.value.range;
      var took, saved := store.script.Attempt();
      var after;
      after, outcome := AcquireFrom(TableOf(leases, bridge), network, request, saved);
      TableKeepsState(configs, leases, bridge, after);
      leases := leases[bridge := after];
      if outcome.Granted? {
        store.configs, store.leases := configs, leases;
      }
    }

    static method AcquireFrom(table: L.Table, network: Range, request: L.Request, saved: bool)
      returns (after: L.Table, outcome: L.Outcome)
      requires IsRange(network) && L.TableOk(table, network) && "" !in table && request.key != ""
      ensures L.AcquireStep(table, after, network, request, outcome)
      ensures L.TableOk(after, network) && "" !in after
      ensures outcome == L.NotSaved ==> !saved
    {
      after, outcome := L.Acquire(table, network, request, saved);
      L.AcquireKeepsTable(table, after, network, request, outcome);
      L.OthersUntouched(table, after, network, request, outcome);
    }

    method ReleaseLease(bridge: string, key: string)
      requires Valid()
      modifies this`leases, store, store.script
      ensures Valid()
      ensures leases == if bridge !in old(leases) then old(leases)
                        else old(leases)[bridge := var t := old(leases)[bridge]; if key in t && !t[key].isStatic
                                         then t - {key} else t]
    {
      hide ConfigsOk, TablesOk, RuntimesOk;
      if bridge in leases && key in leases[bridge] && !leases[bridge][key].isStatic {
        var after := L.Release(leases[bridge], key);
        SubtableKeepsState(configs, leases, bridge, after);
        leases := leases[bridge := after];
        var _ := Save();
      }
    }

    method ClearDynamicLeases(bridge: string) returns (ok: bool)
      requires Valid()
      modifies this`leases, store, store.script
      ensures Valid()
      ensures leases == if bridge !in old(leases) then old(leases)
                        else
                          var t := old(leases)[bridge];
                          old(leases)[bridge := map k | k in t && t[k].isStatic :: t[k]]
      ensures old(store.script.Calm()) ==> store.script.Calm() && ok
    {
      if bridge in leases {
        var after := L.ClearDynamic(leases[bridge]);
        SubtableKeepsState(configs, leases, bridge, after);
        leases := leases[bridge := after];
      }
      ok := Save();
    }

    method DeleteLease(bridge: string, hardware: string) returns (ok: bool)
      requires Valid()
      modifies this`leases, store, store.script
      ensures Valid()
      ensures leases == if bridge !in old(leases) then old(leases)
                        else old(leases)[bridge := L.Without(old(leases)[bridge], Lower(hardware))]
      ensures old(store.script.Calm()) ==>
                store.script.Calm() && (ok <==> L.HasLease(TableOf(old(leases), bridge), Lower(hardware)))
    {
      if bridge !in leases {
        return false;
      }
      var after, found := L.DeleteLease(leases[bridge], hardware);
      SubtableKeepsState(configs, leases, bridge, after);
      leases := leases[bridge := after];
      if !found {
        return false;
      }
      ok := Save();
    }

    method SetStaticLease(bridge: string, hardware: string, address: Address) returns (ok: bool)
      requires Valid()
      modifies this`leases, store, store.script
      ensures Valid()
      ensures bridge !in configs ==> !ok && leases == old(leases)
      ensures bridge in configs ==>
                && bridge in leases && leases == old(leases)[bridge := leases[bridge]]
                && exists pinned: bool :: (ok ==> pinned) &&
                     L.SetStaticStep(TableOf(old(leases), bridge), leases[bridge], configs[bridge].range, hardware,
                                     address, pinned)
      ensures old(store.script.Calm()) ==>
                && store.script.Calm()
                && (ok <==>
                      && bridge in configs
                      && Pinnable(TableOf(old(leases), bridge), configs[bridge].range, hardware, address))
    {
      if bridge !in configs {
        return false;
      }
      var table := TableOf(leases, bridge);
      ghost var order;
      var after, pinned;
      after, pinned, order := L.SetStatic(table, configs[bridge].range, hardware, address);
      L.PinIsStep(table, order, configs[bridge].range, hardware, address);
      L.SetStaticKeepsTable(table, after, configs[bridge].range, hardware, address, pinned);
      TableKeepsState(configs, leases, bridge, after);
      leases := leases[bridge := after];
      if !pinned {
        return false;
      }
      ok := Save();
    }

    // ---- services of a bridge

    /** dhcp.go:570-583: a server that stopped on its own leaves its users behind. */
    method ServerExited(bridge: string, serial: nat)
      requires RuntimesOk(configs, runtimes)
      modifies this`runtimes
      ensures RuntimesOk(configs, runtimes) && SameAttachments(old(runtimes), runtimes)
              && runtimes.Keys == old(runtimes).Keys
      ensures forall b :: b in runtimes && runtimes[b].running ==> runtimes[b] == old(runtimes)[b]
      ensures bridge in runtimes && runtimes[bridge].serial == serial ==> !runtimes[bridge].running
    {
      if bridge in runtimes && runtimes[bridge].serial == serial {
        runtimes := runtimes[bridge := runtimes[bridge].(running := false, handler := None)];
      }
    }

    /** One operation of another goroutine; none of them changes who uses a bridge, or a bridge in use. */
    method Perform(operation: Operation)
      requires Valid()
      modifies this`configs, this`leases, this`runtimes, store, store.script
      ensures Valid() && SameAttachments(old(runtimes), runtimes)
      ensures forall b :: Attached(runtimes, b) != map[] ==>
                b in old(configs) && b in configs && configs[b] == old(configs)[b]
    {
      match operation
      case Configure(bridge, setting) =>
        var _ := Configure(bridge, setting);
      case ServerExited(bridge, serial) =>
        ServerExited(bridge, serial);
      case _ =>
        PerformOnLeases(operation);
    }

    /** The operations that change leases only. */
    method PerformOnLeases(operation: Operation)
      requires Valid() && !operation.Configure? && !operation.ServerExited?
      modifies this`leases, store, store.script
      ensures Valid()
    {
      match operation
      case Acquire(bridge, request) =>
        if bridge in runtimes && runtimes[bridge].running && request.key != "" {
          var _ := AcquireLease(bridge, request);
        }
      case ReleaseLease(bridge, key) =>
        ReleaseLease(bridge, key);
      case ClearDynamicLeases(bridge) =>
        var _ := ClearDynamicLeases(bridge);
      case DeleteLease(bridge, hardware) =>
        var _ := DeleteLease(bridge, hardware);
      case SetStaticLease(bridge, hardware, address) =>
        var _ := SetStaticLease(bridge, hardware, address);
    }

    method PerformAll(operations: seq<Operation>)
      requires Valid()
      modifies this`configs, this`leases, this`runtimes, store, store.script
      ensures Valid() && SameAttachments(old(runtimes), runtimes)
      ensures forall b :: Attached(runtimes, b) != map[] ==>
                b in old(configs) && b in configs && configs[b] == old(configs)[b]
    {
      for k := 0 to |operations|
        invariant Valid() && SameAttachments(old(runtimes), runtimes)
        invariant forall b :: Attached(runtimes, b) != map[] ==>
                    b in old(configs) && b in configs && configs[b] == old(configs)[b]
      {
        Perform(operations[k]);
      }
    }

    /** dhcp.go:376-481; the host, NAT, DNS and listener calls take their fates from the script. */
    method PrepareBridge(bridge: string, machine: VirtualMachine) returns (ok: bool)
      requires RuntimesOk(configs, runtimes)
      modifies this`runtimes, this`nextSerial, store.script
      ensures RuntimesOk(configs, runtimes)
      ensures !ok || bridge !in configs ==> runtimes == old(runtimes)
      ensures bridge !in configs ==> ok
      ensures forall b :: b != bridge ==> Attached(runtimes, b) == Attached(old(runtimes), b)
      ensures ok && bridge in configs ==>
                && bridge in runtimes && runtimes[bridge].running
                && Attached(runtimes, bridge) == Attached(old(runtimes), bridge)[machine.id := machine]
      ensures ok && bridge in configs && configs[bridge].autoDns ==> DnsLabel(machine.name)
      ensures old(store.script.Calm()) ==>
                store.script.Calm() && (ok || (configs[bridge].autoDns && !DnsLabel(machine.name)))
    {
      if bridge !in configs {
        return true;
      }
      if configs[bridge].autoDns && !DnsLabel(machine.name) {
        return false;
      }
      if bridge in runtimes && runtimes[bridge].running {
        ok := Call(configs[bridge].dnsEnabled);
      } else {
        ok := StartServices(configs[bridge]);
      }
      if ok {
        Enlist(bridge, machine);
      }
    }

    /** dhcp.go:407-410, 470-480: the machine becomes a user of the bridge, whose services run. */
    method Enlist(bridge: string, machine: VirtualMachine)
      requires RuntimesOk(configs, runtimes) && bridge in configs
      requires configs[bridge].autoDns ==> DnsLabel(machine.name)
      modifies this`runtimes, this`nextSerial
      ensures RuntimesOk(configs, runtimes)
      ensures forall b :: b != bridge ==> Attached(runtimes, b) == Attached(old(runtimes), b)
      ensures bridge in runtimes && runtimes[bridge].running
      ensures Attached(runtimes, bridge) == Attached(old(runtimes), bridge)[machine.id := machine]
    {
      var runtime;
      if bridge in runtimes {
        runtime := runtimes[bridge];
      } else {
        runtime := Runtime(nextSerial, {}, map[], false, None);
        nextSerial := nextSerial + 1;
      }
      if !runtime.running {
        runtime := runtime.(running := true, handler := Some(configs[bridge]));
      }
      AddUser(bridge, runtime, machine);
    }

    /** dhcp.go:416-469: the server address, NAT, DNS and the packet listener, in this order. */
    method StartServices(config: BridgeConfig) returns (ok: bool)
      modifies store.script
      ensures old(store.script.Calm()) ==> store.script.Calm() && ok
    {
      ok := Call(true);
      if ok {
        ok := Call(config.natEnabled);
      }
      if ok {
        ok := Call(config.dnsEnabled);
      }
      if ok {
        ok := Call(true);
      }
    }

    /** A call to the host or to another service, when it is needed. */
    method Call(needed: bool) returns (ok: bool)
      modifies store.script
      ensures !needed ==> ok
      ensures old(store.script.Calm()) ==> store.script.Calm() && ok
    {
      ok := true;
      if needed {
        var took;
        took, ok := store.script.Attempt();
      }
    }

    method AddUser(bridge: string, runtime: Runtime, machine: VirtualMachine)
      requires RuntimesOk(configs, runtimes) && bridge in configs
      requires runtime.running && runtime.handler == Some(configs[bridge]) && runtime.users == runtime.vms.Keys
      requires forall id :: id in runtime.vms ==> runtime.vms[id].id == id
      requires NamesOk(configs[bridge], runtime.vms) && (configs[bridge].autoDns ==> DnsLabel(machine.name))
      modifies this`runtimes
      ensures RuntimesOk(configs, runtimes)
      ensures runtimes == old(runtimes)[bridge := runtime.With(machine)]
    {
      runtimes := runtimes[bridge := runtime.With(machine)];
    }

    /** dhcp.go:491-528. */
    method ReleaseBridge(bridge: string, id: string)
      requires RuntimesOk(configs, runtimes)
      modifies this`runtimes
      ensures RuntimesOk(configs, runtimes)
      ensures forall b :: b != bridge ==> Attached(runtimes, b) == Attached(old(runtimes), b)
      ensures Attached(runtimes, bridge) == Attached(old(runtimes), bridge) - {id}
    {
      if bridge !in runtimes {
        return;
      }
      var runtime := runtimes[bridge];
      runtime := runtime.(users := runtime.users - {id}, vms := runtime.vms - {id});
      if runtime.users != {} {
        runtimes := runtimes[bridge := runtime];
      } else {
        runtimes := runtimes - {bridge};
      }
    }

    /**
     * dhcp.go:362-374.  The lock is free between two bridges:
     * `meanwhile[i]` is what other goroutines do before bridge i.
     */
    method Prepare(machine: VirtualMachine, meanwhile: seq<seq<Operation>>) returns (ok: bool)
      requires Valid()
      modifies this`configs, this`leases, this`runtimes, this`nextSerial, store, store.script
      ensures Valid()
      ensures forall b :: AttachedBy(machine, old(runtimes), runtimes, b)
      ensures !ok && (forall b :: machine.id !in Attached(old(runtimes), b)) ==>
                SameAttachments(old(runtimes), runtimes)
      ensures meanwhile == [] ==> configs == old(configs)
      ensures ok && meanwhile == [] ==>
                Publishable(configs, machine) && forall b :: b in configs && machine.UsesBridge(b) ==>
                  machine.id in Attached(runtimes, b)
      ensures old(store.script.Calm()) && meanwhile == [] ==>
                store.script.Calm() && (ok || !Publishable(configs, machine))
    {
      var bridges := Bridges(machine);
      var i := 0;
      ok := true;
      while i < |bridges|
        invariant 0 <= i <= |bridges| && Valid()
        invariant AttachedAmong(machine, old(runtimes), runtimes, bridges[..i])
        invariant meanwhile == [] ==>
                    configs == old(configs) && (old(store.script.Calm()) ==> store.script.Calm() && ok)
        invariant meanwhile == [] ==>
                    forall j :: 0 <= j < i && bridges[j] in configs ==>
                      machine.id in Attached(runtimes, bridges[j])
                        && (configs[bridges[j]].autoDns ==> DnsLabel(machine.name))
      {
        if i < |meanwhile| {
          PerformAll(meanwhile[i]);
        }
        ghost var before := runtimes;
        ok := PrepareBridge(bridges[i], machine);
        if !ok {
          Undo(bridges[..i], machine.id);
          UndoneAmong(machine, old(runtimes), before, runtimes, bridges[..i]);
          return;
        }
        PreparedAmong(machine, old(runtimes), before, runtimes, bridges, i);
        i := i + 1;
      }
      assert bridges[..i] == bridges;
      AttachedToUsed(machine, old(runtimes), runtimes, bridges);
    }

    /** Drop a user from the listed bridges: a failed Prepare, and Release. */
    method Undo(bridges: seq<string>, id: string)
      requires RuntimesOk(configs, runtimes)
      modifies this`runtimes
      ensures RuntimesOk(configs, runtimes)
      ensures forall b :: Attached(runtimes, b) == Attached(old(runtimes), b) - (if b in bridges then {id} else {})
    {
      for i := 0 to |bridges|
        invariant RuntimesOk(configs, runtimes)
        invariant forall b ::
                    Attached(runtimes, b) == Attached(old(runtimes), b) - (if b in bridges[..i] then {id} else {})
      {
        ReleaseBridge(bridges[i], id);
        assert bridges[..i + 1] == bridges[..i] + [bridges[i]];
      }
      assert bridges[..|bridges|] == bridges;
    }

    /** dhcp.go:485-489. */
    method Release(machine: VirtualMachine)
      requires RuntimesOk(configs, runtimes)
      modifies this`runtimes
      ensures RuntimesOk(configs, runtimes)
      ensures forall b ::
                Attached(runtimes, b)
                  == Attached(old(runtimes), b) - (if machine.UsesBridge(b) then {machine.id} else {})
    {
      var bridges := Bridges(machine);
      Undo(bridges, machine.id);
    }
  }

  // ---- Auto DNS (dhcp.go:585-616)

  /** An address is published for a lease of a MAC on an interface that the machine attaches to the bridge. */
  ghost predicate Published(runtime: Runtime, table: L.Table, bridge: string, now: int,
                            id: string, nic: nat, client: string, name: string, address: Address)
  {
    && id in runtime.vms && nic < |runtime.vms[id].nics| && client in table
    && name == Lower(runtime.vms[id].name)
    && runtime.vms[id].nics[nic].Attaches(bridge)
    && L.Held(table[client], runtime.vms[id].nics[nic].mac)
    && (table[client].isStatic || table[client].expires > now)
    && table[client].address == Some(address)
  }

  ghost predicate PublishedBy(runtime: Runtime, table: L.Table, bridge: string, now: int, name: string,
                              address: Address)
  {
    exists id, nic: nat, client :: Published(runtime, table, bridge, now, id, nic, client, name, address)
  }

  method AutoDnsRecords(runtime: Runtime, table: L.Table, bridge: string, now: int)
    returns (records: map<string, Address>)
    requires bridge != ""
    ensures forall name :: name in records ==> PublishedBy(runtime, table, bridge, now, name, records[name])
    ensures forall id :: id in runtime.vms && Reachable(table, now, bridge, runtime.vms[id]) ==>
              Lower(runtime.vms[id].name) in records
  {
    var byMac := AddressesByMac(table, now);
    records := map[];
    var remaining := runtime.vms.Keys;
    while remaining != {}
      invariant remaining <= runtime.vms.Keys
      invariant forall name :: name in records ==> PublishedBy(runtime, table, bridge, now, name, records[name])
      invariant forall id :: id in runtime.vms && id !in remaining && Reachable(table, now, bridge, runtime.vms[id]) ==>
                  Lower(runtime.vms[id].name) in records
      decreases remaining
    {
      var id :| id in remaining;
      remaining := remaining - {id};
      var machine := runtime.vms[id];
      var found := FirstLeased(machine, bridge, byMac);
      if found.Some? {
        var nic := found.value;
        var address := byMac[Lower(machine.nics[nic].mac)];
        ghost var client :| Leases(table, now, client, Lower(machine.nics[nic].mac), address);
        assert Published(runtime, table, bridge, now, id, nic, client, Lower(machine.name), address);
        records := records[Lower(machine.name) := address];
      }
    }
  }

  ghost predicate Leases(table: L.Table, now: int, client: string, mac: string, address: Address) {
    && client in table && Lower(table[client].hardware) == mac
    && (table[client].isStatic || table[client].expires > now)
    && table[client].address == Some(address)
  }

  /** Some interface on the bridge holds a live lease. */
  ghost predicate Reachable(table: L.Table, now: int, bridge: string, machine: VirtualMachine) {
    exists nic: nat, client, address ::
      nic < |machine.nics| && machine.nics[nic].Attaches(bridge)
        && Leases(table, now, client, Lower(machine.nics[nic].mac), address)
  }

  method AddressesByMac(table: L.Table, now: int) returns (byMac: map<string, Address>)
    ensures forall mac :: mac in byMac ==> exists client :: Leases(table, now, client, mac, byMac[mac])
    ensures forall mac, client, address :: Leases(table, now, client, mac, address) ==> mac in byMac
  {
    byMac := map[];
    var remaining := table.Keys;
    while remaining != {}
      invariant remaining <= table.Keys
      invariant forall mac :: mac in byMac ==> exists client :: Leases(table, now, client, mac, byMac[mac])
      invariant forall mac, client, address :: client !in remaining && Leases(table, now, client, mac, address) ==>
                  mac in byMac
      decreases remaining
    {
      var client :| client in remaining;
      remaining := remaining - {client};
      var lease := table[client];
      if (lease.isStatic || lease.expires > now) && lease.address.Some? {
        byMac := byMac[Lower(lease.hardware) := lease.address.value];
        assert Leases(table, now, client, Lower(lease.hardware), lease.address.value);
      }
    }
  }

  method FirstLeased(machine: VirtualMachine, bridge: string, byMac: map<string, Address>) returns (found: Option<nat>)
    requires bridge != ""
    ensures found.Some? ==>
              && found.value < |machine.nics| && machine.nics[found.value].Attaches(bridge)
              && Lower(machine.nics[found.value].mac) in byMac
              && forall i :: 0 <= i < found.value && machine.nics[i].Attaches(bridge) ==>
                 Lower(machine.nics[i].mac) !in byMac
    ensures found.None? ==>
              forall i :: 0 <= i < |machine.nics| && machine.nics[i].Attaches(bridge) ==>
                Lower(machine.nics[i].mac) !in byMac
  {
    for i := 0 to |machine.nics|
      invariant forall j :: 0 <= j < i && machine.nics[j].Attaches(bridge) ==> Lower(machine.nics[j].mac) !in byMac
    {
      var nic := machine.nics[i];
      if nic.mode == BridgeMode && nic.bridgeName == bridge && Lower(nic.mac) in byMac {
        return Some(i);
      }
    }
    found := None;
  }

  /** With distinct leases and distinct MAC addresses, two names never publish one address. */
  lemma NamesDoNotShareAddresses(runtime: Runtime, table: L.Table, net: Range, bridge: string, now: int,
                                 left: string, right: string, address: Address)
    requires L.TableOk(table, net)
    requires forall a, b, i, j :: a in runtime.vms && b in runtime.vms && a != b
                                  && 0 <= i < |runtime.vms[a].nics| && 0 <= j < |runtime.vms[b].nics| ==>
               !EqualFold(runtime.vms[a].nics[i].mac, runtime.vms[b].nics[j].mac)
    requires PublishedBy(runtime, table, bridge, now, left, address)
    requires PublishedBy(runtime, table, bridge, now, right, address)
    ensures left == right
  {
  }

  /** Every name that Auto DNS publishes is a hostname label. */
  lemma PublishedNamesAreLabels(configs: Configs, runtimes: Runtimes, table: L.Table, bridge: string, now: int,
                                name: string, address: Address)
    requires RuntimesOk(configs, runtimes) && bridge in runtimes && configs[bridge].autoDns
    requires PublishedBy(runtimes[bridge], table, bridge, now, name, address)
    ensures DnsLabel(name)
  {
    var id, nic: nat, client :| Published(runtimes[bridge], table, bridge, now, id, nic, client, name, address);
    LowerIsLabel(runtimes[bridge].vms[id].name);
  }

  /** Only the machine itself came or went, at bridges it uses, with its present definition. */
  ghost predicate AttachedBy(machine: VirtualMachine, before: Runtimes, after: Runtimes, bridge: string) {
    || Attached(after, bridge) == Attached(before, bridge)
    || (machine.UsesBridge(bridge) && Attached(after, bridge) == Attached(before, bridge)[machine.id := machine])
    || (machine.UsesBridge(bridge) && Attached(after, bridge) == Attached(before, bridge) - {machine.id})
  }

  /** So far the machine was attached to some of the bridges, and nothing else changed. */
  ghost predicate AttachedAmong(machine: VirtualMachine, before: Runtimes, after: Runtimes, bridges: seq<string>) {
    forall b ::
      || Attached(after, b) == Attached(before, b)
      || (b in bridges && Attached(after, b) == Attached(before, b)[machine.id := machine])
  }

  lemma PreparedAmong(machine: VirtualMachine, before: Runtimes, middle: Runtimes, after: Runtimes,
                      bridges: seq<string>, i: nat)
    requires i < |bridges| && AttachedAmong(machine, before, middle, bridges[..i])
    requires forall b :: b != bridges[i] ==> Attached(after, b) == Attached(middle, b)
    requires || Attached(after, bridges[i]) == Attached(middle, bridges[i])
             || Attached(after, bridges[i]) == Attached(middle, bridges[i])[machine.id := machine]
    ensures AttachedAmong(machine, before, after, bridges[..i + 1])
  {
  }

  lemma UndoneAmong(machine: VirtualMachine, before: Runtimes, middle: Runtimes, after: Runtimes, bridges: seq<string>)
    requires AttachedAmong(machine, before, middle, bridges)
    requires forall b :: Attached(after, b) == Attached(middle, b) - (if b in bridges then {machine.id} else {})
    requires forall b :: b in bridges ==> machine.UsesBridge(b)
    ensures forall b :: AttachedBy(machine, before, after, b)
    ensures (forall b :: machine.id !in Attached(before, b)) ==> SameAttachments(before, after)
  {
  }

  lemma AttachedToUsed(machine: VirtualMachine, before: Runtimes, after: Runtimes, bridges: seq<string>)
    requires AttachedAmong(machine, before, after, bridges)
    requires forall b :: b in bridges ==> machine.UsesBridge(b)
    ensures forall b :: AttachedBy(machine, before, after, b)
  {
  }

  // ---- consequences

  /** No address is leased on two bridges, nor twice on one. */
  lemma AddressesAreUnique(configs: Configs, leases: LeaseTables, a: string, k: string, b: string, l: string)
    requires StateOk(configs, leases)
    requires a in leases && k in leases[a] && b in leases && l in leases[b] && (a != b || k != l)
    ensures leases[a][k].address != leases[b][l].address
  {
    if a != b && leases[a][k].address == leases[b][l].address {
      var address := leases[a][k].address.value;
      var left, right := configs[a].range, configs[b].range;
      LeasableAddresses(left, address);
      LeasableAddresses(right, address);
      assert Meet(left.prefix, right.prefix);
      OverlapIsMeeting(left.prefix, right.prefix);
    }
  }

  /** Dynamic leases lie in the pool, static ones strictly below it; server and broadcast are never leased. */
  lemma LeasesAreWellPlaced(configs: Configs, leases: LeaseTables, b: string, k: string)
    requires StateOk(configs, leases) && b in leases && k in leases[b]
    ensures var lease, range := leases[b][k], configs[b].range;
            && lease.address.Some?
            && (if lease.isStatic then lease.address.value < range.poolStart else range.InPool(lease.address.value))
            && range.prefix.Contains(lease.address.value)
            && lease.address.value != range.server && lease.address.value != range.broadcast
  {
    LeasableAddresses(configs[b].range, leases[b][k].address.value);
  }

  // ---- starting up and whole runs

  /** dhcp.go:928-967. */
  method Open(store: Store) returns (manager: Option<Manager>)
    requires StateOk(store.configs, store.leases)
    modifies store, store.script
    ensures StateOk(store.configs, store.leases)
    ensures manager.Some? ==> fresh(manager.value) && manager.value.store == store && manager.value.Valid()
    ensures manager.Some? ==> manager.value.runtimes == map[]
    ensures manager.Some? ==> manager.value.configs == old(store.configs)
    ensures manager.Some? ==>
              manager.value.leases == map b | b in old(store.leases) :: L.Consolidated(old(store.leases)[b])
    ensures old(store.script.Calm()) ==> manager.Some? && store.script.Calm()
  {
    var took, ok := store.script.Attempt();
    if !ok {
      return None;
    }
    var leases, changed := ConsolidateAll(store.leases);
    LoadedState(store.configs, store.leases);
    if changed {
      ok := store.Save(store.configs, leases);
      if !ok {
        return None;
      }
    }
    var created := new Manager(store, leases);
    manager := Some(created);
  }

  method ConsolidateAll(tables: LeaseTables) returns (leases: LeaseTables, changed: bool)
    requires forall b :: b in tables ==> "" !in tables[b]
    ensures leases == map b | b in tables :: L.Consolidated(tables[b])
    ensures changed <==> exists b :: b in tables && leases[b].Keys != tables[b].Keys
  {
    leases, changed := tables, false;
    var remaining := tables.Keys;
    while remaining != {}
      invariant remaining <= tables.Keys
      invariant leases == map b | b in tables :: if b in remaining then tables[b] else L.Consolidated(tables[b])
      invariant changed <==> exists b :: b in tables && leases[b].Keys != tables[b].Keys
      decreases remaining
    {
      var bridge :| bridge in remaining;
      remaining := remaining - {bridge};
      var table, dropped := L.Consolidate(leases[bridge]);
      leases := leases[bridge := table];
      changed := changed || dropped;
    }
  }

  lemma LoadedState(configs: Configs, leases: LeaseTables)
    requires StateOk(configs, leases)
    ensures StateOk(configs, map b | b in leases :: L.Consolidated(leases[b]))
  {
    forall b | b in leases
      ensures L.TableOk(L.Consolidated(leases[b]), configs[b].range)
    {
      L.ConsolidationKeepsTable(leases[b], configs[b].range);
    }
  }

  datatype Command =
    | Do(operation: Operation)
    | Prepare(machine: VirtualMachine, meanwhile: seq<seq<Operation>>)
    | Release(machine: VirtualMachine)
    | Restart

  /** Any run keeps leases, configurations and runtimes consistent, in memory and in the file. */
  method Run(store: Store, commands: seq<Command>) returns (manager: Option<Manager>)
    requires StateOk(store.configs, store.leases)
    modifies store, store.script
    ensures StateOk(store.configs, store.leases)
    ensures manager.Some? ==> manager.value.store == store && manager.value.Valid()
  {
    manager := Open(store);
    for i := 0 to |commands|
      invariant StateOk(store.configs, store.leases)
      invariant manager.Some? ==> fresh(manager.value) && manager.value.store == store && manager.value.Valid()
    {
      if commands[i].Restart? {
        store.script.Restart();
        manager := Open(store);
      } else if manager.Some? && store.script.alive {
        match commands[i] {
          case Do(operation) =>
            manager.value.Perform(operation);
          case Prepare(machine, meanwhile) =>
            var _ := manager.value.Prepare(machine, meanwhile);
          case Release(machine) =>
            manager.value.Release(machine);
        }
      }
    }
  }
}
