/** Virtual machine definitions (internal/vm/vm.go:67-109, 1757-1783). */
module VirtualMachines {
  import opened Text

  datatype Status = Stopped | Running | Stopping | Error

  datatype Mode = NatMode | BridgeMode

  datatype Disk = Disk(id: string, sizeGiB: nat, sourceImage: string)

  datatype Nic = Nic(id: string, mode: Mode, bridgeName: string, mac: string) {
    predicate Attaches(bridge: string) {
      mode == BridgeMode && bridgeName == bridge && bridge != ""
    }
  }

  datatype VirtualMachine =
    VirtualMachine(id: string, name: string, status: Status, pid: int, disks: seq<Disk>, nics: seq<Nic>)
  {
    predicate IsActive() {
      status == Running || status == Stopping
    }

    predicate UsesBridge(bridge: string) {
      exists i :: 0 <= i < |nics| && nics[i].Attaches(bridge)
    }

    predicate HasMac(mac: string) {
      exists i :: 0 <= i < |nics| && EqualFold(nics[i].mac, mac)
    }
  }

  /** vm.go:1762-1770: the distinct bridges of a machine, in the order of its interfaces. */
  method Bridges(machine: VirtualMachine) returns (result: seq<string>)
    ensures forall b :: b in result <==> machine.UsesBridge(b)
    ensures forall i, j :: 0 <= i < j < |result| ==> result[i] != result[j]
  {
    result := [];
    for i := 0 to |machine.nics|
      invariant forall b :: b in result <==> exists j :: 0 <= j < i && machine.nics[j].Attaches(b)
      invariant forall k, l :: 0 <= k < l < |result| ==> result[k] != result[l]
    {
      var nic := machine.nics[i];
      if nic.mode == BridgeMode && nic.bridgeName != "" && nic.bridgeName !in result {
        result := result + [nic.bridgeName];
      }
    }
  }
}
