/**
 * The lease table of one bridge (internal/dhcp/dhcp.go:729-981): how an
 * address is found, renewed, pinned and given back.  `AcquireStep` says what
 * a request may do to the table; the methods are proved against it and the
 * lemmas draw the consequences for whole runs.
 */
module Leases {
  import opened Faults
  import opened Ipv4
  import opened Text

  const LEASE_DURATION: int := 86400

  /** An address text that is not an IPv4 address reads as None. Times are seconds. */
  datatype Lease = Lease(key: string, hardware: string, address: Option<Address>, expires: int, isStatic: bool)

  type Table = map<string, Lease>

  datatype Request = Request(key: string, hardware: string, requested: Option<Address>, strict: bool, now: int) {
    function Normal(): Request {
      this.(hardware := Lower(hardware))
    }
  }

  datatype Reason = Mismatch | AlreadyLeased | OutsidePool | Exhausted

  datatype Outcome = Granted(address: Address) | Refused(reason: Reason) | NotSaved

  // ---- specification

  predicate Placed(lease: Lease, net: Range) {
    && lease.address.Some?
    && (if lease.isStatic then net.InStaticRange(lease.address.value) else net.InPool(lease.address.value))
  }

  predicate Live(lease: Lease, net: Range, now: int) {
    Placed(lease, net) && (lease.isStatic || lease.expires > now)
  }

  function Purged(table: Table, net: Range, now: int): Table {
    map k | k in table && Live(table[k], net, now) :: table[k]
  }

  predicate Held(lease: Lease, hardware: string) {
    EqualFold(lease.hardware, hardware)
  }

  ghost predicate HasLease(table: Table, hardware: string) {
    exists k :: k in table && Held(table[k], hardware)
  }

  function Without(table: Table, hardware: string): Table {
    map k | k in table && !Held(table[k], hardware) :: table[k]
  }

  ghost predicate InUse(table: Table, address: Address) {
    exists k :: k in table && table[k].address == Some(address)
  }

  /** The lease a renewal keeps: the one asked for, else the client's own, else a latest one. */
  ghost predicate Chosen(table: Table, r: Request, c: string) {
    && c in table && Held(table[c], r.hardware)
    && (if exists k :: k in table && Held(table[k], r.hardware) && r.requested.Some? && table[k].address == r.requested
        then table[c].address == r.requested
        else if r.key in table && Held(table[r.key], r.hardware) then c == r.key
        else forall k :: k in table && Held(table[k], r.hardware) ==> table[k].expires <= table[c].expires)
  }

  /** The client is known by its key and hardware address, or by its hardware address alone. */
  predicate Known(table: Table, r: Request) {
    if r.key in table then Held(table[r.key], r.hardware)
    else exists k :: k in table && Held(table[k], r.hardware)
  }

  predicate Conflicts(r: Request, address: Address) {
    r.strict && r.requested.Some? && r.requested != Some(address)
  }

  function Renewed(lease: Lease, r: Request): Lease {
    var expires := if lease.isStatic then lease.expires else r.now + LEASE_DURATION;
    Lease(r.key, r.hardware, lease.address, expires, lease.isStatic)
  }

  function FreshLease(r: Request, address: Address): Lease {
    Lease(r.key, r.hardware, Some(address), r.now + LEASE_DURATION, false)
  }

  ghost predicate RenewStep(live: Table, after: Table, r: Request, outcome: Outcome) {
    exists c :: Chosen(live, r, c) && live[c].address.Some? &&
      var address := live[c].address.value;
      if Conflicts(r, address) then after == live && outcome == Refused(Mismatch)
      else
        && after == Without(live, r.hardware)[r.key := Renewed(live[c], r)]
        && (outcome == Granted(address) || outcome == NotSaved)
  }

  ghost predicate TakeoverStep(live: Table, after: Table, r: Request, outcome: Outcome) {
    && r.key in live && live[r.key].address.Some?
    && var lease := live[r.key];
       var address := lease.address.value;
       if Conflicts(r, address) then after == live && outcome == Refused(Mismatch)
       else
         && after == live[r.key := lease.(expires := r.now + LEASE_DURATION, hardware := r.hardware)]
         && (outcome == Granted(address) || outcome == NotSaved)
  }

  /** `address` is the one the source hands to a client it does not know. */
  ghost predicate LeastFree(live: Table, net: Range, address: Address) {
    && net.InPool(address) && !InUse(live, address)
    && forall a: Address :: net.poolStart <= a < address ==> InUse(live, a)
  }

  ghost predicate AllocateStep(live: Table, after: Table, net: Range, r: Request, outcome: Outcome) {
    var wanted := r.requested.Some? && net.InPool(r.requested.value);
    if wanted && !InUse(live, r.requested.value) then AllocatedStep(live, after, r, r.requested.value, outcome)
    else if r.strict then after == live && outcome == Refused(if wanted then AlreadyLeased else OutsidePool)
    else if forall a: Address :: net.InPool(a) ==> InUse(live, a) then after == live && outcome == Refused(Exhausted)
    else exists a: Address :: LeastFree(live, net, a) && AllocatedStep(live, after, r, a, outcome)
  }

  ghost predicate AllocatedStep(live: Table, after: Table, r: Request, address: Address, outcome: Outcome) {
    || (after == live[r.key := FreshLease(r, address)] && outcome == Granted(address))
    || (after == live && outcome == NotSaved)
  }

  /** Everything one request may do to the table and answer. */
  ghost predicate AcquireStep(before: Table, after: Table, net: Range, request: Request, outcome: Outcome) {
    var r := request.Normal();
    var live := Purged(before, net, r.now);
    if Known(live, r) then RenewStep(live, after, r, outcome)
    else if r.key in live then TakeoverStep(live, after, r, outcome)
    else AllocateStep(live, after, net, r, outcome)
  }

  // ---- the operations

  /** dhcp.go:739-745. */
  method Purge(table: Table, net: Range, now: int) returns (leases: Table)
    ensures leases == Purged(table, net, now)
  {
    leases := table;
    var remaining := table.Keys;
    while remaining != {}
      invariant remaining <= table.Keys
      invariant leases == map k | k in table && (k in remaining || Live(table[k], net, now)) :: table[k]
      decreases remaining
    {
      var client :| client in remaining;
      remaining := remaining - {client};
      if !Live(table[client], net, now) {
        leases := leases - {client};
      }
    }
  }

  /** dhcp.go:729-802; `saved` is the fate of the write that ends a change. */
  method Acquire(table: Table, net: Range, request: Request, saved: bool) returns (after: Table, outcome: Outcome)
    requires IsRange(net) && "" !in table
    ensures AcquireStep(table, after, net, request, outcome)
    ensures outcome == NotSaved ==> !saved
    ensures outcome.Granted? ==> saved
  {
    var r := request.Normal();
    var leases := Purge(table, net, r.now);
    if r.key in leases && Held(leases[r.key], r.hardware) {
      after, outcome := Renew(leases, r, saved);
      return;
    }
    if r.key !in leases {
      var remaining := leases.Keys;
      while remaining != {}
        invariant remaining <= leases.Keys
        invariant forall k :: k in leases && k !in remaining ==> !Held(leases[k], r.hardware)
        decreases remaining
      {
        var client :| client in remaining;
        if Held(leases[client], r.hardware) {
          after, outcome := Renew(leases, r, saved);
          return;
        }
        remaining := remaining - {client};
      }
    }
    if r.key in leases {
      var existing := leases[r.key];
      var address := existing.address.value;
      if r.strict && r.requested.Some? && r.requested.value != address {
        return leases, Refused(Mismatch);
      }
      after := leases[r.key := existing.(expires := r.now + LEASE_DURATION, hardware := r.hardware)];
      outcome := if saved then Granted(address) else NotSaved;
      return;
    }
    RangeLayout(net.prefix);
    after, outcome := Allocate(leases, net, r, saved);
  }

  /** dhcp.go:804-848. */
  method Renew(leases: Table, r: Request, saved: bool) returns (after: Table, outcome: Outcome)
    requires Known(leases, r) && "" !in leases
    requires forall k :: k in leases ==> leases[k].address.Some?
    ensures RenewStep(leases, after, r, outcome)
    ensures outcome == NotSaved ==> !saved
    ensures outcome.Granted? ==> saved
  {
    var selectedKey := Select(leases, r);
    var selected := leases[selectedKey];
    var address := selected.address.value;
    if r.strict && r.requested.Some? && r.requested.value != address {
      return leases, Refused(Mismatch);
    }
    after := leases;
    var remaining := leases.Keys;
    while remaining != {}
      invariant remaining <= leases.Keys
      invariant after == map k | k in leases && (k in remaining || k == selectedKey || !Held(leases[k], r.hardware)) ::
                  leases[k]
      decreases remaining
    {
      var client :| client in remaining;
      remaining := remaining - {client};
      if client != selectedKey && Held(leases[client], r.hardware) {
        after := after - {client};
      }
    }
    if selectedKey != r.key {
      after := after - {selectedKey};
    }
    after := after[r.key := Renewed(selected, r)];
    assert after == Without(leases, r.hardware)[r.key := Renewed(selected, r)];
    outcome := if saved then Granted(address) else NotSaved;
  }

  /** dhcp.go:805-822: the selection loop, over the table in any order. */
  method Select(leases: Table, r: Request) returns (selectedKey: string)
    requires Known(leases, r) && "" !in leases
    requires forall k :: k in leases ==> leases[k].address.Some?
    ensures Chosen(leases, r, selectedKey)
  {
    selectedKey := "";
    var remaining := leases.Keys;
    while remaining != {}
      invariant remaining <= leases.Keys
      invariant selectedKey != "" ==>
                  selectedKey in leases && selectedKey !in remaining && Held(leases[selectedKey], r.hardware)
      invariant forall k :: k in leases && k !in remaining && Held(leases[k], r.hardware) ==>
                  && selectedKey != ""
                  && (r.requested.Some? ==> leases[k].address != r.requested)
                  && (k == r.key ==> selectedKey == r.key)
                  && (selectedKey != r.key ==> leases[k].expires <= leases[selectedKey].expires)
      decreases remaining
    {
      var client :| client in remaining;
      remaining := remaining - {client};
      var lease := leases[client];
      if Held(lease, r.hardware) {
        if r.requested.Some? && lease.address == r.requested {
          return client;
        }
        if selectedKey == "" || (client == r.key && selectedKey != r.key)
           || (selectedKey != r.key && lease.expires > leases[selectedKey].expires) {
          selectedKey := client;
        }
      }
    }
  }

  /** dhcp.go:769-801. */
  method Allocate(leases: Table, net: Range, r: Request, saved: bool) returns (after: Table, outcome: Outcome)
    requires r.key !in leases && net.poolEnd + 1 < SPACE
    requires forall k :: k in leases ==> leases[k].address.Some?
    ensures AllocateStep(leases, after, net, r, outcome)
    ensures outcome == NotSaved ==> !saved
    ensures outcome.Granted? ==> saved
  {
    var used := UsedAddresses(leases);
    var address := None;
    if r.requested.Some? && net.InPool(r.requested.value) {
      if r.requested.value !in used {
        address := r.requested;
      } else if r.strict {
        return leases, Refused(AlreadyLeased);
      }
    } else if r.strict {
      return leases, Refused(OutsidePool);
    }
    if address.None? {
      address := FirstFree(used, net);
    }
    if address.None? {
      return leases, Refused(Exhausted);
    }
    assert r.requested == address || LeastFree(leases, net, address.value);
    after := leases[r.key := FreshLease(r, address.value)];
    if saved {
      return after, Granted(address.value);
    }
    after := after - {r.key};
    assert after == leases;
    outcome := NotSaved;
  }

  method UsedAddresses(leases: Table) returns (used: set<Address>)
    ensures forall a: Address :: a in used <==> InUse(leases, a)
  {
    used := {};
    var remaining := leases.Keys;
    while remaining != {}
      invariant remaining <= leases.Keys
      invariant forall a: Address :: a in used <==>
                  exists k :: k in leases && k !in remaining && leases[k].address == Some(a)
      decreases remaining
    {
      var client :| client in remaining;
      remaining := remaining - {client};
      if leases[client].address.Some? {
        used := used + {leases[client].address.value};
      }
    }
  }

  /** dhcp.go:786-791: the scan of the pool. */
  method FirstFree(used: set<Address>, net: Range) returns (address: Option<Address>)
    requires net.poolEnd + 1 < SPACE
    ensures address.None? ==> forall a: Address :: net.InPool(a) ==> a in used
    ensures address.Some? ==>
              && net.InPool(address.value) && address.value !in used
              && forall a: Address :: net.poolStart <= a < address.value ==> a in used
  {
    var candidate := net.poolStart;
    while candidate <= net.poolEnd
      invariant net.poolStart <= candidate
      invariant forall a: Address :: net.poolStart <= a < candidate ==> a in used
      decreases net.poolEnd + 1 - candidate
    {
      if candidate !in used {
        return Some(candidate);
      }
      candidate := candidate + 1;
    }
    address := None;
  }

  /** dhcp.go:850-861. */
  method Release(table: Table, key: string) returns (after: Table)
    ensures after == if key in table && !table[key].isStatic then table - {key} else table
  {
    after := table;
    if key in after && !after[key].isStatic {
      after := after - {key};
    }
  }

  /** dhcp.go:863-872. */
  method ClearDynamic(table: Table) returns (after: Table)
    ensures after == map k | k in table && table[k].isStatic :: table[k]
  {
    after := table;
    var remaining := table.Keys;
    while remaining != {}
      invariant remaining <= table.Keys
      invariant after == map k | k in table && (k in remaining || table[k].isStatic) :: table[k]
      decreases remaining
    {
      var client :| client in remaining;
      remaining := remaining - {client};
      if !table[client].isStatic {
        after := after - {client};
      }
    }
  }

  /** dhcp.go:874-889; `found` is false where the source reports that there is no such lease. */
  method DeleteLease(table: Table, hardware: string) returns (after: Table, found: bool)
    ensures after == Without(table, Lower(hardware))
    ensures found <==> HasLease(table, Lower(hardware))
  {
    after, found := table, false;
    var remaining := table.Keys;
    while remaining != {}
      invariant remaining <= table.Keys
      invariant after == map k | k in table && (k in remaining || !Held(table[k], Lower(hardware))) :: table[k]
      invariant found <==> exists k :: k in table && k !in remaining && Held(table[k], Lower(hardware))
      decreases remaining
    {
      var client :| client in remaining;
      remaining := remaining - {client};
      if Held(table[client], Lower(hardware)) {
        after := after - {client};
        found := true;
      }
    }
  }

  function MacKey(hardware: string): string {
    "mac:" + Lower(hardware)
  }

  function Pinned(hardware: string, address: Address): Lease {
    Lease(MacKey(hardware), Lower(hardware), Some(address), 0, true)
  }

  /** What pinning an address may do: a refusal can already have dropped leases of that hardware address. */
  ghost predicate SetStaticStep(before: Table, after: Table, net: Range, hardware: string, address: Address, ok: bool) {
    var taken := exists k :: k in before && !Held(before[k], Lower(hardware)) && before[k].address == Some(address);
    if !net.InStaticRange(address) then !ok && after == before
    else if taken then
      && !ok
      && (forall k :: k in after ==> k in before && after[k] == before[k])
      && (forall k :: k in before && !Held(before[k], Lower(hardware)) ==> k in after)
    else
      && ok
      && after == Without(before, Lower(hardware))[MacKey(hardware) := Pinned(hardware, address)]
  }

  /** An order in which the keys of a table can come. */
  ghost predicate Lists(order: seq<string>, keys: set<string>) {
    && (forall k :: k in order <==> k in keys)
    && (forall i, j :: 0 <= i < j < |order| ==> order[i] != order[j])
  }

  /**
   * dhcp.go:915-923 over an explicit order of the keys: the machine's own
   * leases are deleted on the way, and a lease of another machine on the
   * address ends the loop at once.
   */
  function Sweep(table: Table, order: seq<string>, hw: string, address: Address): (Table, bool) {
    if order == [] then (table, true)
    else if order[0] in table && Held(table[order[0]], hw) then Sweep(table - {order[0]}, order[1..], hw, address)
    else if order[0] in table && table[order[0]].address == Some(address) then (table, false)
    else Sweep(table, order[1..], hw, address)
  }

  /** dhcp.go:906-924 when the map is iterated in this order. */
  function PinIn(table: Table, order: seq<string>, net: Range, hardware: string, address: Address): (Table, bool) {
    if !net.InStaticRange(address) then (table, false)
    else
      var swept := Sweep(table, order, Lower(hardware), address);
      if swept.1 then (swept.0[MacKey(hardware) := Pinned(hardware, address)],
                       true) else swept
  }

  /** dhcp.go:906-924; `order` is the order the runtime happens to choose. */
  method SetStatic(table: Table, net: Range, hardware: string, address: Address)
    returns (after: Table, ok: bool, ghost order: seq<string>)
    ensures Lists(order, table.Keys) && (after, ok) == PinIn(table, order, net, hardware, address)
  {
    after := table;
    if !net.InStaticRange(address) {
      order := AnyOrder(table.Keys);
      return after, false, order;
    }
    var hw := Lower(hardware);
    var remaining := table.Keys;
    order := [];
    while remaining != {}
      invariant remaining <= table.Keys && remaining <= after.Keys
      invariant Lists(order, table.Keys - remaining) && Sweep(table, order, hw, address) == (after, true)
      decreases remaining
    {
      var client :| client in remaining;
      remaining := remaining - {client};
      SweepOn(table, order, [client], hw, address);
      order := order + [client];
      if Held(after[client], hw) {
        after := after - {client};
      } else if after[client].address == Some(address) {
        ghost var rest := AnyOrder(remaining);
        OneOrder(order, rest, table.Keys - remaining, remaining);
        SweepOn(table, order, rest, hw, address);
        order := order + rest;
        return after, false, order;
      }
    }
    after := after[MacKey(hardware) := Pinned(hardware, address)];
    ok := true;
  }

  lemma OneOrder(left: seq<string>, right: seq<string>, a: set<string>, b: set<string>)
    requires Lists(left, a) && Lists(right, b) && a !! b
    ensures Lists(left + right, a + b)
  {
    forall i, j | 0 <= i < j < |left + right|
      ensures (left + right)[i] != (left + right)[j]
    {
      if i < |left| <= j {
        assert left[i] in a && right[j - |left|] in b;
      }
    }
  }

  lemma {:induction false} AnyOrder(keys: set<string>) returns (order: seq<string>)
    ensures Lists(order, keys)
    decreases keys
  {
    order := [];
    if k :| k in keys {
      var rest := AnyOrder(keys - {k});
      order := [k] + rest;
    }
  }

  /** The loop goes on after the first keys unless it ended there. */
  lemma {:induction false} SweepOn(table: Table, first: seq<string>, rest: seq<string>, hw: string, address: Address)
    ensures var swept := Sweep(table, first, hw, address);
            Sweep(table, first + rest, hw, address) == if swept.1 then Sweep(swept.0, rest, hw, address) else swept
    decreases first
  {
    if first == [] {
      assert first + rest == rest;
    } else {
      assert (first + rest)[1..] == first[1..] + rest;
      SweepOn(if first[0] in table && Held(table[first[0]], hw) then table - {first[0]} else table, first[1..], rest,
              hw, address);
    }
  }

  // ---- loading a file (dhcp.go:945-981)

  /** The entry of a hardware address that is greatest by expiry, then by smaller key. */
  predicate Canonical(table: Table, hardware: string, c: string) {
    && c in table && Held(table[c], hardware)
    && forall k :: k in table && Held(table[k], hardware) && k != c ==>
         table[k].expires < table[c].expires || (table[k].expires == table[c].expires && Before(c, k))
  }

  function Lowered(lease: Lease): Lease {
    if lease.hardware == "" then lease else lease.(hardware := Lower(lease.hardware))
  }

  function Consolidated(table: Table): Table {
    map k | k in table && (table[k].hardware == "" || Canonical(table, table[k].hardware, k)) :: Lowered(table[k])
  }

  /** dhcp.go:969-981. */
  method CanonicalLeaseClient(leases: Table, hardware: string) returns (selectedKey: string)
    requires "" !in leases
    ensures (exists k :: k in leases && Held(leases[k], hardware)) <==> selectedKey != ""
    ensures selectedKey != "" ==> Canonical(leases, hardware, selectedKey)
  {
    selectedKey := "";
    var remaining := leases.Keys;
    while remaining != {}
      invariant remaining <= leases.Keys
      invariant selectedKey != "" ==>
                  selectedKey in leases && selectedKey !in remaining && Held(leases[selectedKey], hardware)
      invariant forall k :: k in leases && k !in remaining && Held(leases[k], hardware) && k != selectedKey ==>
                  && selectedKey != ""
                  && (|| leases[k].expires < leases[selectedKey].expires
                      || (leases[k].expires == leases[selectedKey].expires && Before(selectedKey, k)))
      decreases remaining
    {
      var client :| client in remaining;
      remaining := remaining - {client};
      if Held(leases[client], hardware) {
        ghost var previous := selectedKey;
        if selectedKey == "" || leases[client].expires > leases[selectedKey].expires
           || (leases[client].expires == leases[selectedKey].expires && Before(client, selectedKey)) {
          selectedKey := client;
          forall k | k in leases && Before(previous, k) && Before(client, previous)
            ensures Before(client, k)
          {
            BeforeTransitive(client, previous, k);
          }
        } else {
          BeforeTrichotomy(client, selectedKey);
        }
      }
    }
  }

  /** The consolidation loop, in any iteration order over the map it deletes from. */
  method Consolidate(table: Table) returns (leases: Table, changed: bool)
    requires "" !in table
    ensures leases == Consolidated(table)
    ensures changed <==> leases.Keys != table.Keys
  {
    leases, changed := table, false;
    var remaining := table.Keys;
    while remaining != {}
      invariant remaining <= table.Keys
      invariant leases == PartlyConsolidated(table, remaining)
      invariant changed <==> leases.Keys != table.Keys
      decreases remaining
    {
      var client :| client in remaining;
      ghost var visited := remaining;
      remaining := remaining - {client};
      assert visited == remaining + {client};
      ConsolidateOne(table, remaining, client);
      var lease := leases[client];
      if lease.hardware != "" {
        var canonical := CanonicalLeaseClient(leases, Lower(lease.hardware));
        SameCanonical(table, visited, client, canonical);
        if canonical != "" && canonical != client {
          leases, changed := leases - {client}, true;
        } else {
          leases := leases[client := Lowered(lease)];
        }
      }
    }
    assert leases == Consolidated(table);
  }

  lemma ConsolidateOne(table: Table, remaining: set<string>, client: string)
    requires client in table && client !in remaining
    ensures var before := PartlyConsolidated(table, remaining + {client});
            && client in before && before[client] == table[client]
            && PartlyConsolidated(table, remaining) ==
               if table[client].hardware == "" then before
               else if Canonical(table, table[client].hardware, client) then before[client := Lowered(table[client])]
               else before - {client}
  {
  }

  function PartlyConsolidated(table: Table, remaining: set<string>): Table {
    map k | k in table && (k in remaining || table[k].hardware == "" || Canonical(table, table[k].hardware, k)) ::
      if k in remaining then table[k] else Lowered(table[k])
  }

  /** Deleting other entries never changes which entry of a hardware address is canonical. */
  lemma SameCanonical(table: Table, remaining: set<string>, client: string, canonical: string)
    requires client in table && client in remaining && table[client].hardware != "" && "" !in table
    requires canonical != "" ==>
               Canonical(PartlyConsolidated(table, remaining), Lower(table[client].hardware), canonical)
    requires canonical == "" ==>
               forall k :: k in PartlyConsolidated(table, remaining) ==>
                 !Held(PartlyConsolidated(table, remaining)[k], Lower(table[client].hardware))
    ensures canonical == client <==> Canonical(table, table[client].hardware, client)
    ensures canonical != ""
  {
    var hw := table[client].hardware;
    LowerIdempotent(hw);
    var leases := PartlyConsolidated(table, remaining);
    assert Held(leases[client], Lower(hw));
    var best := GreatestEntry(table, hw, client, table.Keys);
    assert forall k :: k in table && Held(table[k], hw) ==> EqualFold(table[k].hardware, hw);
    assert Canonical(table, table[best].hardware, best);
    assert best in leases;
    forall k | k in leases
      ensures leases[k].expires == table[k].expires && (Held(leases[k], Lower(hw)) <==> Held(table[k], hw))
    {
      LowerIdempotent(table[k].hardware);
    }
    BeforeTrichotomy(best, canonical);
    BeforeTrichotomy(best, client);
  }

  /** A hardware address with a lease has a greatest entry. */
  lemma {:induction false} GreatestEntry(table: Table, hardware: string, some: string, among: set<string>)
    returns (best: string)
    requires some in table && Held(table[some], hardware) && some in among && among <= table.Keys
    ensures best in among && Held(table[best], hardware)
    ensures forall k :: k in among && Held(table[k], hardware) && k != best ==>
              table[k].expires < table[best].expires || (table[k].expires == table[best].expires && Before(best, k))
    decreases among
  {
    best := some;
    if k :| k in among && k != some {
      best := GreatestEntry(table, hardware, some, among - {k});
      if Held(table[k], hardware) {
        BeforeTrichotomy(k, best);
        if table[k].expires > table[best].expires || (table[k].expires == table[best].expires && Before(k, best)) {
          forall l | l in among && Before(best, l) && Before(k, best)
            ensures Before(k, l)
          {
            BeforeTransitive(k, best, l);
          }
          best := k;
        }
      }
    }
  }

  // ---- consequences

  /** Every entry is where its kind belongs and no address is leased twice. */
  ghost predicate TableOk(table: Table, net: Range) {
    && (forall k :: k in table ==> Placed(table[k], net))
    && (forall k, l :: k in table && l in table && k != l ==> table[k].address != table[l].address)
  }

  /** A request keeps the table's invariant, whatever it asks and whether or not it is saved. */
  lemma AcquireKeepsTable(before: Table, after: Table, net: Range, request: Request, outcome: Outcome)
    requires TableOk(before, net) && AcquireStep(before, after, net, request, outcome)
    ensures TableOk(after, net)
  {
    var r := request.Normal();
    var live := Purged(before, net, r.now);
    if Known(live, r) {
      RenewKeepsTable(live, after, net, r, outcome);
    } else if r.key !in live {
      AllocateKeepsTable(live, after, net, r, outcome);
    }
  }

  lemma RenewKeepsTable(live: Table, after: Table, net: Range, r: Request, outcome: Outcome)
    requires TableOk(live, net) && RenewStep(live, after, r, outcome)
    ensures TableOk(after, net)
  {
    var c :| Chosen(live, r, c) && live[c].address.Some? &&
             (after == live || after == Without(live, r.hardware)[r.key := Renewed(live[c], r)]);
  }

  lemma AllocateKeepsTable(live: Table, after: Table, net: Range, r: Request, outcome: Outcome)
    requires TableOk(live, net) && AllocateStep(live, after, net, r, outcome)
    ensures TableOk(after, net)
  {
  }

  /** No one else's entry changes, and nothing appears but the client's own. */
  lemma OthersUntouched(before: Table, after: Table, net: Range, request: Request, outcome: Outcome)
    requires AcquireStep(before, after, net, request, outcome)
    ensures forall k :: k in before && Live(before[k], net, request.now)
                        && k != request.key && !Held(before[k], request.hardware) ==>
              k in after && after[k] == before[k]
    ensures forall k :: k in after && k != request.key ==> k in before && after[k] == before[k]
  {
    LowerIdempotent(request.hardware);
  }

  /** A granted address is the one demanded, and is afterwards the client's live lease. */
  lemma GrantedIsLeased(before: Table, after: Table, net: Range, request: Request, address: Address)
    requires TableOk(before, net) && AcquireStep(before, after, net, request, Granted(address))
    ensures request.strict && request.requested.Some? ==> request.requested == Some(address)
    ensures request.key in after && after[request.key].address == Some(address)
    ensures Held(after[request.key], request.hardware)
    ensures Live(after[request.key], net, request.now)
    ensures !after[request.key].isStatic ==> after[request.key].expires == request.now + LEASE_DURATION
  {
  }

  /** A renewal leaves its hardware address with one lease. */
  lemma RenewalLeavesOne(before: Table, after: Table, net: Range, request: Request, address: Address)
    requires AcquireStep(before, after, net, request, Granted(address))
    requires Known(Purged(before, net, request.now), request.Normal())
    ensures forall k :: k in after && Held(after[k], request.hardware) ==> k == request.key
  {
  }

  /** An unknown client that demands nothing in particular gets the least free pool address. */
  lemma NewClientGetsLeastFree(before: Table, after: Table, net: Range, request: Request, address: Address)
    requires AcquireStep(before, after, net, request, Granted(address))
    requires var live := Purged(before, net, request.now);
             !Known(live, request.Normal()) && request.key !in live
    requires !request.strict && request.requested.None?
    ensures LeastFree(Purged(before, net, request.now), net, address)
  {
  }

  lemma SetStaticKeepsTable(before: Table, after: Table, net: Range, hardware: string, address: Address, ok: bool)
    requires TableOk(before, net) && SetStaticStep(before, after, net, hardware, address, ok)
    ensures TableOk(after, net)
    ensures ok <==> net.InStaticRange(address)
                    && forall k :: k in before && before[k].address == Some(address) ==> Held(before[k], hardware)
    ensures ok ==> forall k :: k in after && Held(after[k], hardware) ==>
                     k == MacKey(hardware) && after[k].isStatic && after[k].address == Some(address)
  {
    LowerIdempotent(hardware);
  }

  /**
   * Every order deletes only leases of the machine, and all of them unless the
   * address is taken, which no order misses.
   */
  lemma {:induction false} SweepDrops(table: Table, order: seq<string>, hw: string, address: Address)
    requires forall i, j :: 0 <= i < j < |order| ==> order[i] != order[j]
    ensures var (after, free) := Sweep(table, order, hw, address);
            && (forall k :: k in after ==> k in table && after[k] == table[k])
            && (forall k :: k in table && (k !in order || !Held(table[k], hw)) ==> k in after)
            && (free <==> forall k :: k in order && k in table && !Held(table[k], hw) ==>
                table[k].address != Some(address))
            && (free ==> forall k :: k in order && k in after ==> !Held(after[k], hw))
    decreases order
  {
    if order != [] {
      var k := order[0];
      var next := if k in table && Held(table[k], hw) then table - {k} else table;
      if next != table || k !in table || table[k].address != Some(address) {
        SweepDrops(next, order[1..], hw, address);
        assert order == [k] + order[1..];
      }
    }
  }

  /** Whatever the order, a pin does to the table what `SetStaticStep` says. */
  lemma PinIsStep(table: Table, order: seq<string>, net: Range, hardware: string, address: Address)
    requires Lists(order, table.Keys)
    ensures var (after, ok) := PinIn(table, order, net, hardware, address);
            SetStaticStep(table, after, net, hardware, address, ok)
  {
    SweepDrops(table, order, Lower(hardware), address);
    var swept := Sweep(table, order, Lower(hardware), address);
    if swept.1 {
      assert swept.0 == Without(table, Lower(hardware));
    }
  }

  /** The loop deletes leases of the machine until it meets another key. */
  lemma {:induction false} SweepHeld(table: Table, order: seq<string>, hw: string, address: Address)
    requires forall k :: k in order ==> k in table && Held(table[k], hw)
    requires forall i, j :: 0 <= i < j < |order| ==> order[i] != order[j]
    ensures Sweep(table, order, hw, address) == (map k | k in table && k !in order :: table[k], true)
    decreases order
  {
    if order == [] {
      assert (map k | k in table && k !in order :: table[k]) == table;
    } else {
      assert order == [order[0]] + order[1..];
      SweepHeld(table - {order[0]}, order[1..], hw, address);
      var rest := table - {order[0]};
      assert (map k | k in rest && k !in order[1..] :: rest[k]) == map k | k in table && k !in order :: table[k];
    }
  }

  /** Some order meets all leases of the machine before any other. */
  lemma OwnLeasesFirst(table: Table, hw: string) returns (own: seq<string>, others: seq<string>)
    ensures Lists(own + others, table.Keys)
    ensures forall k :: k in own <==> k in table && Held(table[k], hw)
    ensures forall i, j :: 0 <= i < j < |own| ==> own[i] != own[j]
    ensures forall i, j :: 0 <= i < j < |others| ==> others[i] != others[j]
  {
    var mine := set k | k in table && Held(table[k], hw);
    own := AnyOrder(mine);
    others := AnyOrder(table.Keys - mine);
    OneOrder(own, others, mine, table.Keys - mine);
    assert mine + (table.Keys - mine) == table.Keys;
  }

  /** A refused pin on a static address can lose every lease of the machine. */
  lemma RefusedPinCanLose(table: Table, net: Range, hardware: string, address: Address) returns (order: seq<string>)
    requires net.InStaticRange(address)
    requires exists k :: k in table && !Held(table[k], Lower(hardware)) && table[k].address == Some(address)
    ensures Lists(order, table.Keys)
            && PinIn(table, order, net, hardware, address) == (Without(table, Lower(hardware)), false)
  {
    var hw := Lower(hardware);
    var own, others := OwnLeasesFirst(table, hw);
    order := own + others;
    SweepHeld(table, own, hw, address);
    var left := Without(table, hw);
    assert (map k | k in table && k !in own :: table[k]) == left;
    SweepOn(table, own, others, hw, address);
    var taken :| taken in table && !Held(table[taken], hw) && table[taken].address == Some(address);
    assert taken in order && taken in left;
    SweepMeets(left, others, hw, address, taken);
  }

  /** Where the machine has no lease, the loop changes nothing before it meets the taken address. */
  lemma SweepMeets(table: Table, order: seq<string>, hw: string, address: Address, taken: string)
    requires forall i, j :: 0 <= i < j < |order| ==> order[i] != order[j]
    requires forall k :: k in table ==> !Held(table[k], hw)
    requires taken in order && taken in table && table[taken].address == Some(address)
    ensures Sweep(table, order, hw, address) == (table, false)
  {
    SweepDrops(table, order, hw, address);
    assert Sweep(table, order, hw, address).0 == table;
  }

  ghost predicate Unpinnable(table: Table, net: Range, hardware: string, address: Address) {
    || !net.InStaticRange(address)
    || exists k :: k in table && !Held(table[k], Lower(hardware)) && table[k].address == Some(address)
  }

  /**
   * A pin is refused in every order or in none; a refused one leaves the
   * table as it was in every order exactly when the machine holds no lease
   * or the address is outside the static range.
   */
  lemma RefusedPin(table: Table, net: Range, hardware: string, address: Address)
    ensures forall order :: Lists(order, table.Keys) ==>
              (PinIn(table, order, net, hardware, address).1 <==> !Unpinnable(table, net, hardware, address))
    ensures Unpinnable(table, net, hardware, address) ==>
              ((forall order :: Lists(order, table.Keys) ==> PinIn(table, order, net, hardware, address).0 == table)
               <==> !HasLease(table, Lower(hardware)) || !net.InStaticRange(address))
  {
    var hw := Lower(hardware);
    forall order | Lists(order, table.Keys)
      ensures PinIn(table, order, net, hardware, address).1 <==> !Unpinnable(table, net, hardware, address)
      ensures Unpinnable(table, net, hardware, address) && !HasLease(table, hw) ==>
                PinIn(table, order, net, hardware, address).0 == table
    {
      PinIsStep(table, order, net, hardware, address);
      SweepDrops(table, order, hw, address);
      if !HasLease(table, hw) {
        assert Sweep(table, order, hw, address).0 == table;
      }
    }
    if net.InStaticRange(address) && Unpinnable(table, net, hardware, address) && HasLease(table, hw) {
      var order := RefusedPinCanLose(table, net, hardware, address);
      assert Without(table, hw) != table;
    }
  }

  /** On any network: machine b has the static address, machine a a pool lease, and a loses it to a refused pin. */
  lemma RefusedPinLosesALease(net: Range, pinned: Address, dynamic: Address) returns (table: Table, order: seq<string>)
    requires net.InStaticRange(pinned) && net.InPool(dynamic)
    ensures TableOk(table, net) && Lists(order, table.Keys) && HasLease(table, "a")
    ensures PinIn(table, order, net, "a", pinned) == (table - {"a"}, false) && table - {"a"} != table
  {
    table := map["a" := Lease("a", "a", Some(dynamic), 1, false), "b" := Lease("b", "b", Some(pinned), 0, true)];
    order := ["a", "b"];
    assert Lower("a") == "a" && Lower("b") == "b";
    assert "a" in table && Held(table["a"], "a");
    var left := table - {"a"};
    assert order[1..] == ["b"] && "b" in left && left["b"].address == Some(pinned);
    assert Sweep(left, ["b"], "a", pinned) == (left, false);
  }

  lemma ConsolidationKeepsTable(table: Table, net: Range)
    requires TableOk(table, net)
    ensures TableOk(Consolidated(table), net)
  {
  }

  /** Loading keeps one lease per hardware address, the greatest, and drops no hardware address. */
  lemma ConsolidationIsCanonical(table: Table)
    ensures var leases := Consolidated(table);
            && (forall k, l ::
                k in leases && l in leases && leases[k].hardware != ""
                  && EqualFold(leases[k].hardware, leases[l].hardware) ==>
                  k == l)
            && (forall k :: k in table && table[k].hardware != "" ==>
                  exists c :: c in leases && Canonical(table, table[k].hardware, c))
            && (forall k :: k in leases ==> k in table && leases[k] == Lowered(table[k]))
  {
    var leases := Consolidated(table);
    forall k, l | k in leases && l in leases && leases[k].hardware != ""
      && EqualFold(leases[k].hardware, leases[l].hardware)
      ensures k == l
    {
      LowerIdempotent(table[k].hardware);
      LowerIdempotent(table[l].hardware);
      BeforeTrichotomy(k, l);
    }
    forall k | k in table && table[k].hardware != ""
      ensures exists c :: c in leases && Canonical(table, table[k].hardware, c)
    {
      var best := GreatestEntry(table, table[k].hardware, k, table.Keys);
      assert Canonical(table, table[k].hardware, best);
      assert Canonical(table, table[best].hardware, best);
      assert best in leases;
    }
  }

  /** Exhaustion is reported exactly to unknown, unspecific clients of a full pool, which needs a lease per address. */
  lemma ExhaustionIsFullPool(before: Table, after: Table, net: Range, request: Request, outcome: Outcome)
    requires IsRange(net) && TableOk(before, net) && AcquireStep(before, after, net, request, outcome)
    ensures var live := Purged(before, net, request.now);
            && (outcome == Refused(Exhausted) <==>
                  && !Known(live, request.Normal()) && request.key !in live && !request.strict
                  && forall a: Address :: net.InPool(a) ==> InUse(live, a))
            && (outcome == Refused(Exhausted) ==> |live| >= net.poolEnd - net.poolStart + 1)
  {
    var live := Purged(before, net, request.now);
    RangeLayout(net.prefix);
    if outcome == Refused(Exhausted) {
      var keys := HoldersOf(live, net, net.poolEnd - net.poolStart + 1);
      assert keys <= live.Keys;
      SubsetNotLarger(keys, live.Keys);
    }
  }

  /** Pigeonhole: n addresses in use are held under n different keys. */
  lemma {:induction false} HoldersOf(live: Table, net: Range, n: nat) returns (keys: set<string>)
    requires net.poolStart + n <= net.poolEnd + 1
    requires forall a: Address :: net.InPool(a) ==> InUse(live, a)
    ensures |keys| == n && keys <= live.Keys
    ensures forall k :: k in keys ==> live[k].address.Some? && live[k].address.value < net.poolStart + n
  {
    if n == 0 {
      keys := {};
    } else {
      keys := HoldersOf(live, net, n - 1);
      var last: Address := net.poolStart + n - 1;
      assert InUse(live, last);
      var k :| k in live && live[k].address == Some(last);
      keys := keys + {k};
    }
  }

  lemma {:induction false} SubsetNotLarger(small: set<string>, large: set<string>)
    requires small <= large
    ensures |small| <= |large|
  {
    assert large == small + (large - small);
  }

  // ---- whole runs of requests

  ghost predicate AcquireRun(tables: seq<Table>, net: Range, requests: seq<Request>, outcomes: seq<Outcome>) {
    && |requests| == |outcomes| && |tables| == |requests| + 1
    && forall i :: 0 <= i < |requests| ==> AcquireStep(tables[i], tables[i + 1], net, requests[i], outcomes[i])
  }

  /** The table invariant holds throughout any run of requests. */
  lemma {:induction false} RunKeepsTable(tables: seq<Table>, net: Range, requests: seq<Request>, outcomes: seq<Outcome>,
                                         n: nat)
    requires AcquireRun(tables, net, requests, outcomes) && TableOk(tables[0], net) && n <= |requests|
    ensures TableOk(tables[n], net)
  {
    if n > 0 {
      RunKeepsTable(tables, net, requests, outcomes, n - 1);
      AcquireKeepsTable(tables[n - 1], tables[n], net, requests[n - 1], outcomes[n - 1]);
    }
  }

  ghost predicate Stranger(request: Request, client: Request, lease: Lease) {
    && request.key != client.key && !EqualFold(request.hardware, client.hardware)
    && (lease.isStatic || request.now < lease.expires)
  }

  /** Requests of other clients, before it expires, leave a lease as it is. */
  lemma {:induction false} LeaseSurvives(tables: seq<Table>, net: Range, requests: seq<Request>, outcomes: seq<Outcome>,
                                         client: Request, lease: Lease, n: nat)
    requires AcquireRun(tables, net, requests, outcomes) && n <= |requests|
    requires client.key in tables[0] && tables[0][client.key] == lease
    requires Placed(lease, net) && Held(lease, client.hardware)
    requires forall i :: 0 <= i < n ==> Stranger(requests[i], client, lease)
    ensures client.key in tables[n] && tables[n][client.key] == lease
  {
    if n > 0 {
      LeaseSurvives(tables, net, requests, outcomes, client, lease, n - 1);
      assert Stranger(requests[n - 1], client, lease);
      OthersUntouched(tables[n - 1], tables[n], net, requests[n - 1], outcomes[n - 1]);
    }
  }

  /**
   * Lease stability: after a client acquired an address, and while only
   * strangers made requests, its next DISCOVER (nothing requested) or REQUEST
   * for that address is answered with the same address, unless the lease file
   * cannot be written.
   */
  lemma LeaseStability(tables: seq<Table>, net: Range, requests: seq<Request>, outcomes: seq<Outcome>, address: Address)
    requires AcquireRun(tables, net, requests, outcomes) && TableOk(tables[0], net) && |requests| >= 2
    requires outcomes[0] == Granted(address)
    requires var client, again := requests[0], requests[|requests| - 1];
             && again.key == client.key && EqualFold(again.hardware, client.hardware)
             && ((again.requested == None && !again.strict) || again.requested == Some(address))
             && again.now < client.now + LEASE_DURATION
    requires forall i :: 1 <= i < |requests| - 1 ==>
               && requests[i].key != requests[0].key && !EqualFold(requests[i].hardware, requests[0].hardware)
               && requests[i].now < requests[0].now + LEASE_DURATION
    ensures outcomes[|requests| - 1] == Granted(address) || outcomes[|requests| - 1] == NotSaved
  {
    var client, last := requests[0], |requests| - 1;
    GrantedIsLeased(tables[0], tables[1], net, client, address);
    var lease := tables[1][client.key];
    LeaseSurvives(tables[1..], net, requests[1..], outcomes[1..], client, lease, last - 1);
    assert tables[1..][last - 1] == tables[last];
    RunKeepsTable(tables, net, requests, outcomes, last);
    HolderIsServed(tables[last], tables[last + 1], net, requests[last], outcomes[last], address);
  }

  /** A client that holds a live lease under its key is served that lease. */
  lemma HolderIsServed(before: Table, after: Table, net: Range, request: Request, outcome: Outcome, address: Address)
    requires TableOk(before, net) && AcquireStep(before, after, net, request, outcome)
    requires request.key in before && Held(before[request.key], request.hardware)
    requires Live(before[request.key], net, request.now) && before[request.key].address == Some(address)
    requires request.requested == None || request.requested == Some(address)
    ensures outcome == Granted(address) || outcome == NotSaved
  {
  }
}
