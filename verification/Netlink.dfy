/**
 * The host's links and the netlink calls on them
 * (internal/hostnet/provider_linux.go:774-852).  Every call takes its fate
 * from the script; a failing one may still have had its effect.
 */
module Netlink {
  import opened Faults

  datatype Route =
    Route(destination: string, gateway: string, source: string, table: int, priority: int, scope: int, protocol: int,
          kind: int)

  /** The part of a link that a snapshot covers; `master` is "" for none. */
  datatype Link = Link(isBridge: bool, up: bool, mtu: int, master: string, addresses: set<string>, routes: set<Route>)

  type Links = map<string, Link>

  const DEFAULT_MTU: int := 1500
  const NEW_BRIDGE: Link := Link(true, false, DEFAULT_MTU, "", {}, {})

  datatype Change =
    | CreateBridge(bridge: string)
    | DeleteBridge(bridge: string)
    | SetBridgeUp(bridge: string)
    | SetBridgeDown(bridge: string)
    | AttachInterface(bridge: string, interface: string, migrate: bool)
    | DetachInterface(bridge: string, interface: string, migrate: bool)
  {
    /** The links a snapshot of this change names. */
    function Names(): seq<string> {
      if AttachInterface? || DetachInterface? then [bridge, interface] else [bridge]
    }

    /** manager.go:543-563, without the syntax of names. */
    predicate Valid() {
      bridge != "" && (AttachInterface? || DetachInterface? ==> interface != "" && interface != bridge)
    }
  }

  datatype LinkSnapshot = LinkSnapshot(name: string, saved: Option<Link>)

  datatype Snapshot = Snapshot(change: Change, links: seq<LinkSnapshot>)

  // ---- specification

  /** Only the named links differ, and none changed its kind. */
  ghost predicate Near(base: Links, now: Links, names: seq<string>) {
    && (forall n :: n !in names ==> (n in now <==> n in base) && (n in base ==> now[n] == base[n]))
    && (forall n :: n in now && n in base ==> now[n].isBridge == base[n].isBridge)
  }

  /**
   * What the kernel keeps of its links.  In an exclusive routing table one
   * route belongs to one link.
   */
  ghost predicate HostOk(links: Links, exclusive: bool) {
    && "" !in links
    && (forall n :: n in links ==> links[n].mtu > 0 && (links[n].master != "" ==> links[n].master in links))
    && (exclusive ==> forall m, n :: m in links && n in links && m != n ==> links[m].routes !! links[n].routes)
  }

  /** The routes of `wanted` that the table holds for another link than `name`. */
  function Blocked(links: Links, name: string, wanted: set<Route>, exclusive: bool): set<Route> {
    set r | r in wanted && HeldElsewhere(links, name, r, exclusive)
  }

  predicate HeldElsewhere(links: Links, name: string, route: Route, exclusive: bool) {
    exclusive && exists n :: n in links && n != name && route in links[n].routes
  }

  function Captured(links: Links, name: string): LinkSnapshot {
    LinkSnapshot(name, if name in links then Some(links[name]) else None)
  }

  /** The snapshot is what the links were. */
  ghost predicate Records(snapshot: Snapshot, base: Links) {
    && snapshot.change.Valid() && Applicable(snapshot.change, base)
    && |snapshot.links| == |snapshot.change.Names()|
    && forall i :: 0 <= i < |snapshot.links| ==> snapshot.links[i] == Captured(base, snapshot.change.Names()[i])
  }

  /** A created link is new, every other named link is there. */
  predicate Applicable(change: Change, links: Links) {
    if change.CreateBridge? then change.bridge !in links
    else forall n :: n in change.Names() ==> n in links
  }

  /** Each change's effect when every call works. */
  function Changed(links: Links, change: Change): Links
    requires Applicable(change, links)
  {
    assert change.bridge in change.Names();
    assert change.AttachInterface? || change.DetachInterface? ==> change.interface in change.Names();
    match change
    case CreateBridge(b) => links[b := NEW_BRIDGE.(up := true)]
    case DeleteBridge(b) => links - {b}
    case SetBridgeUp(b) => links[b := links[b].(up := true)]
    case SetBridgeDown(b) => links[b := links[b].(up := false)]
    case AttachInterface(b, i, migrate) =>
      var attached := links[i := links[i].(master := b)];
      if migrate then Moved(attached, i, b) else attached
    case DetachInterface(b, i, migrate) =>
      var moved := if migrate then Moved(links, b, i) else links;
      moved[i := moved[i].(master := "")]
  }

  function Moved(links: Links, source: string, target: string): Links
    requires source in links && target in links
  {
    var s, t := links[source], links[target];
    links[source := s.(addresses := {}, routes := {})]
         [target := t.(addresses := t.addresses + s.addresses, routes := t.routes + s.routes)]
  }

  /**
   * The routes a rollback loses: those of the first named link that the
   * second one holds when the rollback starts, in an exclusive table.
   */
  function Lost(base: Links, now: Links, change: Change, exclusive: bool): set<Route> {
    if (change.AttachInterface? || change.DetachInterface?) && exclusive && change.bridge in base
      && change.interface in now
    then base[change.bridge].routes * now[change.interface].routes
    else {}
  }

  /** The base without the routes that are lost. */
  function RolledBack(base: Links, now: Links, change: Change, exclusive: bool): Links {
    if change.bridge in base
    then
      var saved := base[change.bridge];
      base[change.bridge := saved.(routes := saved.routes - Lost(base, now, change, exclusive))]
    else base
  }

  /** Replacing one link keeps the host consistent when the new one is. */
  lemma ReplacingKeepsHost(links: Links, name: string, link: Link, exclusive: bool)
    requires HostOk(links, exclusive) && name != "" && link.mtu > 0 && (link.master != "" ==> link.master in links)
    requires exclusive ==> forall n :: n in links && n != name ==> links[n].routes !! link.routes
    ensures HostOk(links[name := link], exclusive)
  {
  }

  /**
   * What a rollback that reports success leaves behind; a created bridge that
   * could not be looked up (`!lookup`) stays.
   */
  function AfterRollback(base: Links, now: Links, change: Change, exclusive: bool, lookup: bool): Links {
    if change.CreateBridge? && !lookup then now else RolledBack(base, now, change, exclusive)
  }

  datatype Lookup = Found(link: Link) | NotFound | LookupFailed

  datatype Reply = Done | Exists | NoSuch | Failed

  function Addressed(links: Links, name: string, addresses: set<string>): Links
    requires name in links
  {
    links[name := links[name].(addresses := addresses)]
  }

  function Routed(links: Links, name: string, routes: set<Route>): Links
    requires name in links
  {
    links[name := links[name].(routes := routes)]
  }

  lemma LastOneCounts(links: Links, name: string, addresses: set<string>, routes: set<Route>)
    requires name in links
    ensures forall a: set<string> ::
              Addressed(Addressed(links, name, a), name, addresses) == Addressed(links, name, addresses)
    ensures forall r: set<Route> :: Routed(Routed(links, name, r), name, routes) == Routed(links, name, routes)
  {
  }

  /** Only addresses and routes of one link differ. */
  ghost predicate Reconfigured(before: Links, after: Links, name: string) {
    name in before && name in after
    && after == before[name := before[name].(addresses := after[name].addresses, routes := after[name].routes)]
  }

  lemma SameElsewhere(before: Links, after: Links, name: string, route: Route, exclusive: bool)
    requires Reconfigured(before, after, name)
    ensures HeldElsewhere(before, name, route, exclusive) == HeldElsewhere(after, name, route, exclusive)
  {
    forall n | n != name
      ensures n in before <==> n in after
      ensures n in before ==> before[n] == after[n]
    {
    }
  }

  // ---- the kernel

  class Kernel {
    const script: Script
    /** Whether adding a route that another link holds is answered with "exists", as for one routing table. */
    const exclusive: bool
    var links: Links

    constructor (script: Script, exclusive: bool, links: Links)
      ensures this.script == script && this.exclusive == exclusive && this.links == links
    {
      this.script := script;
      this.exclusive := exclusive;
      this.links := links;
    }

    ghost predicate Consistent()
      reads this
    {
      HostOk(links, exclusive)
    }

    method LinkByName(name: string) returns (found: Lookup)
      modifies script
      ensures found.Found? ==> name in links && found.link == links[name]
      ensures found.NotFound? ==> name !in links
      ensures (found.LookupFailed? <==> !old(script.Succeeding())) && script.Advanced()
      ensures script.Smooth(!found.LookupFailed?)
    {
      var took, ok := script.Attempt();
      found := if !ok then LookupFailed else if name in links then Found(links[name]) else NotFound;
    }

    /** One link is replaced, if the call takes effect. */
    method Put(name: string, link: Link) returns (ok: bool)
      requires Consistent() && name != "" && link.mtu > 0 && (link.master != "" ==> link.master in links)
      requires exclusive ==> forall n :: n in links && n != name ==> links[n].routes !! link.routes
      modifies this`links, script
      ensures Consistent()
      ensures ok == old(script.Succeeding()) && script.Advanced()
      ensures links == if old(script.Taking()) then old(links)[name := link] else old(links)
      ensures script.Smooth(ok)
    {
      var took;
      took, ok := script.Attempt();
      ReplacingKeepsHost(links, name, link, exclusive);
      if took {
        links := links[name := link];
      }
    }

    method LinkAdd(name: string) returns (ok: bool)
      requires Consistent() && name != ""
      modifies this`links, script
      ensures Consistent()
      ensures ok ==> name !in old(links)
      ensures name in old(links) ==> links == old(links)
      ensures name !in old(links) ==>
                && ok == old(script.Succeeding()) && script.Advanced()
                && links == if old(script.Taking()) then old(links)[name := NEW_BRIDGE] else old(links)
      ensures script.Smooth(ok <==> name !in old(links))
    {
      if name in links {
        return false;
      }
      ok := Put(name, NEW_BRIDGE);
    }

    /** The members of a deleted bridge lose their master. */
    method LinkDel(name: string) returns (ok: bool)
      requires Consistent()
      modifies this`links, script
      ensures Consistent()
      ensures ok == old(script.Succeeding()) && script.Advanced()
      ensures links == if old(script.Taking()) then Deleted(old(links), name) else old(links)
      ensures script.Smooth(ok)
    {
      var took;
      took, ok := script.Attempt();
      if took {
        links := Deleted(links, name);
      }
    }

    static function Deleted(links: Links, name: string): Links {
      map n | n in links && n != name ::
        if links[n].master == name && name != "" then links[n].(master := "") else links[n]
    }

    method SetMaster(name: string, master: string) returns (ok: bool)
      requires Consistent()
      modifies this`links, script
      ensures Consistent()
      ensures links == old(links)
              || (name in old(links) && links == old(links)[name := old(links)[name].(master := master)])
      ensures ok ==> name in old(links) && links == old(links)[name := old(links)[name].(master := master)]
      ensures script.Smooth(ok <==> name in old(links) && (master == "" || master in old(links)))
    {
      if name !in links || (master != "" && master !in links) {
        return false;
      }
      ok := Put(name, links[name].(master := master));
    }

    method SetUp(name: string, up: bool) returns (ok: bool)
      requires Consistent()
      modifies this`links, script
      ensures Consistent()
      ensures ok ==> name in old(links)
      ensures name !in old(links) ==> links == old(links)
      ensures name in old(links) ==>
                && ok == old(script.Succeeding()) && script.Advanced()
                && links == if old(script.Taking()) then old(links)[name := old(links)[name].(up := up)] else old(links)
      ensures script.Smooth(ok <==> name in old(links))
    {
      if name !in links {
        return false;
      }
      ok := Put(name, links[name].(up := up));
    }

    method SetMtu(name: string, mtu: int) returns (ok: bool)
      requires Consistent() && mtu > 0
      modifies this`links, script
      ensures Consistent()
      ensures links == old(links) || (name in old(links) && links == old(links)[name := old(links)[name].(mtu := mtu)])
      ensures ok ==> name in old(links) && links == old(links)[name := old(links)[name].(mtu := mtu)]
      ensures script.Smooth(ok <==> name in old(links))
    {
      if name !in links {
        return false;
      }
      ok := Put(name, links[name].(mtu := mtu));
    }

    method AddrDel(name: string, address: string) returns (ok: bool)
      requires Consistent()
      modifies this`links, script
      ensures Consistent()
      ensures links == old(links)
              || (name in old(links) && links == Addressed(old(links), name, old(links)[name].addresses - {address}))
      ensures ok ==> name in old(links) && links == Addressed(old(links), name, old(links)[name].addresses - {address})
      ensures script.Smooth(ok <==> name in old(links))
    {
      if name !in links {
        return false;
      }
      ok := Put(name, links[name].(addresses := links[name].addresses - {address}));
    }

    method AddrAdd(name: string, address: string) returns (reply: Reply)
      requires Consistent()
      modifies this`links, script
      ensures Consistent()
      ensures links == old(links)
              || (name in old(links) && links == Addressed(old(links), name, old(links)[name].addresses + {address}))
      ensures reply == Done || reply == Exists ==>
                name in old(links) && links == Addressed(old(links), name, old(links)[name].addresses + {address})
      ensures script.Smooth((reply == Done || reply == Exists <==> name in old(links)))
    {
      if name !in links {
        return Failed;
      }
      if address in links[name].addresses {
        assert links[name].addresses + {address} == links[name].addresses;
        assert links[name := links[name]] == links;
        return Exists;
      }
      var ok := Put(name, links[name].(addresses := links[name].addresses + {address}));
      reply := if ok then Done else Failed;
    }

    method RouteDel(name: string, route: Route) returns (reply: Reply)
      requires Consistent()
      modifies this`links, script
      ensures Consistent()
      ensures links == old(links)
              || (name in old(links) && links == Routed(old(links), name, old(links)[name].routes - {route}))
      ensures reply == Done || reply == NoSuch ==>
                name in old(links) && links == Routed(old(links), name, old(links)[name].routes - {route})
      ensures script.Smooth((reply == Done || reply == NoSuch <==> name in old(links)))
    {
      if name !in links {
        return Failed;
      }
      if route !in links[name].routes {
        assert links[name].routes - {route} == links[name].routes;
        assert links[name := links[name]] == links;
        return NoSuch;
      }
      var ok := Put(name, links[name].(routes := links[name].routes - {route}));
      reply := if ok then Done else Failed;
    }

    /** A route that is there already, on this link or in an exclusive table on another, is not added again. */
    method RouteAdd(name: string, route: Route) returns (reply: Reply)
      requires Consistent()
      modifies this`links, script
      ensures Consistent()
      ensures links == old(links)
              || (name in old(links) && links == Routed(old(links), name, old(links)[name].routes + {route}))
      ensures reply == Done || reply == Exists ==>
                name in old(links) && links == (if HeldElsewhere(old(links), name, route, exclusive) then old(links)
                                                else Routed(old(links), name, old(links)[name].routes + {route}))
      ensures script.Smooth((reply == Done || reply == Exists <==> name in old(links)))
    {
      if name !in links {
        return Failed;
      }
      if route in links[name].routes || HeldElsewhere(links, name, route, exclusive) {
        assert route in links[name].routes ==> links[name].routes + {route} == links[name].routes;
        assert links[name := links[name]] == links;
        return Exists;
      }
      var ok := Put(name, links[name].(routes := links[name].routes + {route}));
      reply := if ok then Done else Failed;
    }

    // ---- moving addresses and routes (provider_linux.go:774-852)

    /** provider_linux.go:792-820. */
    method RemoveMovable(name: string) returns (ok: bool)
      requires name in links && Consistent()
      modifies this`links, script
      ensures Consistent() && Reconfigured(old(links), links, name) && links[name].routes <= old(links)[name].routes
      ensures ok ==> links[name].addresses == {} && links[name].routes == {}
      ensures script.Smooth(ok)
    {
      ok := RemoveAddresses(name);
      if ok {
        ok := RemoveRoutes(name);
      }
    }

    method RemoveAddresses(name: string) returns (ok: bool)
      requires name in links && Consistent()
      modifies this`links, script
      ensures Consistent() && Reconfigured(old(links), links, name) && links[name].routes == old(links)[name].routes
      ensures ok ==> links[name].addresses == {}
      ensures script.Smooth(ok)
    {
      assert links[name := links[name]] == links;
      var took;
      took, ok := script.Attempt();
      if !ok {
        return;
      }
      var addresses := links[name].addresses;
      while addresses != {}
        invariant Consistent() && links == Addressed(old(links), name, addresses)
        invariant script.Smooth(ok)
        decreases addresses
      {
        var address :| address in addresses;
        LastOneCounts(old(links), name, addresses - {address}, {});
        ok := AddrDel(name, address);
        if !ok {
          return;
        }
        addresses := addresses - {address};
      }
    }

    method RemoveRoutes(name: string) returns (ok: bool)
      requires name in links && Consistent()
      modifies this`links, script
      ensures Consistent() && Reconfigured(old(links), links, name)
      ensures links[name].addresses == old(links)[name].addresses && links[name].routes <= old(links)[name].routes
      ensures ok ==> links[name].routes == {}
      ensures script.Smooth(ok)
    {
      assert links[name := links[name]] == links;
      var took;
      took, ok := script.Attempt();
      if !ok {
        return;
      }
      var routes := links[name].routes;
      while routes != {}
        invariant Consistent() && routes <= old(links)[name].routes && links == Routed(old(links), name, routes)
        invariant script.Smooth(ok)
        decreases routes
      {
        var route :| route in routes;
        LastOneCounts(old(links), name, {}, routes - {route});
        var reply := RouteDel(name, route);
        if reply != Done && reply != NoSuch {
          return false;
        }
        routes := routes - {route};
      }
    }

    /** provider_linux.go:822-852. */
    method AddConfiguration(name: string, addresses: set<string>, routes: set<Route>) returns (ok: bool)
      requires name in links
      requires Consistent()
      modifies this`links, script
      ensures Consistent()
      ensures Reconfigured(old(links), links, name)
      ensures links[name].routes <= old(links)[name].routes + routes
      ensures ok ==>
                && links[name].addresses == old(links)[name].addresses + addresses
                && links[name].routes == old(links)[name].routes
                   + (routes - Blocked(old(links), name, routes, exclusive))
      ensures script.Smooth(ok)
    {
      ok := AddAddresses(name, addresses);
      if ok {
        ghost var before := links;
        ok := AddRoutes(name, routes);
        forall r
          ensures HeldElsewhere(old(links), name, r, exclusive) == HeldElsewhere(before, name, r, exclusive)
        {
          SameElsewhere(old(links), before, name, r, exclusive);
        }
        assert Blocked(old(links), name, routes, exclusive) == Blocked(before, name, routes, exclusive);
      }
    }

    method AddAddresses(name: string, addresses: set<string>) returns (ok: bool)
      requires name in links
      requires Consistent()
      modifies this`links, script
      ensures Consistent()
      ensures Reconfigured(old(links), links, name) && links[name].routes == old(links)[name].routes
      ensures ok ==> links[name].addresses == old(links)[name].addresses + addresses
      ensures script.Smooth(ok)
    {
      assert links[name := links[name]] == links;
      var left := addresses;
      while left != {}
        invariant left <= addresses && Reconfigured(old(links), links, name) && Consistent()
        invariant links[name].addresses == old(links)[name].addresses + (addresses - left)
        invariant links[name].routes == old(links)[name].routes
        invariant script.Smooth(true)
        decreases left
      {
        var address :| address in left;
        ok := AddAddress(name, address);
        if !ok {
          return;
        }
        left := left - {address};
      }
      ok := true;
    }

    /** provider_linux.go:828-830: an address that exists is no failure. */
    method AddAddress(name: string, address: string) returns (ok: bool)
      requires name in links && Consistent()
      modifies this`links, script
      ensures Consistent() && Reconfigured(old(links), links, name) && links[name].routes == old(links)[name].routes
      ensures ok ==> links[name].addresses == old(links)[name].addresses + {address}
      ensures script.Smooth(ok)
    {
      assert links[name := links[name]] == links;
      var reply := AddrAdd(name, address);
      ok := reply == Done || reply == Exists;
    }

    method AddRoutes(name: string, routes: set<Route>) returns (ok: bool)
      requires name in links
      requires Consistent()
      modifies this`links, script
      ensures Consistent()
      ensures Reconfigured(old(links), links, name) && links[name].addresses == old(links)[name].addresses
      ensures links[name].routes <= old(links)[name].routes + routes
      ensures ok ==>
                links[name].routes == old(links)[name].routes + (routes - Blocked(old(links), name, routes, exclusive))
      ensures script.Smooth(ok)
    {
      hide NoLoneFailure;
      assert links[name := links[name]] == links;
      var pending := routes;
      while pending != {}
        invariant pending <= routes && Reconfigured(old(links), links, name) && Consistent()
        invariant links[name].addresses == old(links)[name].addresses
        invariant links[name].routes == old(links)[name].routes
                  + (routes - pending - Blocked(old(links), name, routes, exclusive))
        invariant script.Smooth(true)
        decreases pending
      {
        var route :| route in pending;
        SameElsewhere(old(links), links, name, route, exclusive);
        ok := AddRoute(name, route);
        if !ok {
          return;
        }
        pending := pending - {route};
      }
      ok := true;
    }

    /** provider_linux.go:847-849: a route that exists is no failure. */
    method AddRoute(name: string, route: Route) returns (ok: bool)
      requires name in links && Consistent()
      modifies this`links, script
      ensures Consistent() && Reconfigured(old(links), links, name)
              && links[name].addresses == old(links)[name].addresses
      ensures old(links)[name].routes <= links[name].routes <= old(links)[name].routes + {route}
      ensures ok ==>
                (route in links[name].routes <==>
                  route in old(links)[name].routes || !HeldElsewhere(old(links), name, route, exclusive))
      ensures script.Smooth(ok)
    {
      assert links[name := links[name]] == links;
      var reply := RouteAdd(name, route);
      ok := reply == Done || reply == Exists;
    }

    /** provider_linux.go:774-783. */
    method MoveConfiguration(source: string, target: string) returns (ok: bool)
      requires source in links && target in links && source != target
      requires Consistent()
      modifies this`links, script
      ensures Consistent()
      ensures MovedPartly(old(links), links, source, target)
      ensures ok ==> links == Moved(old(links), source, target)
      ensures script.Smooth(ok)
    {
      hide HostOk;
      var took;
      took, ok := script.Attempt();
      assert links[source := links[source]][target := links[target]] == links;
      if !ok {
        return;
      }
      var saved := links[source];
      ok := RemoveMovable(source);
      if !ok {
        assert links[source := links[source]][target := links[target]] == links;
        return;
      }
      ghost var emptied := links;
      ok := AddConfiguration(target, saved.addresses, saved.routes);
      assert links == old(links)[source := emptied[source]][target := links[target]];
      NothingBlocked(old(links), emptied, source, target, exclusive);
      if ok {
        assert links[target]
          == old(links)[target].(addresses := links[target].addresses, routes := links[target].routes);
        assert links[source] == saved.(addresses := {}, routes := {});
      }
    }
  }

  /** Routes taken off one link are held by no other. */
  lemma NothingBlocked(before: Links, emptied: Links, source: string, target: string, exclusive: bool)
    requires HostOk(before, exclusive) && source in before && target in before && source != target
    requires Reconfigured(before, emptied, source) && emptied[source].routes == {}
    ensures before[source].routes - Blocked(emptied, target, before[source].routes, exclusive) == before[source].routes
  {
  }

  /** Addresses and routes are somewhere on the way from one link to the other. */
  ghost predicate MovedPartly(before: Links, after: Links, source: string, target: string)
    requires source in before && target in before
  {
    && source in after && target in after
    && after == before[source := before[source].(addresses := after[source].addresses, routes := after[source].routes)]
                      [target := before[target].(addresses := after[target].addresses, routes := after[target].routes)]
    && after[source].routes <= before[source].routes
    && after[target].routes <= before[target].routes + before[source].routes
  }
}
