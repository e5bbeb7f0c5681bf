/**
 * The NAT manager (internal/nat/nat.go): it turns on kernel IPv4 forwarding
 * and installs firewall rules while bridges need them, and keeps a record
 * file from which every change can be undone after a crash.
 */
module Nat {
  import opened Faults
  import opened Ipv4
  import opened Text

  datatype Network = Network(bridge: string, prefix: Prefix)

  /** The contents of the record file. */
  datatype Record = Record(original: bool, changed: bool, networks: map<string, Prefix>)

  // ---- the firewall rules of a set of active bridges

  ghost predicate StrictlySorted(networks: seq<Network>) {
    forall i, j :: 0 <= i < j < |networks| ==> Before(networks[i].bridge, networks[j].bridge)
  }

  /** `networks` lists exactly the entries of the map, in order of their bridges. */
  ghost predicate IsListing(networks: seq<Network>, active: map<string, Prefix>) {
    && StrictlySorted(networks)
    && (forall i :: 0 <= i < |networks| ==>
          networks[i].bridge in active && networks[i].prefix == active[networks[i].bridge])
    && (forall b :: b in active ==> exists i :: 0 <= i < |networks| && networks[i].bridge == b)
  }

  /** There is one listing of a map, so the iteration order it was built in cannot show. */
  lemma {:induction false} ListingUnique(left: seq<Network>, right: seq<Network>, active: map<string, Prefix>)
    requires IsListing(left, active) && IsListing(right, active)
    ensures left == right
    decreases |left|
  {
    if left == [] {
      if right != [] {
        SameHead(right, left, active);
      }
    } else {
      SameHead(left, right, active);
      TailIsListing(left, active);
      TailIsListing(right, active);
      ListingUnique(left[1..], right[1..], active - {left[0].bridge});
      assert left == [left[0]] + left[1..] && right == [right[0]] + right[1..];
    }
  }

  lemma SameHead(left: seq<Network>, right: seq<Network>, active: map<string, Prefix>)
    requires IsListing(left, active) && IsListing(right, active) && left != []
    ensures right != [] && left[0] == right[0]
  {
    assert left[0].bridge in active;
    var k :| 0 <= k < |right| && right[k].bridge == left[0].bridge;
    assert right[0].bridge in active;
    var j :| 0 <= j < |left| && left[j].bridge == right[0].bridge;
    BeforeTrichotomy(left[0].bridge, right[0].bridge);
    BeforeTrichotomy(left[0].bridge, left[0].bridge);
    BeforeTrichotomy(right[0].bridge, right[0].bridge);
  }

  lemma TailIsListing(networks: seq<Network>, active: map<string, Prefix>)
    requires IsListing(networks, active) && networks != []
    ensures IsListing(networks[1..], active - {networks[0].bridge})
  {
    var tail, rest := networks[1..], active - {networks[0].bridge};
    forall i | 0 <= i < |tail|
      ensures tail[i].bridge in rest && tail[i].prefix == rest[tail[i].bridge]
    {
      assert tail[i] == networks[i + 1];
      BeforeTrichotomy(networks[0].bridge, networks[i + 1].bridge);
    }
    forall b | b in rest
      ensures exists i :: 0 <= i < |tail| && tail[i].bridge == b
    {
      var i :| 0 <= i < |networks| && networks[i].bridge == b;
      assert tail[i - 1].bridge == b;
    }
  }

  /** One insertion of the sort: the new network goes before the first later bridge. */
  method Insert(networks: seq<Network>, bridge: string, prefix: Prefix, ghost active: map<string, Prefix>)
    returns (result: seq<Network>)
    requires IsListing(networks, active) && bridge !in active
    ensures IsListing(result, active[bridge := prefix])
  {
    var at := 0;
    while at < |networks| && Before(networks[at].bridge, bridge)
      invariant 0 <= at <= |networks|
      invariant forall i :: 0 <= i < at ==> Before(networks[i].bridge, bridge)
    {
      at := at + 1;
    }
    result := networks[..at] + [Network(bridge, prefix)] + networks[at..];
    InsertedIsListing(networks, at, bridge, prefix, active);
  }

  lemma InsertedIsListing(networks: seq<Network>, at: nat, bridge: string, prefix: Prefix, active: map<string, Prefix>)
    requires IsListing(networks, active) && bridge !in active && at <= |networks|
    requires forall i :: 0 <= i < at ==> Before(networks[i].bridge, bridge)
    requires at < |networks| ==> !Before(networks[at].bridge, bridge)
    ensures IsListing(networks[..at] + [Network(bridge, prefix)] + networks[at..], active[bridge := prefix])
  {
    var added := Network(bridge, prefix);
    RestIsLater(networks, at, bridge, active);
    InsertedIsSorted(networks, at, added);
    InsertedIsComplete(networks, at, added, active);
  }

  lemma RestIsLater(networks: seq<Network>, at: nat, bridge: string, active: map<string, Prefix>)
    requires IsListing(networks, active) && bridge !in active && at <= |networks|
    requires at < |networks| ==> !Before(networks[at].bridge, bridge)
    ensures forall i :: at <= i < |networks| ==> Before(bridge, networks[i].bridge)
  {
    forall i | at <= i < |networks|
      ensures Before(bridge, networks[i].bridge)
    {
      BeforeTrichotomy(bridge, networks[at].bridge);
      if i > at {
        BeforeTransitive(bridge, networks[at].bridge, networks[i].bridge);
      }
    }
  }

  lemma InsertedIsComplete(networks: seq<Network>, at: nat, added: Network, active: map<string, Prefix>)
    requires IsListing(networks, active) && at <= |networks| && added.bridge !in active
    ensures var result, grown := networks[..at] + [added] + networks[at..], active[added.bridge := added.prefix];
            && (forall i :: 0 <= i < |result| ==>
                  result[i].bridge in grown && result[i].prefix == grown[result[i].bridge])
            && (forall b :: b in grown ==> exists i :: 0 <= i < |result| && result[i].bridge == b)
  {
    var result, grown := networks[..at] + [added] + networks[at..], active[added.bridge := added.prefix];
    forall i | 0 <= i < |result|
      ensures result[i].bridge in grown && result[i].prefix == grown[result[i].bridge]
    {
      if i != at {
        var k := if i < at then i else i - 1;
        assert result[i] == networks[k];
      }
    }
    assert result[at] == added;
    forall b | b in grown
      ensures exists i :: 0 <= i < |result| && result[i].bridge == b
    {
      if b != added.bridge {
        var i :| 0 <= i < |networks| && networks[i].bridge == b;
        assert result[if i < at then i else i + 1] == networks[i];
      }
    }
  }

  lemma InsertedIsSorted(networks: seq<Network>, at: nat, added: Network)
    requires StrictlySorted(networks) && at <= |networks|
    requires forall i :: 0 <= i < at ==> Before(networks[i].bridge, added.bridge)
    requires forall i :: at <= i < |networks| ==> Before(added.bridge, networks[i].bridge)
    ensures StrictlySorted(networks[..at] + [added] + networks[at..])
  {
  }

  function MaskAll(active: map<string, Prefix>): map<string, Prefix> {
    map b | b in active :: active[b].Masked()
  }

  /** nat.go:221-228. */
  method SortedNetworks(active: map<string, Prefix>) returns (networks: seq<Network>)
    ensures IsListing(networks, MaskAll(active))
    ensures active == map[] ==> networks == []
  {
    networks := [];
    var remaining := active.Keys;
    ghost var listed: map<string, Prefix> := map[];
    while remaining != {}
      invariant remaining <= active.Keys
      invariant listed == map b | b in active && b !in remaining :: active[b].Masked()
      invariant IsListing(networks, listed)
      invariant active == map[] ==> networks == []
      decreases remaining
    {
      var bridge :| bridge in remaining;
      networks := Insert(networks, bridge, active[bridge].Masked(), listed);
      listed := listed[bridge := active[bridge].Masked()];
      remaining := remaining - {bridge};
    }
    assert listed == MaskAll(active);
  }

  ghost predicate AllTrue(calls: seq<bool>, since: nat) {
    forall i :: since <= i < |calls| ==> calls[i]
  }

  lemma AllTrueJoined(calls: seq<bool>, more: seq<bool>, since: nat)
    requires since <= |calls|
    ensures AllTrue(calls + more, since) <==> AllTrue(calls, since) && AllTrue(more, 0)
    ensures AllTrue(calls + more, |calls|) <==> AllTrue(more, 0)
  {
    if AllTrue(calls + more, since) || AllTrue(calls + more, |calls|) {
      forall i | 0 <= i < |more|
        ensures more[i]
      {
        assert (calls + more)[|calls| + i];
      }
    }
    if AllTrue(calls + more, since) {
      forall i | since <= i < |calls|
        ensures calls[i]
      {
        assert (calls + more)[i];
      }
    }
  }

  lemma AllTrueLater(calls: seq<bool>, from: nat, since: nat)
    requires from <= since
    ensures AllTrue(calls, from) ==> AllTrue(calls, since)
  {
  }

  lemma AllTrueFrom(call: bool, more: seq<bool>)
    ensures AllTrue([call] + more, 0) <==> call && AllTrue(more, 0)
    ensures AllTrue([call], 0) <==> call
    ensures AllTrue([], 0)
  {
    AllTrueJoined([call], more, 0);
    if AllTrue([call], 0) {
      assert [call][0];
    }
  }

  // ---- the host: what survives a crash of the daemon

  class Host {
    const script: Script
    /** The kernel's forwarding value before App Runner touched it. */
    ghost const pristine: bool
    var forwarding: bool
    var rules: seq<Network>
    var file: Option<Record>
    /** For every call that put rules or forwarding back, in order, whether it worked. */
    ghost var undone: seq<bool>

    constructor (script: Script, forwarding: bool)
      ensures this.script == script && this.forwarding == forwarding && pristine == forwarding
      ensures rules == [] && file.None? && undone == [] && Safe()
    {
      this.script := script;
      this.forwarding := forwarding;
      pristine := forwarding;
      rules := [];
      file := None;
      undone := [];
    }

    /**
     * Crash safety: without a record nothing of ours is on the host; with one,
     * the record says what forwarding was and marks it whenever it differs.
     */
    ghost predicate Safe()
      reads this
    {
      match file
      case None => rules == [] && forwarding == pristine
      case Some(record) =>
        && record.original == pristine
        && (forwarding != pristine ==> record.changed)
        && (record.changed ==> !record.original)
    }

    ghost predicate Restored()
      reads this
    {
      forwarding == pristine && rules == [] && file.None?
    }

    method IPForwarding() returns (ok: bool, value: bool)
      modifies script
      ensures value == forwarding
      ensures ok == old(script.Succeeding()) && script.Advanced() && script.Smooth(ok) && script.Once(ok)
    {
      var took;
      took, ok := script.Attempt();
      value := forwarding;
    }

    /** A failing write may still have reached the kernel. */
    method SetIPForwarding(value: bool) returns (ok: bool)
      modifies this`forwarding, script
      ensures forwarding == if old(script.Taking()) then value else old(forwarding)
      ensures ok == old(script.Succeeding()) && script.Advanced() && script.Smooth(ok) && script.Once(ok)
    {
      var took;
      took, ok := script.Attempt();
      if took {
        forwarding := value;
      }
    }

    /** One nftables batch: a failed flush changes nothing. */
    method ReplaceRules(networks: seq<Network>) returns (ok: bool)
      modifies this`rules, script
      ensures rules == if ok then networks else old(rules)
      ensures ok == old(script.Succeeding()) && script.Advanced() && script.Smooth(ok) && script.Once(ok)
    {
      var took;
      took, ok := script.Attempt();
      if ok {
        rules := networks;
      }
    }

    /** Rules are put back. */
    method PutRulesBack(networks: seq<Network>) returns (ok: bool)
      modifies this`rules, this`undone, script
      ensures rules == (if ok then networks else old(rules)) && undone == old(undone) + [ok]
      ensures ok == old(script.Succeeding()) && script.Advanced() && script.Smooth(ok) && script.Once(ok)
    {
      ok := ReplaceRules(networks);
      undone := undone + [ok];
    }

    /** Forwarding is put back. */
    method PutForwardingBack(value: bool) returns (ok: bool)
      modifies this`forwarding, this`undone, script
      ensures forwarding == (if old(script.Taking()) then value else old(forwarding)) && undone == old(undone) + [ok]
      ensures ok == old(script.Succeeding()) && script.Advanced() && script.Smooth(ok) && script.Once(ok)
    {
      ok := SetIPForwarding(value);
      undone := undone + [ok];
    }

    /** Every call since that put something back worked. */
    ghost predicate Clean(since: nat)
      reads this
    {
      AllTrue(undone, since)
    }

    /** Atomic replacement (internal/fsutil/fsutil.go:31-43). */
    method WriteFile(record: Record) returns (ok: bool)
      modifies this`file, script
      ensures file == if ok then Some(record) else old(file)
      ensures ok == old(script.Succeeding()) && script.Advanced() && script.Smooth(ok) && script.Once(ok)
    {
      var took;
      took, ok := script.Attempt();
      if ok {
        file := Some(record);
      }
    }

    method RemoveIfExists() returns (ok: bool)
      modifies this`file, script
      ensures file == if ok then None else old(file)
      ensures ok == old(script.Succeeding()) && script.Advanced() && script.Smooth(ok) && script.Once(ok)
    {
      var took;
      took, ok := script.Attempt();
      if ok {
        file := None;
      }
    }
  }

  // ---- the manager

  class Manager {
    const host: Host
    var state: Record
    var active: map<string, Prefix>
    var owned: bool
    var recovering: bool
    /** Up to which of the calls that put something back a later success has made up for a failed one. */
    ghost var since: nat

    ghost predicate Valid()
      reads this, host
    {
      && Recorded()
      && (!recovering || active != map[] ==> Steady())
    }

    /** What every instant between two calls keeps; `Valid` adds the steady state. */
    ghost predicate Recorded()
      reads this, host
    {
      && host.Safe() && since <= |host.undone|
      && (state.changed ==> !state.original)
      && (active != map[] ==> host.forwarding && owned)
      && (owned ==>
            && host.file.Some?
            && state.original == host.pristine
            && (host.forwarding != host.pristine ==> state.changed))
      && (!owned ==>
            && host.rules == []
            && host.forwarding == host.pristine && !state.changed
            && (recovering ==> state.original == host.pristine))
    }

    /** The kernel shows exactly the active bridges, unless a call that should have put something back failed. */
    ghost predicate Steady()
      reads this, host
    {
      host.Clean(since) ==> Shown()
    }

    ghost predicate Shown()
      reads this, host
    {
      IsListing(host.rules, MaskAll(active)) && host.forwarding == (host.pristine || active != map[])
    }

    // ---- which calls put something back, and whether they work

    static function CleanupCalls(changed: bool, next: Future): seq<bool> {
      [next.Succeeds()] + if changed then [next.Next().Succeeds()] else []
    }

    static function WithdrawCalls(replace: bool, last: bool, changed: bool, next: Future): seq<bool> {
      if !replace then CleanupCalls(changed, next)
      else [next.Succeeds()] + if last then CleanupCalls(changed, next.Next()) else []
    }

    static function InstallCalls(first: bool, changed: bool, next: Future): seq<bool> {
      if !next.Succeeds() then WithdrawCalls(!first, first, changed, next.Next())
      else if !next.Next().Succeeds() then WithdrawCalls(true, first, changed, next.Next().Next())
      else []
    }

    /** Forwarding is recorded unless it was, and turned on unless it is: what comes then, if nothing of it failed. */
    static function Taken(owned: bool, on: bool, next: Future): Option<Future> {
      if !owned && !(next.Succeeds() && next.Next().Succeeds()) then None
      else
        var after := if owned then next else next.Next().Next();
        if on then Some(after)
        else if after.Succeeds() && after.Next().Succeeds() then Some(after.Next().Next())
        else None
    }

    /** Only when forwarding cannot be turned on is anything put back. */
    static function TakeCalls(owned: bool, on: bool, next: Future): seq<bool> {
      if !owned && !(next.Succeeds() && next.Next().Succeeds()) then []
      else
        var after := if owned then next else next.Next().Next();
        if !on && after.Succeeds() && !after.Next().Succeeds() then CleanupCalls(true, after.Next().Next()) else []
    }

    ghost predicate OriginallyOn()
      reads this, host
    {
      if owned then state.original else host.forwarding
    }

    /** Starting a bridge that is not active yet. */
    static function StartCalls(first: bool, owned: bool, on: bool, next: Future): seq<bool> {
      if !first then InstallCalls(false, false, next)
      else
        var taken := Taken(owned, on, next);
        if taken.Some? then InstallCalls(true, !on, taken.value) else TakeCalls(owned, on, next)
    }

    static function StopCalls(last: bool, changed: bool, next: Future): seq<bool> {
      if last && changed && next.Succeeds() then [next.Next().Succeeds()] else []
    }

    constructor (host: Host, recovered: Option<Record>)
      requires host.Safe() && recovered == host.file
      ensures Valid() && this.host == host && active == map[] && since == |host.undone|
      ensures recovering == owned == recovered.Some?
    {
      this.host := host;
      state := if recovered.Some? then recovered.value else Record(false, false, map[]);
      active := map[];
      owned := recovered.Some?;
      recovering := recovered.Some?;
      since := |host.undone|;
    }

    /** nat.go:78-134. */
    method Start(bridge: string, requested: Prefix) returns (ok: bool)
      requires Valid()
      modifies this, host, host.script
      ensures Valid() && recovering == old(recovering)
      ensures !ok ==> active == old(active)
      ensures bridge in old(active) ==>
                && ok == (old(active)[bridge] == requested.Masked()) && active == old(active)
                && host.rules == old(host.rules) && host.file == old(host.file)
                && host.forwarding == old(host.forwarding)
                && host.undone == old(host.undone) && since == old(since)
      ensures ok && bridge !in old(active) ==>
                && active == old(active)[bridge := requested.Masked()] && Shown()
                && host.file == Some(state) && state.networks == active
      ensures bridge !in old(active) ==>
                && host.undone == old(host.undone)
                   + StartCalls(old(active) == map[], old(owned), old(OriginallyOn()), old(host.script.Future()))
                && since == if ok then |host.undone| else old(since)
      ensures host.script.Smooth((ok || bridge in old(active)) && host.Clean(|old(host.undone)|))
      ensures old(host.script.Lone()) ==> host.Clean(|old(host.undone)|)
      ensures old(host.script.Lone()) && !ok && old(host.Clean(since)) && !recovering ==>
                host.rules == old(host.rules) && host.forwarding == old(host.forwarding)
    {
      var prefix := requested.Masked();
      if bridge in active {
        return active[bridge] == prefix;
      }
      ok := Begin(bridge, prefix);
      if IsListing(old(host.rules), MaskAll(active)) && IsListing(host.rules, MaskAll(active)) {
        ListingUnique(old(host.rules), host.rules, MaskAll(active));
      }
    }

    /** nat.go:88-133, for a bridge that is not active yet. */
    method Begin(bridge: string, prefix: Prefix) returns (ok: bool)
      requires Valid() && bridge !in active
      modifies this, host, host.script
      ensures Valid() && recovering == old(recovering)
      ensures active == if ok then old(active)[bridge := prefix] else old(active)
      ensures ok ==> Shown() && host.file == Some(state) && state.networks == active
      ensures host.undone == old(host.undone)
              + StartCalls(old(active) == map[], old(owned), old(OriginallyOn()), old(host.script.Future()))
      ensures since == if ok then |host.undone| else old(since)
      ensures host.script.Smooth(ok && host.Clean(|old(host.undone)|))
      ensures old(host.script.Lone()) ==> host.Clean(|old(host.undone)|)
    {
      hide AllTrue, IsListing, CleanupCalls, NoLoneFailure;
      var first := active == map[];
      ok := true;
      if first {
        ok := TakeForwarding();
      }
      if ok {
        active := active[bridge := prefix];
        ok := Install(bridge, first);
        assert old(active)[bridge := prefix] - {bridge} == old(active);
      }
    }

    /** nat.go:89-109: before the first bridge, record forwarding and turn it on. */
    method TakeForwarding() returns (ok: bool)
      requires Valid() && active == map[]
      modifies this`state, this`owned, host, host.script
      ensures if ok then Recorded() && owned && host.forwarding else Valid()
      ensures var taken := Taken(old(owned), old(OriginallyOn()), old(host.script.Future()));
              ok == taken.Some? && (ok ==> host.script.Future() == taken.value && state.changed == !old(OriginallyOn()))
      ensures host.undone == old(host.undone) + TakeCalls(old(owned), old(OriginallyOn()), old(host.script.Future()))
      ensures host.script.Smooth(ok && host.Clean(|old(host.undone)|)) && host.script.Once(ok)
      ensures old(host.script.Lone()) ==> host.Clean(|old(host.undone)|)
    {
      hide AllTrue, IsListing, CleanupCalls, NoLoneFailure;
      AllTrueFrom(true, []);
      AllTrueJoined(host.undone, [], |host.undone|);
      ok := true;
      if !owned {
        ok := RecordForwarding();
      }
      if ok && !state.original {
        ok := TurnForwardingOn();
      }
    }

    /** nat.go:90-100. */
    method RecordForwarding() returns (ok: bool)
      requires Valid() && active == map[] && !owned
      modifies this`state, this`owned, host`file, host.script
      ensures Valid() && (ok ==> owned)
      ensures ok ==> state.original == host.forwarding == host.pristine && !state.changed
      ensures var next := old(host.script.Future());
              && ok == (next.Succeeds() && next.Next().Succeeds())
              && (ok ==> host.script.Future() == next.Next().Next())
      ensures host.script.Smooth(ok) && host.script.Once(ok)
    {
      hide AllTrue, IsListing, NoLoneFailure;
      var read, forwarding := host.IPForwarding();
      ok := read;
      if read {
        state := Record(forwarding, false, map[]);
        ok := Save();
        owned := ok;
      }
    }

    /** nat.go:101-109. */
    method TurnForwardingOn() returns (ok: bool)
      requires Valid() && owned && active == map[] && !state.original
      modifies this`state, this`owned, host, host.script
      ensures if ok then Recorded() && owned && host.forwarding else Valid()
      ensures var next := old(host.script.Future());
              && ok == (next.Succeeds() && next.Next().Succeeds())
              && (ok ==> host.script.Future() == next.Next().Next() && state.changed)
              && host.undone == old(host.undone) + if next.Succeeds() && !ok then CleanupCalls(true, next.Next().Next())
                 else []
      ensures host.script.Smooth(ok && host.Clean(|old(host.undone)|)) && host.script.Once(ok)
      ensures old(host.script.Lone()) ==> host.Clean(|old(host.undone)|)
    {
      hide AllTrue, IsListing, CleanupCalls;
      AllTrueFrom(true, []);
      AllTrueJoined(host.undone, [], |host.undone|);
      state := state.(changed := true);
      ok := Save();
      if ok {
        ok := host.SetIPForwarding(true);
        if !ok {
          var _ := Cleanup();
        }
      }
    }

    /** nat.go:112-133, with the new bridge already in `active`. */
    method Install(bridge: string, first: bool) returns (ok: bool)
      requires Recorded() && bridge in active
      requires first == (active - {bridge} == map[])
      modifies this, host, host.script
      ensures Valid() && recovering == old(recovering)
      ensures active == if ok then old(active) else old(active) - {bridge}
      ensures ok ==> Shown() && host.file == Some(state) && state.networks == active
      ensures host.undone == old(host.undone) + InstallCalls(first, old(state).changed, old(host.script.Future()))
      ensures since == if ok then |host.undone| else old(since)
      ensures host.script.Smooth(ok && host.Clean(|old(host.undone)|))
      ensures old(host.script.Lone()) ==> host.Clean(|old(host.undone)|)
    {
      hide AllTrue, IsListing, CleanupCalls;
      AllTrueFrom(true, []);
      AllTrueJoined(host.undone, [], |host.undone|);
      var replaced;
      replaced, ok := Publish();
      if !ok {
        active := active - {bridge};
        Withdraw(replaced || !first);
      } else {
        since := |host.undone|;
      }
    }

    /** Rules for the active bridges, then the record of them. */
    method Publish() returns (replaced: bool, ok: bool)
      modifies this`state, host`rules, host`file, host.script
      ensures ok ==> replaced
      ensures replaced ==> IsListing(host.rules, MaskAll(active))
      ensures !replaced ==> host.rules == old(host.rules)
      ensures state == if replaced then old(state).(networks := active) else old(state)
      ensures host.file == if ok then Some(state) else old(host.file)
      ensures var next := old(host.script.Future());
              && replaced == next.Succeeds() && ok == (replaced && next.Next().Succeeds())
              && host.script.Future() == if replaced then next.Next().Next() else next.Next()
      ensures host.script.Smooth(ok) && host.script.Once(ok)
    {
      var networks := SortedNetworks(active);
      replaced := host.ReplaceRules(networks);
      ok := replaced;
      if replaced {
        ok := Save();
      }
    }

    /**
     * The end of a failed start: put the rules of the other bridges back, then
     * clean up when no bridge is left and save the others when some are.
     */
    method Withdraw(replace: bool)
      requires Recorded() && owned && (active != map[] ==> replace && host.forwarding)
      modifies this`state, this`owned, host, host.script
      ensures Valid()
      ensures host.undone == old(host.undone)
              + WithdrawCalls(replace, active == map[], old(state).changed, old(host.script.Future()))
      ensures host.script.Smooth(host.Clean(|old(host.undone)|))
    {
      hide AllTrue, IsListing;
      ghost var next := host.script.Future();
      if replace {
        Rollback();
        AllTrueFrom(next.Succeeds(), CleanupCalls(state.changed, next.Next()));
      }
      AllTrueJoined(old(host.undone), if replace then [next.Succeeds()] else [], since);
      AllTrueFrom(next.Succeeds(), []);
      ghost var middle := host.undone;
      if active == map[] {
        AllTrueJoined(middle, CleanupCalls(state.changed, if replace then next.Next() else next), |middle|);
        var _ := Cleanup();
      } else {
        var _ := Save();
      }
      AllTrueJoined(old(host.undone), WithdrawCalls(replace, active == map[], old(state).changed, next), since);
    }

    /** Put the rules of the active bridges back after a failed step. */
    method Rollback()
      modifies host`rules, host`undone, host.script
      ensures host.undone == old(host.undone) + [old(host.script.Succeeding())]
      ensures if old(host.script.Succeeding()) then IsListing(host.rules, MaskAll(active))
              else host.rules == old(host.rules)
      ensures host.script.Advanced() && host.script.Smooth(host.Clean(|old(host.undone)|))
    {
      var networks := SortedNetworks(active);
      var ok := host.PutRulesBack(networks);
      AllTrueJoined(old(host.undone), [ok], 0);
      AllTrueFrom(ok, []);
    }

    /** nat.go:136-155. */
    method Stop(bridge: string) returns (ok: bool)
      requires Valid()
      modifies this, host, host.script
      ensures Valid() && recovering == old(recovering)
      ensures active == old(active) || active == old(active) - {bridge}
      ensures ok ==> active == old(active) - {bridge}
      ensures ok && bridge in old(active) ==> Shown()
      ensures ok && bridge in old(active) && active == map[] ==> host.Restored() && !owned
      ensures host.undone == old(host.undone) + if bridge in old(active)
                then StopCalls(old(active) - {bridge} == map[], old(state).changed, old(host.script.Future())) else []
      ensures since == if ok && bridge in old(active) then |host.undone| else old(since)
      ensures bridge in old(active) && !old(host.script.Succeeding()) ==>
                !ok && active == old(active) && host.rules == old(host.rules) && host.forwarding == old(host.forwarding)
      ensures host.script.Smooth(ok && host.Clean(|old(host.undone)|))
    {
      if bridge !in active {
        assert active == active - {bridge};
        return true;
      }
      ok := StopActive(bridge);
    }

    method StopActive(bridge: string) returns (ok: bool)
      requires Valid() && bridge in active
      modifies this, host, host.script
      ensures Valid() && recovering == old(recovering)
      ensures active == if old(host.script.Succeeding()) then old(active) - {bridge} else old(active)
      ensures !old(host.script.Succeeding()) ==>
                !ok && host.rules == old(host.rules) && host.forwarding == old(host.forwarding)
      ensures ok ==> Shown() && (active == map[] ==> host.Restored() && !owned)
      ensures host.undone == old(host.undone)
              + StopCalls(old(active) - {bridge} == map[], old(state).changed, old(host.script.Future()))
      ensures since == if ok then |host.undone| else old(since)
      ensures host.script.Smooth(ok && host.Clean(|old(host.undone)|))
    {
      hide AllTrue, IsListing, NoLoneFailure;
      ok := Unlist(bridge);
      if ok {
        ok := SaveOrRelinquish();
      } else {
        AllTrueFrom(true, []);
        AllTrueJoined(host.undone, [], |host.undone|);
      }
      if ok {
        since := |host.undone|;
      }
    }

    /** nat.go:142-147: a bridge whose rules cannot be taken away stays active. */
    method Unlist(bridge: string) returns (ok: bool)
      requires bridge in active
      modifies this`active, host`rules, host.script
      ensures ok == old(host.script.Succeeding()) && host.script.Advanced() && host.script.Smooth(ok)
      ensures active == if ok then old(active) - {bridge} else old(active)
      ensures if ok then IsListing(host.rules, MaskAll(active)) else host.rules == old(host.rules)
      ensures ok && active == map[] ==> host.rules == []
    {
      var prefix := active[bridge];
      active := active - {bridge};
      var networks := SortedNetworks(active);
      ok := host.ReplaceRules(networks);
      if !ok {
        active := active[bridge := prefix];
      }
    }

    /** nat.go:148-154. */
    method SaveOrRelinquish() returns (ok: bool)
      requires Recorded() && owned && IsListing(host.rules, MaskAll(active)) && (active == map[] ==> host.rules == [])
      modifies this`state, this`owned, host`forwarding, host`file, host`undone, host.script
      ensures Valid()
      ensures ok ==> Shown() && (active == map[] ==> host.Restored() && !owned)
      ensures host.undone ==
              old(host.undone) + if active == map[] && old(state).changed then [old(host.script.Succeeding())] else []
      ensures host.script.Smooth(ok && host.Clean(|old(host.undone)|))
    {
      hide AllTrue, IsListing, NoLoneFailure;
      AllTrueFrom(true, []);
      AllTrueJoined(host.undone, [], |host.undone|);
      if active != map[] {
        ok := Save();
      } else {
        ok := Relinquish();
      }
    }

    /** nat.go:151-154, after the last bridge was stopped. */
    method Relinquish() returns (ok: bool)
      requires Recorded() && owned && active == map[] && host.rules == []
      modifies this`state, this`owned, host`forwarding, host`file, host`undone, host.script
      ensures Valid()
      ensures ok ==> host.Restored() && !owned
      ensures host.undone == old(host.undone) + if old(state).changed then [old(host.script.Succeeding())] else []
      ensures host.script.Smooth(ok && host.Clean(|old(host.undone)|))
    {
      hide AllTrue;
      ghost var changed := state.changed;
      var restored := RestoreForwarding();
      AllTrueFrom(restored, []);
      AllTrueJoined(old(host.undone), if changed then [restored] else [], since);
      if !restored {
        var _ := Save();
        return false;
      }
      ok := RemoveState();
    }

    /** nat.go:164-175. */
    method FinishRecovery() returns (ok: bool)
      requires Valid()
      modifies this, host, host.script
      ensures Valid() && !recovering && active == old(active)
      ensures !old(recovering) ==> ok && unchanged(host)
      ensures ok && old(recovering) && active == map[] ==> host.Restored()
      ensures host.undone == old(host.undone) + if old(recovering) && active == map[]
              then CleanupCalls(old(state).changed, old(host.script.Future())) else []
      ensures since == if ok && old(recovering) && active == map[] then |host.undone| else old(since)
      ensures host.script.Smooth(ok && host.Clean(|old(host.undone)|))
    {
      if !recovering {
        return true;
      }
      recovering := false;
      if active != map[] {
        ok := Save();
        return;
      }
      ok := Cleanup();
      if ok {
        since := |host.undone|;
      }
    }

    /** nat.go:177-184, reached with no bridge active. */
    method Cleanup() returns (ok: bool)
      requires host.Safe() && active == map[] && since <= |host.undone|
      requires state.original == host.pristine && (state.changed ==> !state.original)
      requires owned ==> host.file.Some?
      requires !owned ==> host.rules == [] && !state.changed
      requires host.forwarding != host.pristine ==> owned && state.changed
      modifies this`state, this`owned, host, host.script
      ensures Valid()
      ensures ok ==> host.Restored()
      ensures host.undone == old(host.undone) + CleanupCalls(old(state).changed, old(host.script.Future()))
      ensures host.script.Smooth(ok && host.Clean(|old(host.undone)|))
    {
      hide AllTrue, NoLoneFailure;
      AllTrueJoined(host.undone, CleanupCalls(state.changed, host.script.Future()), since);
      ok := PutBack();
      if !ok {
        var _ := Save();
      } else {
        ok := RemoveState();
      }
    }

    /** nat.go:178-181: rules and forwarding are put back, each whatever became of the other. */
    method PutBack() returns (ok: bool)
      requires state.original == host.pristine
      requires host.forwarding != host.pristine ==> state.changed
      modifies this`state, host`rules, host`forwarding, host`undone, host.script
      ensures host.rules == [] || host.rules == old(host.rules)
      ensures host.forwarding == host.pristine || (host.forwarding == old(host.forwarding) && state == old(state))
      ensures state == old(state) || state == old(state).(changed := false)
      ensures ok ==> host.rules == [] && host.forwarding == host.pristine && !state.changed
      ensures host.undone == old(host.undone) + CleanupCalls(old(state).changed, old(host.script.Future()))
      ensures ok <==> AllTrue(CleanupCalls(old(state).changed, old(host.script.Future())), 0)
      ensures host.script.Smooth(ok)
    {
      hide AllTrue, NoLoneFailure;
      ghost var changed := state.changed;
      var rulesOk := host.PutRulesBack([]);
      var forwardingOk := RestoreForwarding();
      AllTrueFrom(rulesOk, if changed then [forwardingOk] else []);
      AllTrueFrom(forwardingOk, []);
      ok := rulesOk && forwardingOk;
    }

    /** nat.go:186-192. */
    method RemoveState() returns (ok: bool)
      modifies this`owned, host`file, host.script
      ensures host.file == if ok then None else old(host.file)
      ensures owned == (!ok && old(owned))
      ensures host.script.Smooth(ok)
    {
      ok := host.RemoveIfExists();
      if ok {
        owned := false;
      }
    }

    /** nat.go:194-203. */
    method RestoreForwarding() returns (ok: bool)
      requires state.original == host.pristine
      requires host.forwarding != host.pristine ==> state.changed
      modifies this`state, host`forwarding, host`undone, host.script
      ensures state.original == old(state).original && state.networks == old(state).networks
      ensures ok ==> host.forwarding == host.pristine && !state.changed
      ensures !ok ==> state == old(state) && state.changed
      ensures host.forwarding == host.pristine || host.forwarding == old(host.forwarding)
      ensures ok == (!old(state).changed || old(host.script.Succeeding()))
      ensures host.undone == old(host.undone) + if old(state).changed then [ok] else []
      ensures host.script.Smooth(ok)
    {
      if !state.changed {
        return true;
      }
      ok := host.PutForwardingBack(state.original);
      if ok {
        state := state.(changed := false);
      }
    }

    /** nat.go:205-219. */
    method Save() returns (ok: bool)
      modifies this`state, host`file, host.script
      ensures state == old(state).(networks := active)
      ensures host.file == if ok then Some(state) else old(host.file)
      ensures ok == old(host.script.Succeeding()) && host.script.Advanced()
      ensures host.script.Smooth(ok) && host.script.Once(ok)
    {
      state := state.(networks := active);
      ok := host.WriteFile(state);
    }
  }

  /** nat.go:61-76: the manager starts empty, or recovering when a record is there. */
  method Open(host: Host) returns (manager: Option<Manager>)
    requires host.Safe()
    modifies host.script
    ensures manager.Some? ==>
              && fresh(manager.value) && manager.value.Valid() && manager.value.host == host
              && manager.value.active == map[]
              && manager.value.recovering == host.file.Some?
    ensures manager.Some? ==> manager.value.since == |host.undone| && host.Clean(manager.value.since)
    ensures manager.Some? ==> host.script.alive
    ensures host.script.Smooth(manager.Some?)
  {
    var took, ok := host.script.Attempt();
    if !ok {
      return None;
    }
    var created := new Manager(host, host.file);
    manager := Some(created);
  }

  // ---- whole runs

  datatype Command =
    | Start(bridge: string, prefix: Prefix)
    | Stop(bridge: string)
    | FinishRecovery
    | Restart

  /**
   * Any sequence of commands over any fault script, with a crash at any call:
   * the host is crash safe at the end (so at every point), and outside
   * recovery a running manager's kernel shows the active bridges unless a call
   * that should have put something back failed, after which no start or stop
   * succeeded.  When no call failed by itself, wherever the daemon crashed,
   * no such call did.
   */
  method Run(host: Host, commands: seq<Command>) returns (manager: Option<Manager>)
    requires host.Safe()
    modifies host, host.script
    ensures host.Safe() && old(host.undone) <= host.undone
    ensures manager.Some? ==>
              manager.value.host == host && manager.value.Valid() && |old(host.undone)| <= manager.value.since
    ensures manager.Some? && !manager.value.recovering ==> manager.value.Steady()
    ensures manager.Some? && !manager.value.recovering && host.Clean(|old(host.undone)|) ==> manager.value.Shown()
    ensures old(host.script.CrashOnly()) ==> host.script.CrashOnly()
    ensures old(host.script.Calm()) ==> host.script.Calm()
    ensures old(host.script.CrashOnly()) && host.script.alive ==> manager.Some? && host.Clean(manager.value.since)
    ensures old(host.script.CrashOnly()) && host.script.alive && !manager.value.recovering ==> manager.value.Shown()
  {
    hide AllTrue, IsListing;
    manager := Open(host);
    for k := 0 to |commands|
      invariant host.Safe() && old(host.undone) <= host.undone
      invariant manager.Some? ==> manager.value.host == host && fresh(manager.value) && manager.value.Valid()
      invariant manager.Some? ==> |old(host.undone)| <= manager.value.since
      invariant old(host.script.CrashOnly()) ==> host.script.CrashOnly()
      invariant old(host.script.Calm()) ==> host.script.Calm()
      invariant old(host.script.CrashOnly()) && host.script.alive ==> manager.Some? && host.Clean(manager.value.since)
    {
      manager := Perform(host, manager, commands[k]);
    }
    if manager.Some? {
      AllTrueLater(host.undone, |old(host.undone)|, manager.value.since);
    }
  }

  method Perform(host: Host, current: Option<Manager>, command: Command) returns (manager: Option<Manager>)
    requires host.Safe()
    requires current.Some? ==> current.value.host == host && current.value.Valid()
    modifies host, host.script, if current.Some? then {current.value} else {}
    ensures host.Safe() && old(host.undone) <= host.undone
    ensures manager.Some? ==> manager.value.host == host && manager.value.Valid()
    ensures manager.Some? ==> fresh(manager.value) || manager == current
    ensures manager.Some? ==>
              manager.value.since >= |old(host.undone)|
              || (manager == current && manager.value.since == old(manager.value.since))
    ensures old(host.script.CrashOnly()) ==> host.script.CrashOnly()
    ensures old(host.script.Calm()) ==> host.script.Calm()
    ensures old(host.script.CrashOnly()) && host.script.alive
            && (old(host.script.alive) ==> current.Some? && old(host.Clean(current.value.since))) ==>
              manager.Some? && host.Clean(manager.value.since)
  {
    hide IsListing, NoLoneFailure;
    manager := current;
    if command.Restart? {
      host.script.Restart();
      manager := Open(host);
    } else if manager.Some? && host.script.alive {
      match command {
        case Start(bridge, prefix) =>
          var _ := manager.value.Start(bridge, prefix);
        case Stop(bridge) =>
          var _ := manager.value.Stop(bridge);
        case FinishRecovery =>
          var _ := manager.value.FinishRecovery();
      }
    }
  }

  /**
   * The daemon starts again and finishes recovery with no bridge started:
   * forwarding, rules and file are back, and they are whenever the calls work.
   */
  method Recover(host: Host) returns (ok: bool)
    requires host.Safe()
    modifies host, host.script
    ensures host.Safe()
    ensures ok ==> host.Restored()
    ensures old(host.script.CrashOnly()) && host.script.alive ==> ok
    ensures old(host.script.fates) == [] ==> ok
  {
    host.script.Restart();
    var manager := Open(host);
    if manager.None? {
      return false;
    }
    ok := manager.value.FinishRecovery();
  }

  /** A crash anywhere in any run is recovered from. */
  method RecoverAfterCrash(host: Host, commands: seq<Command>) returns (ok: bool)
    requires host.Safe()
    modifies host, host.script
    ensures host.Safe()
    ensures ok ==> host.Restored()
    ensures old(host.script.CrashOnly()) && host.script.alive ==> ok
  {
    var _ := Run(host, commands);
    ok := Recover(host);
  }
}
