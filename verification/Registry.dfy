/** The registry of Connector connections: a tenant index and a hostname index that change together
    under a write lock while readers look up without it (connector_registry.rs). */
module Registry {
  import opened Wrappers

  datatype Protocol = Http | Tcp | Udp

  datatype Handle = Handle(
    tenant: string, hostnames: seq<string>, services: Option<map<string, set<Protocol>>>, generation: nat)

  /** `active` is the connection gauge; `ended` lists the generations that were replaced or removed. */
  datatype Reg = Reg(byHost: map<string, Handle>, byTenant: map<string, Handle>, nextGeneration: nat, active: int,
    ended: seq<nat>)

  const EMPTY: Reg := Reg(map[], map[], 0, 0, [])

  // ----- Micro-steps on the hostname index -----

  /** Remove a hostname only while it still points at this generation. */
  function DropHost(m: map<string, Handle>, h: string, generation: nat): map<string, Handle> {
    if h in m && m[h].generation == generation then m - {h} else m
  }

  function DropHosts(m: map<string, Handle>, hs: seq<string>, generation: nat): map<string, Handle> {
    if hs == [] then m else DropHost(DropHosts(m, hs[..|hs| - 1], generation), hs[|hs| - 1], generation)
  }

  function PutHosts(m: map<string, Handle>, hs: seq<string>, x: Handle): map<string, Handle> {
    if hs == [] then m else PutHosts(m, hs[..|hs| - 1], x)[hs[|hs| - 1] := x]
  }

  lemma {:induction false} DropHostsIs(m: map<string, Handle>, hs: seq<string>, generation: nat, h: string)
    ensures Lookup(DropHosts(m, hs, generation), h) ==
            if h in hs && h in m && m[h].generation == generation then None else Lookup(m, h)
  {
    if hs != [] {
      DropHostsIs(m, hs[..|hs| - 1], generation, h);
      assert hs == hs[..|hs| - 1] + [hs[|hs| - 1]];
    }
  }

  lemma {:induction false} PutHostsIs(m: map<string, Handle>, hs: seq<string>, x: Handle, h: string)
    ensures Lookup(PutHosts(m, hs, x), h) == if h in hs then Some(x) else Lookup(m, h)
  {
    if hs != [] {
      PutHostsIs(m, hs[..|hs| - 1], x, h);
      assert hs == hs[..|hs| - 1] + [hs[|hs| - 1]];
    }
  }

  // ----- The operations -----

  predicate Taken(r: Reg, tenant: string, h: string) { h in r.byHost && r.byHost[h].tenant != tenant }

  function Previous(r: Reg, x: Handle): Option<Handle> { Lookup(r.byTenant, x.tenant) }

  /** The hostname index once the previous registration's names are gone. */
  function Cleared(r: Reg, x: Handle): map<string, Handle> {
    match Previous(r, x)
    case Some(p) => DropHosts(r.byHost, p.hostnames, p.generation)
    case None => r.byHost
  }

  function Registered(r: Reg, x: Handle): Reg {
    Reg(PutHosts(Cleared(r, x), x.hostnames, x), r.byTenant[x.tenant := x], x.generation,
        if Previous(r, x).Some? then r.active else r.active + 1,
        if Previous(r, x).Some? then r.ended + [Previous(r, x).value.generation] else r.ended)
  }

  predicate Current(r: Reg, tenant: string, generation: nat) {
    tenant in r.byTenant && r.byTenant[tenant].generation == generation
  }

  function Removed(r: Reg, tenant: string, generation: nat): Reg {
    if Current(r, tenant, generation) then
      Reg(DropHosts(r.byHost, r.byTenant[tenant].hostnames, generation), r.byTenant - {tenant}, r.nextGeneration,
          r.active - 1, r.ended + [generation])
    else r
  }

  datatype Event =
    | Register(tenant: string, hostnames: seq<string>, services: Option<map<string, set<Protocol>>>)
    | Remove(tenant: string, generation: nat)

  predicate Admits(r: Reg, tenant: string, hostnames: seq<string>) {
    forall h :: h in hostnames ==> !Taken(r, tenant, h)
  }

  function Next(r: Reg, e: Event): Reg {
    match e
    case Register(tenant, hostnames, services) =>
      if Admits(r, tenant, hostnames) then Registered(r, Handle(tenant, hostnames, services, r.nextGeneration + 1))
      else r
    case Remove(tenant, generation) => Removed(r, tenant, generation)
  }

  // ----- What every operation keeps -----

  /** The hostname index is the one derived from the tenant index. */
  ghost predicate Derived(r: Reg) {
    && (forall h :: h in r.byHost ==>
          Lookup(r.byTenant, r.byHost[h].tenant) == Some(r.byHost[h]) && h in r.byHost[h].hostnames)
    && (forall t, h :: t in r.byTenant && h in r.byTenant[t].hostnames ==> Lookup(r.byHost, h) == Some(r.byTenant[t]))
  }

  ghost predicate Numbered(r: Reg) {
    && (forall t :: t in r.byTenant ==> r.byTenant[t].tenant == t && 1 <= r.byTenant[t].generation <= r.nextGeneration)
    && (forall t, u :: t in r.byTenant && u in r.byTenant && r.byTenant[t].generation == r.byTenant[u].generation ==>
          t == u)
  }

  ghost predicate Live(r: Reg, g: nat) { exists t :: t in r.byTenant && r.byTenant[t].generation == g }

  /** Every generation handed out is live or has ended, never both and never ended twice. */
  ghost predicate EndsOnce(r: Reg) {
    && (forall g: nat :: 1 <= g <= r.nextGeneration ==> (Live(r, g) <==> g !in r.ended))
    && (forall g :: g in r.ended ==> 1 <= g <= r.nextGeneration)
    && (forall i, j :: 0 <= i < j < |r.ended| ==> r.ended[i] != r.ended[j])
  }

  ghost predicate Inv(r: Reg) {
    Derived(r) && Numbered(r) && EndsOnce(r) && r.active == |r.byTenant|
  }

  lemma RegisterKeepsIndexes(r: Reg, x: Handle)
    requires Derived(r) && Numbered(r) && Admits(r, x.tenant, x.hostnames) && x.generation == r.nextGeneration + 1
    ensures Derived(Registered(r, x)) && Numbered(Registered(r, x))
  {
    var r' := Registered(r, x);
    forall h | h in r'.byHost
      ensures Lookup(r'.byTenant, r'.byHost[h].tenant) == Some(r'.byHost[h]) && h in r'.byHost[h].hostnames
    {
      LookupAfterRegister(r, x, h);
    }
    forall t, h | t in r'.byTenant && h in r'.byTenant[t].hostnames
      ensures Lookup(r'.byHost, h) == Some(r'.byTenant[t])
    {
      LookupAfterRegister(r, x, h);
      if t != x.tenant {
        assert Lookup(r.byHost, h) == Some(r.byTenant[t]);
        assert h in x.hostnames ==> !Taken(r, x.tenant, h);
      }
    }
  }

  lemma LookupAfterRegister(r: Reg, x: Handle, h: string)
    requires Derived(r) && Numbered(r)
    ensures Lookup(Registered(r, x).byHost, h) ==
            if h in x.hostnames then Some(x)
            else if h in r.byHost && r.byHost[h].tenant == x.tenant then None else Lookup(r.byHost, h)
  {
    PutHostsIs(Cleared(r, x), x.hostnames, x, h);
    if Previous(r, x).Some? {
      DropHostsIs(r.byHost, Previous(r, x).value.hostnames, Previous(r, x).value.generation, h);
    }
  }

  /** Removing the tenant's current generation ends it: the tenant has no entry, every hostname that resolved to
      it resolves to nothing and every other lookup is as before. Anything else leaves the registry alone. */
  lemma LookupAfterRemove(r: Reg, tenant: string, generation: nat, h: string, other: string)
    requires Derived(r) && Numbered(r)
    ensures var r' := Next(r, Remove(tenant, generation));
            if tenant in r.byTenant && r.byTenant[tenant].generation == generation then
              && tenant !in r'.byTenant
              && (other != tenant ==> Lookup(r'.byTenant, other) == Lookup(r.byTenant, other))
              && Lookup(r'.byHost, h) ==
                 (if h in r.byHost && r.byHost[h].generation == generation then None else Lookup(r.byHost, h))
              && r'.active == r.active - 1 && r'.ended == r.ended + [generation]
              && r'.nextGeneration == r.nextGeneration
            else r' == r
  {
    if Current(r, tenant, generation) {
      DropHostsIs(r.byHost, r.byTenant[tenant].hostnames, generation, h);
    }
  }

  /** A tenant that is removed can register again; its old generation can no longer remove anything. */
  lemma RemovedThenRegistered(r: Reg, tenant: string, generation: nat, hostnames: seq<string>,
      services: Option<map<string, set<Protocol>>>)
    requires Inv(r) && Current(r, tenant, generation) && Admits(r, tenant, hostnames)
    ensures var r1 := Removed(r, tenant, generation);
            var r2 := Next(r1, Register(tenant, hostnames, services));
            && Admits(r1, tenant, hostnames)
            && tenant in r2.byTenant && r2.byTenant[tenant].generation > generation
            && r2.active == r.active && Removed(r2, tenant, generation) == r2
            && forall h :: h in hostnames ==> Lookup(r2.byHost, h) == Some(r2.byTenant[tenant])
  {
    var r1 := Removed(r, tenant, generation);
    forall h | h in hostnames ensures !Taken(r1, tenant, h) {
      LookupAfterRemove(r, tenant, generation, h, tenant);
      assert !Taken(r, tenant, h);
    }
    RemoveKeepsIndexes(r, tenant, generation);
    var x := Handle(tenant, hostnames, services, r1.nextGeneration + 1);
    forall h | h in hostnames ensures Lookup(Registered(r1, x).byHost, h) == Some(x) {
      LookupAfterRegister(r1, x, h);
    }
  }

  lemma RemoveKeepsIndexes(r: Reg, tenant: string, generation: nat)
    requires Derived(r) && Numbered(r) && Current(r, tenant, generation)
    ensures Derived(Removed(r, tenant, generation)) && Numbered(Removed(r, tenant, generation))
  {
    var r' := Removed(r, tenant, generation);
    forall h | h in r'.byHost
      ensures Lookup(r'.byTenant, r'.byHost[h].tenant) == Some(r'.byHost[h]) && h in r'.byHost[h].hostnames
    {
      DropHostsIs(r.byHost, r.byTenant[tenant].hostnames, generation, h);
    }
    forall t, h | t in r'.byTenant && h in r'.byTenant[t].hostnames
      ensures Lookup(r'.byHost, h) == Some(r'.byTenant[t])
    {
      assert Lookup(r.byHost, h) == Some(r.byTenant[t]) && r.byTenant[t].generation != generation;
      DropHostsIs(r.byHost, r.byTenant[tenant].hostnames, generation, h);
    }
  }

  /** One generation ends, and perhaps the next one starts. */
  lemma EndingKeeps(r: Reg, r': Reg, gone: Option<nat>, tenant: string)
    requires Numbered(r) && Numbered(r') && EndsOnce(r)
    requires gone == (if tenant in r.byTenant then Some(r.byTenant[tenant].generation) else None)
    requires r'.ended == if gone.Some? then r.ended + [gone.value] else r.ended
    requires (r'.byTenant == r.byTenant - {tenant} && r'.nextGeneration == r.nextGeneration)
             || (exists x ::
                   r'.byTenant == r.byTenant[tenant := x] && x.generation == r.nextGeneration + 1 == r'.nextGeneration)
    ensures EndsOnce(r')
  {
    if gone.Some? { assert Live(r, gone.value); }
    forall g: nat | 1 <= g <= r'.nextGeneration ensures Live(r', g) <==> g !in r'.ended {
      if g <= r.nextGeneration {
        if Live(r, g) {
          var t :| t in r.byTenant && r.byTenant[t].generation == g;
          if t != tenant { assert t in r'.byTenant && r'.byTenant[t].generation == g; }
        }
        if Live(r', g) {
          var t :| t in r'.byTenant && r'.byTenant[t].generation == g;
          assert t in r.byTenant && t != tenant;
        }
      } else {
        assert r'.byTenant[tenant].generation == g;
      }
    }
  }

  lemma Counts(m: map<string, Handle>, tenant: string, x: Handle)
    ensures |m[tenant := x]| == |m| + (if tenant in m then 0 else 1)
    ensures |m - {tenant}| == |m| - (if tenant in m then 1 else 0)
  {
    assert m[tenant := x].Keys == m.Keys + {tenant};
    assert (m - {tenant}).Keys == m.Keys - {tenant};
    assert |m| == |m.Keys| && |m[tenant := x]| == |m.Keys + {tenant}| && |m - {tenant}| == |m.Keys - {tenant}|;
  }

  lemma StepKeepsInv(r: Reg, e: Event)
    requires Inv(r)
    ensures Inv(Next(r, e))
  {
    match e {
      case Register(tenant, hostnames, services) =>
        if Admits(r, tenant, hostnames) {
          var x := Handle(tenant, hostnames, services, r.nextGeneration + 1);
          RegisterKeepsIndexes(r, x);
          assert Registered(r, x).byTenant == r.byTenant[tenant := x];
          EndingKeeps(r, Registered(r, x),
                      if tenant in r.byTenant then Some(r.byTenant[tenant].generation) else None, tenant);
          Counts(r.byTenant, tenant, x);
        }
      case Remove(tenant, generation) =>
        if Current(r, tenant, generation) {
          RemoveKeepsIndexes(r, tenant, generation);
          EndingKeeps(r, Removed(r, tenant, generation), Some(generation), tenant);
          Counts(r.byTenant, tenant, r.byTenant[tenant]);
        }
    }
  }

  function Run(r: Reg, es: seq<Event>): Reg
    decreases |es|
  {
    if es == [] then r else Run(Next(r, es[0]), es[1..])
  }

  ghost predicate OneTenantPerHost(r: Reg) {
    forall t, u, h ::
      t in r.byTenant && u in r.byTenant && h in r.byTenant[t].hostnames && h in r.byTenant[u].hostnames ==> t == u
  }

  /** After every run from an empty registry: the hostname index is exactly the one derived from the
      tenant index, so no hostname has two tenants; every registration ends exactly once; the gauge
      counts the tenants. */
  lemma {:induction false} IndexesAgree(r: Reg, es: seq<Event>)
    requires Inv(r)
    ensures Inv(Run(r, es)) && OneTenantPerHost(Run(r, es))
    decreases |es|
  {
    if es == [] {
      forall t, u, h | t in r.byTenant && u in r.byTenant && h in r.byTenant[t].hostnames &&
        h in r.byTenant[u].hostnames
        ensures t == u
      {
        assert Lookup(r.byHost, h) == Some(r.byTenant[t]) == Some(r.byTenant[u]);
      }
    } else {
      StepKeepsInv(r, es[0]);
      IndexesAgree(Next(r, es[0]), es[1..]);
    }
  }

  lemma EmptyIsInv()
    ensures Inv(EMPTY)
  {
  }

  /** A disconnect that arrives late removes nothing: its generation ended with the replacement. */
  lemma {:induction false} StaleDisconnectIsIgnored(r: Reg, es: seq<Event>, tenant: string, generation: nat)
    requires Inv(r) && generation in r.ended
    ensures Removed(Run(r, es), tenant, generation) == Run(r, es)
    ensures generation in Run(r, es).ended
    decreases |es|
  {
    if es == [] {
      assert Current(r, tenant, generation) ==> Live(r, generation);
    } else {
      StepKeepsInv(r, es[0]);
      StaleDisconnectIsIgnored(Next(r, es[0]), es[1..], tenant, generation);
    }
  }

  // ----- Readers between two micro-steps of a registration -----

  /** The index after `dropped` of the previous names and then `put` of the new ones. */
  function MidRegister(r: Reg, x: Handle, dropped: nat, put: nat): map<string, Handle>
    requires Previous(r, x).Some? ==> dropped <= |Previous(r, x).value.hostnames|
    requires put <= |x.hostnames|
  {
    var cleared := match Previous(r, x)
                   case Some(p) => DropHosts(r.byHost, p.hostnames[..dropped], p.generation)
                   case None => r.byHost;
    PutHosts(cleared, x.hostnames[..put], x)
  }

  /** A reader at any micro-step finds the old handle, the new handle or nothing, and so never a
      handle of a different tenant. It finds nothing although the name is served before and after
      exactly while the name was dropped for the old registration and not yet put for the new one. */
  lemma ReaderSeesOldNewOrNothing(r: Reg, x: Handle, dropped: nat, put: nat, h: string)
    requires Derived(r) && Numbered(r) && Admits(r, x.tenant, x.hostnames) && x.generation == r.nextGeneration + 1
    requires Previous(r, x).Some? ==> dropped <= |Previous(r, x).value.hostnames|
    requires put <= |x.hostnames|
    requires put > 0 && Previous(r, x).Some? ==> dropped == |Previous(r, x).value.hostnames|
    ensures var seen, before, after :=
            Lookup(MidRegister(r, x, dropped, put), h), Lookup(r.byHost, h), Lookup(Registered(r, x).byHost, h);
            && (seen == None || seen == before || seen == after)
            && (seen.Some? && before.Some? ==> seen.value.tenant == before.value.tenant)
            && (seen.Some? && after.Some? ==> seen.value.tenant == after.value.tenant)
            && (seen.None? && before.Some? && after.Some? <==>
                  && Previous(r, x).Some? && h in Previous(r, x).value.hostnames[..dropped]
                  && h in x.hostnames && h !in x.hostnames[..put])
  {
    LookupAfterRegister(r, x, h);
    assert h in x.hostnames ==> !Taken(r, x.tenant, h);
    assert h in x.hostnames[..put] ==> h in x.hostnames;
    match Previous(r, x) {
      case Some(p) =>
        assert h in p.hostnames[..dropped] ==> h in p.hostnames;
        assert dropped == |p.hostnames| ==> p.hostnames[..dropped] == p.hostnames;
        DropHostsIs(r.byHost, p.hostnames[..dropped], p.generation, h);
        PutHostsIs(DropHosts(r.byHost, p.hostnames[..dropped], p.generation), x.hostnames[..put], x, h);
      case None =>
        PutHostsIs(r.byHost, x.hostnames[..put], x, h);
    }
  }

  /** The gap on a concrete run: a Connector that serves `h` reconnects, and between the two loops a
      reader finds nothing. */
  lemma ReconnectIsMissed(tenant: string, h: string)
    ensures var r := Run(EMPTY, [Register(tenant, [h], None)]);
            var x := Handle(tenant, [h], None, 2);
            && Next(r, Register(tenant, [h], None)) == Registered(r, x)
            && Previous(r, x).Some? && |Previous(r, x).value.hostnames| == 1
            && h in r.byHost && h in Registered(r, x).byHost && h !in MidRegister(r, x, 1, 0)
  {
    var first, x := Handle(tenant, [h], None, 1), Handle(tenant, [h], None, 2);
    var r := Next(EMPTY, Register(tenant, [h], None));
    assert [Register(tenant, [h], None)][1..] == [];
    assert Run(EMPTY, [Register(tenant, [h], None)]) == r;
    EmptyIsInv();
    StepKeepsInv(EMPTY, Register(tenant, [h], None));
    LookupAfterRegister(EMPTY, first, h);
    LookupAfterRegister(r, x, h);
    ReaderSeesOldNewOrNothing(r, x, 1, 0, h);
  }

  // ----- The registry itself -----

  class ConnectorRegistry {
    var byHost: map<string, Handle>
    var byTenant: map<string, Handle>
    var nextGeneration: nat
    var active: int
    ghost var ended: seq<nat>

    ghost function Contents(): Reg
      reads this
    {
      Reg(byHost, byTenant, nextGeneration, active, ended)
    }

    constructor ()
      ensures Contents() == EMPTY
    {
      byHost, byTenant, nextGeneration, active, ended := map[], map[], 0, 0, [];
    }

    method RemoveHostnames(hostnames: seq<string>, generation: nat)
      modifies this`byHost
      ensures byHost == DropHosts(old(byHost), hostnames, generation)
    {
      for i := 0 to |hostnames|
        invariant byHost == DropHosts(old(byHost), hostnames[..i], generation)
      {
        assert hostnames[..i + 1][..i] == hostnames[..i];
        if hostnames[i] in byHost && byHost[hostnames[i]].generation == generation {
          byHost := byHost - {hostnames[i]};
        }
      }
      assert hostnames[..|hostnames|] == hostnames;
    }

    method Register(tenant: string, hostnames: seq<string>, services: Option<map<string, set<Protocol>>>)
      returns (handle: Option<Handle>, replaced: Option<Handle>)
      modifies this
      ensures Contents() == Next(old(Contents()), Event.Register(tenant, hostnames, services))
      ensures handle.Some? <==> Admits(old(Contents()), tenant, hostnames)
      ensures handle.Some? ==> Lookup(byTenant, tenant) == handle && replaced == old(Lookup(byTenant, tenant))
    {
      for i := 0 to |hostnames|
        invariant forall k :: 0 <= k < i ==> !Taken(Contents(), tenant, hostnames[k])
        invariant Contents() == old(Contents())
      {
        if hostnames[i] in byHost && byHost[hostnames[i]].tenant != tenant {
          assert Taken(Contents(), tenant, hostnames[i]);
          return None, None;
        }
      }
      ghost var r := Contents();
      nextGeneration := nextGeneration + 1;
      var x := Handle(tenant, hostnames, services, nextGeneration);
      replaced := Lookup(byTenant, tenant);
      byTenant := byTenant[tenant := x];
      match replaced {
        case Some(previous) =>
          RemoveHostnames(previous.hostnames, previous.generation);
          ended := ended + [previous.generation];
        case None =>
          active := active + 1;
      }
      ghost var cleared := byHost;
      for i := 0 to |hostnames|
        invariant byHost == PutHosts(cleared, hostnames[..i], x)
        invariant Contents().(byHost := cleared) == Registered(r, x).(byHost := cleared)
      {
        assert hostnames[..i + 1][..i] == hostnames[..i];
        byHost := byHost[hostnames[i] := x];
      }
      assert hostnames[..|hostnames|] == hostnames;
      handle := Some(x);
    }

    method Remove(tenant: string, generation: nat) returns (removed: bool)
      modifies this
      ensures Contents() == Removed(old(Contents()), tenant, generation)
      ensures removed <==> tenant in old(byTenant) && old(byTenant)[tenant].generation == generation
      ensures !removed ==> Contents() == old(Contents())
      ensures removed ==>
                && byTenant == old(byTenant) - {tenant}
                && active == old(active) - 1 && ended == old(ended) + [generation]
      ensures removed && old(Inv(Contents())) ==>
                forall h :: Lookup(byHost, h) ==
                  if h in old(byHost) && old(byHost)[h].generation == generation then None else Lookup(old(byHost), h)
    {
      ghost var r := Contents();
      if tenant !in byTenant || byTenant[tenant].generation != generation {
        return false;
      }
      var handle := byTenant[tenant];
      byTenant := byTenant - {tenant};
      RemoveHostnames(handle.hostnames, generation);
      active := active - 1;
      ended := ended + [generation];
      if Inv(r) {
        forall h ensures Lookup(byHost, h) ==
            if h in r.byHost && r.byHost[h].generation == generation then None else Lookup(r.byHost, h)
        {
          LookupAfterRemove(r, tenant, generation, h, tenant);
        }
      }
      return true;
    }
  }
}
