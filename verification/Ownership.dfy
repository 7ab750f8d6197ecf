/** Hostname ownership across Edges: the all-or-nothing claim, the cache of confirmed owners that
    bridges an outage, and the registrations they admit (valkey.rs, quic_server.rs). */
module Ownership {
  import opened Wrappers
  import opened Registry

  // ----- The claim script -----

  predicate OwnedByOther(owners: map<string, string>, tenant: string, h: string) { h in owners && owners[h] != tenant }

  predicate Claimable(owners: map<string, string>, tenant: string, hostnames: seq<string>) {
    forall h :: h in hostnames ==> !OwnedByOther(owners, tenant, h)
  }

  /** Set every key that is not set yet. */
  function Claimed(owners: map<string, string>, tenant: string, hostnames: seq<string>): map<string, string> {
    if hostnames == [] then owners
    else
      var rest := Claimed(owners, tenant, hostnames[..|hostnames| - 1]);
      var h := hostnames[|hostnames| - 1];
      if h in rest then rest else rest[h := tenant]
  }

  lemma {:induction false} ClaimedIs(owners: map<string, string>, tenant: string, hostnames: seq<string>, h: string)
    ensures Lookup(Claimed(owners, tenant, hostnames), h) ==
            if h in owners then Some(owners[h]) else if h in hostnames then Some(tenant) else None
  {
    if hostnames != [] {
      ClaimedIs(owners, tenant, hostnames[..|hostnames| - 1], h);
      ClaimedIs(owners, tenant, hostnames[..|hostnames| - 1], hostnames[|hostnames| - 1]);
      assert hostnames == hostnames[..|hostnames| - 1] + [hostnames[|hostnames| - 1]];
    }
  }

  class OwnerStore {
    var owners: map<string, string>

    /** Claims every hostname or none: a conflict names the first hostname of another tenant and
        leaves every key as it was. */
    method ClaimScript(hostnames: seq<string>, tenant: string) returns (index: nat)
      modifies this
      ensures index == 0 <==> Claimable(old(owners), tenant, hostnames)
      ensures index == 0 ==> owners == Claimed(old(owners), tenant, hostnames)
      ensures index > 0 ==> && owners == old(owners) && index <= |hostnames|
                            && OwnedByOther(owners, tenant, hostnames[index - 1])
                            && forall k :: 0 <= k < index - 1 ==> !OwnedByOther(owners, tenant, hostnames[k])
    {
      for i := 0 to |hostnames|
        invariant owners == old(owners)
        invariant forall k :: 0 <= k < i ==> !OwnedByOther(owners, tenant, hostnames[k])
      {
        if hostnames[i] in owners && owners[hostnames[i]] != tenant {
          assert OwnedByOther(owners, tenant, hostnames[i]);
          return i + 1;
        }
      }
      for i := 0 to |hostnames|
        invariant owners == Claimed(old(owners), tenant, hostnames[..i])
      {
        assert hostnames[..i + 1][..i] == hostnames[..i];
        if hostnames[i] !in owners {
          owners := owners[hostnames[i] := tenant];
        }
      }
      assert hostnames[..|hostnames|] == hostnames;
      return 0;
    }
  }

  // ----- Edges that authenticate Connectors -----

  datatype Admission = Admission(tenant: string, hostnames: seq<string>, services: Option<map<string, set<Protocol>>>)

  /** `admitted` are Connectors whose ownership check passed and that are not registered yet. */
  datatype Edge = Edge(reg: Reg, confirmed: map<string, string>, admitted: set<Admission>)

  datatype Sys = Sys(owners: map<string, string>, edges: map<nat, Edge>)

  /** Valkey answers, is down, or its answer is lost after the script ran. */
  datatype Reply = Answers | Down | AnswerLost

  datatype Event =
    | Join(edge: nat)
    | Authenticate(edge: nat, admission: Admission, reply: Reply)
    | Enter(edge: nat, admission: Admission)
    | Disconnect(edge: nat, tenant: string, generation: nat)
    | CacheExpires(edge: nat, hostname: string)
    | Restart(edge: nat)

  predicate Confirmed(e: Edge, a: Admission) {
    forall h :: h in a.hostnames ==> Lookup(e.confirmed, h) == Some(a.tenant)
  }

  function NoteConfirmed(confirmed: map<string, string>, a: Admission): map<string, string> {
    PutOwners(confirmed, a.hostnames, a.tenant)
  }

  function PutOwners(m: map<string, string>, hs: seq<string>, tenant: string): map<string, string> {
    if hs == [] then m else PutOwners(m, hs[..|hs| - 1], tenant)[hs[|hs| - 1] := tenant]
  }

  lemma {:induction false} PutOwnersIs(m: map<string, string>, hs: seq<string>, tenant: string, h: string)
    ensures Lookup(PutOwners(m, hs, tenant), h) == if h in hs then Some(tenant) else Lookup(m, h)
  {
    if hs != [] {
      PutOwnersIs(m, hs[..|hs| - 1], tenant, h);
      assert hs == hs[..|hs| - 1] + [hs[|hs| - 1]];
    }
  }

  function Authenticated(s: Sys, edge: nat, a: Admission, reply: Reply): Sys
    requires edge in s.edges
  {
    var e := s.edges[edge];
    var claimable := Claimable(s.owners, a.tenant, a.hostnames);
    var owners := if !reply.Down? && claimable then Claimed(s.owners, a.tenant, a.hostnames) else s.owners;
    if reply.Answers? then
      if claimable then
        Sys(owners, s.edges[edge := e.(confirmed := NoteConfirmed(e.confirmed, a), admitted := e.admitted + {a})])
      else s
    else if Confirmed(e, a) then Sys(owners, s.edges[edge := e.(admitted := e.admitted + {a})])
    else s.(owners := owners)
  }

  /** What one authentication does, hostname by hostname. A Connector is admitted when Valkey answers that none of
      its hostnames belongs to another tenant, or, without an answer, when the Edge remembers all of them for its
      tenant. A claim that ran takes every free hostname or none; only an answered one is remembered. */
  lemma AuthenticationIs(s: Sys, edge: nat, a: Admission, reply: Reply, h: string)
    requires edge in s.edges
    ensures var s', x := Authenticated(s, edge, a, reply), s.edges[edge];
            var free := forall n :: n in a.hostnames && n in s.owners ==> s.owners[n] == a.tenant;
            var known := forall n :: n in a.hostnames ==> n in x.confirmed && x.confirmed[n] == a.tenant;
            && edge in s'.edges && s'.edges == s.edges[edge := s'.edges[edge]]
            && s'.edges[edge].reg == x.reg
            && s'.edges[edge].admitted ==
               (if (if reply.Answers? then free else known) then x.admitted + {a} else x.admitted)
            && Lookup(s'.owners, h) ==
               (if !reply.Down? && free && h in a.hostnames then Some(a.tenant) else Lookup(s.owners, h))
            && Lookup(s'.edges[edge].confirmed, h) ==
               (if reply.Answers? && free && h in a.hostnames then Some(a.tenant) else Lookup(x.confirmed, h))
  {
    var x := s.edges[edge];
    var free := forall n :: n in a.hostnames && n in s.owners ==> s.owners[n] == a.tenant;
    assert Claimable(s.owners, a.tenant, a.hostnames) <==> free by {
      if free { assert forall n :: n in a.hostnames ==> !OwnedByOther(s.owners, a.tenant, n); }
      if Claimable(s.owners, a.tenant, a.hostnames) {
        forall n | n in a.hostnames && n in s.owners ensures s.owners[n] == a.tenant {
          assert !OwnedByOther(s.owners, a.tenant, n);
        }
      }
    }
    assert Confirmed(x, a) <==> forall n :: n in a.hostnames ==> n in x.confirmed && x.confirmed[n] == a.tenant by {
      assert forall n :: Lookup(x.confirmed, n) == Some(a.tenant) <==> n in x.confirmed && x.confirmed[n] == a.tenant;
    }
    ClaimedIs(s.owners, a.tenant, a.hostnames, h);
    PutOwnersIs(x.confirmed, a.hostnames, a.tenant, h);
    assert s.edges[edge := x] == s.edges;
  }

  predicate Enabled(s: Sys, e: Event) {
    match e
    case Join(edge) => edge !in s.edges
    case Enter(edge, a) => edge in s.edges && a in s.edges[edge].admitted
    case _ => e.edge in s.edges
  }

  function Next(s: Sys, e: Event): Sys
    requires Enabled(s, e)
  {
    match e
    case Join(edge) => s.(edges := s.edges[edge := Edge(EMPTY, map[], {})])
    case Authenticate(edge, a, reply) => Authenticated(s, edge, a, reply)
    case Enter(edge, a) =>
      var x := s.edges[edge];
      var reg := Registry.Next(x.reg, Register(a.tenant, a.hostnames, a.services));
      s.(edges := s.edges[edge := x.(reg := reg, admitted := x.admitted - {a})])
    case Disconnect(edge, tenant, generation) =>
      var x := s.edges[edge];
      s.(edges := s.edges[edge := x.(reg := Registry.Next(x.reg, Remove(tenant, generation)))])
    case CacheExpires(edge, h) =>
      var x := s.edges[edge];
      s.(edges := s.edges[edge := x.(confirmed := x.confirmed - {h})])
    case Restart(edge) => s.(edges := s.edges[edge := Edge(EMPTY, map[], {})])
  }

  // ----- What every step keeps -----

  ghost predicate Owns(owners: map<string, string>, tenant: string, hostnames: seq<string>) {
    forall h :: h in hostnames ==> Lookup(owners, h) == Some(tenant)
  }

  ghost predicate EdgeInv(owners: map<string, string>, e: Edge) {
    && Registry.Inv(e.reg)
    && (forall h :: h in e.confirmed ==> Lookup(owners, h) == Some(e.confirmed[h]))
    && (forall a :: a in e.admitted ==> Owns(owners, a.tenant, a.hostnames))
    && (forall t :: t in e.reg.byTenant ==> Owns(owners, t, e.reg.byTenant[t].hostnames))
  }

  ghost predicate Inv(s: Sys) { forall i :: i in s.edges ==> EdgeInv(s.owners, s.edges[i]) }

  /** Claims only add owners, so what was confirmed stays true. */
  lemma ClaimKeepsOwners(owners: map<string, string>, tenant: string, hostnames: seq<string>, e: Edge)
    requires EdgeInv(owners, e)
    ensures EdgeInv(Claimed(owners, tenant, hostnames), e)
  {
    var owners' := Claimed(owners, tenant, hostnames);
    forall h | h in owners ensures Lookup(owners', h) == Some(owners[h]) {
      ClaimedIs(owners, tenant, hostnames, h);
    }
    assert forall h, t :: Lookup(owners, h) == Some(t) ==> h in owners && Lookup(owners', h) == Some(t);
  }

  lemma ClaimantOwns(owners: map<string, string>, tenant: string, hostnames: seq<string>)
    requires Claimable(owners, tenant, hostnames)
    ensures Owns(Claimed(owners, tenant, hostnames), tenant, hostnames)
  {
    forall h | h in hostnames ensures Lookup(Claimed(owners, tenant, hostnames), h) == Some(tenant) {
      ClaimedIs(owners, tenant, hostnames, h);
      assert !OwnedByOther(owners, tenant, h);
    }
  }

  lemma OneEdgeChanges(s: Sys, s': Sys, edge: nat, x: Edge)
    requires s'.edges == s.edges[edge := x] && EdgeInv(s'.owners, x)
    requires forall i :: i in s.edges && i != edge ==> EdgeInv(s'.owners, s.edges[i])
    ensures Inv(s')
  {
  }

  lemma ConfirmAtEdge(owners: map<string, string>, x: Edge, a: Admission)
    requires EdgeInv(owners, x) && Owns(owners, a.tenant, a.hostnames)
    ensures EdgeInv(owners, x.(confirmed := NoteConfirmed(x.confirmed, a), admitted := x.admitted + {a}))
  {
    var noted := NoteConfirmed(x.confirmed, a);
    forall h | h in noted ensures Lookup(owners, h) == Some(noted[h]) {
      PutOwnersIs(x.confirmed, a.hostnames, a.tenant, h);
    }
  }

  lemma AdmitFromCache(owners: map<string, string>, x: Edge, a: Admission)
    requires EdgeInv(owners, x) && Confirmed(x, a)
    ensures EdgeInv(owners, x.(admitted := x.admitted + {a}))
  {
    forall h | h in a.hostnames ensures Lookup(owners, h) == Some(a.tenant) {
      assert Lookup(x.confirmed, h) == Some(a.tenant);
    }
  }

  lemma AuthenticateKeeps(s: Sys, edge: nat, a: Admission, reply: Reply)
    requires Inv(s) && edge in s.edges
    ensures Inv(Authenticated(s, edge, a, reply))
  {
    var s' := Authenticated(s, edge, a, reply);
    var x := s.edges[edge];
    forall i | i in s.edges ensures EdgeInv(s'.owners, s.edges[i]) {
      ClaimKeepsOwners(s.owners, a.tenant, a.hostnames, s.edges[i]);
    }
    if reply.Answers? {
      if Claimable(s.owners, a.tenant, a.hostnames) {
        ClaimantOwns(s.owners, a.tenant, a.hostnames);
        ConfirmAtEdge(s'.owners, x, a);
        OneEdgeChanges(s, s', edge, s'.edges[edge]);
      }
    } else if Confirmed(x, a) {
      AdmitFromCache(s'.owners, x, a);
      OneEdgeChanges(s, s', edge, s'.edges[edge]);
    }
  }

  lemma RegistryStepAtEdge(owners: map<string, string>, x: Edge, e: Registry.Event)
    requires EdgeInv(owners, x) && (e.Register? ==> Owns(owners, e.tenant, e.hostnames))
    ensures EdgeInv(owners, x.(reg := Registry.Next(x.reg, e)))
  {
    Registry.StepKeepsInv(x.reg, e);
  }

  lemma StepKeepsInv(s: Sys, e: Event)
    requires Inv(s) && Enabled(s, e)
    ensures Inv(Next(s, e))
  {
    var s' := Next(s, e);
    match e {
      case Authenticate(edge, a, reply) => AuthenticateKeeps(s, edge, a, reply);
      case Enter(edge, a) =>
        RegistryStepAtEdge(s.owners, s.edges[edge], Register(a.tenant, a.hostnames, a.services));
        OneEdgeChanges(s, s', edge, s'.edges[edge]);
      case Disconnect(edge, tenant, generation) =>
        RegistryStepAtEdge(s.owners, s.edges[edge], Remove(tenant, generation));
        OneEdgeChanges(s, s', edge, s'.edges[edge]);
      case CacheExpires(edge, _) => OneEdgeChanges(s, s', edge, s'.edges[edge]);
      case _ =>
        EmptyIsInv();
        OneEdgeChanges(s, s', e.edge, s'.edges[e.edge]);
    }
  }

  ghost predicate Allowed(s: Sys, es: seq<Event>)
    decreases |es|
  {
    es == [] || (Enabled(s, es[0]) && Allowed(Next(s, es[0]), es[1..]))
  }

  function Run(s: Sys, es: seq<Event>): Sys
    requires Allowed(s, es)
    decreases |es|
  {
    if es == [] then s else Run(Next(s, es[0]), es[1..])
  }

  /** Whatever any Edge serves for a hostname belongs to the tenant recorded as its owner. */
  ghost predicate OneOwner(s: Sys) {
    forall i, h :: i in s.edges && h in s.edges[i].reg.byHost ==>
      Lookup(s.owners, h) == Some(s.edges[i].reg.byHost[h].tenant)
  }

  /** In every run of any number of Edges, with outages, lost answers, cache expiry and restarts, all
      Edges' registrations for a hostname belong to its one recorded owner, including those admitted
      from the confirmed cache while Valkey was down. */
  lemma {:induction false} EveryEdgeServesTheOwner(s: Sys, es: seq<Event>)
    requires Inv(s) && Allowed(s, es)
    ensures Inv(Run(s, es)) && OneOwner(Run(s, es))
    decreases |es|
  {
    if es == [] {
      forall i, h | i in s.edges && h in s.edges[i].reg.byHost
        ensures Lookup(s.owners, h) == Some(s.edges[i].reg.byHost[h].tenant)
      {
        var x := s.edges[i].reg.byHost[h];
        assert EdgeInv(s.owners, s.edges[i]);
        assert Lookup(s.edges[i].reg.byTenant, x.tenant) == Some(x) && h in x.hostnames;
      }
    } else {
      StepKeepsInv(s, es[0]);
      EveryEdgeServesTheOwner(Next(s, es[0]), es[1..]);
    }
  }

  /** Registering uses an admission up; a restarted Edge has none, serves nothing and remembers nothing. */
  lemma EntersOnceAndForgets(s: Sys, edge: nat, a: Admission)
    requires edge in s.edges && a in s.edges[edge].admitted
    ensures !Enabled(Next(s, Enter(edge, a)), Enter(edge, a))
    ensures var x := Next(s, Restart(edge)).edges[edge];
            x.reg.byHost == map[] && x.reg.byTenant == map[] && x.confirmed == map[] && x.admitted == {}
    ensures Next(s, Restart(edge)).owners == s.owners
  {
  }

  /** A Connector whose hostnames are free is admitted, and once it enters every one of them leads to it. */
  lemma FreeHostnamesAreServed(s: Sys, edge: nat, a: Admission)
    requires Inv(s) && edge in s.edges
    requires forall n :: n in a.hostnames && n in s.owners ==> s.owners[n] == a.tenant
    ensures var s1 := Next(s, Authenticate(edge, a, Answers));
            && Enabled(s1, Enter(edge, a))
            && var reg := Next(s1, Enter(edge, a)).edges[edge].reg;
               forall h :: h in a.hostnames ==> h in reg.byHost && reg.byHost[h].tenant == a.tenant
  {
    var s1 := Next(s, Authenticate(edge, a, Answers));
    AuthenticationIs(s, edge, a, Answers, "");
    StepKeepsInv(s, Authenticate(edge, a, Answers));
    var x := s1.edges[edge];
    assert EdgeInv(s1.owners, x) && Owns(s1.owners, a.tenant, a.hostnames);
    EntersFreely(s1.owners, x, a);
  }

  lemma EntersFreely(owners: map<string, string>, x: Edge, a: Admission)
    requires EdgeInv(owners, x) && Owns(owners, a.tenant, a.hostnames)
    ensures var reg := Registry.Next(x.reg, Register(a.tenant, a.hostnames, a.services));
            forall h :: h in a.hostnames ==> h in reg.byHost && reg.byHost[h].tenant == a.tenant
  {
    var r := x.reg;
    forall h | h in a.hostnames ensures !Taken(r, a.tenant, h) {
      if h in r.byHost {
        var t := r.byHost[h].tenant;
        assert Lookup(r.byTenant, t) == Some(r.byHost[h]) && Owns(owners, t, r.byTenant[t].hostnames);
      }
    }
    var y := Handle(a.tenant, a.hostnames, a.services, r.nextGeneration + 1);
    forall h | h in a.hostnames ensures Lookup(Registered(r, y).byHost, h) == Some(y) {
      LookupAfterRegister(r, y, h);
    }
  }

  // ----- Administrative changes of an owner -----

  /** The compare-and-set administrative transfer. */
  function Transfer(owners: map<string, string>, h: string, from: string, to: string): map<string, string> {
    if Lookup(owners, h) == Some(from) then owners[h := to] else owners
  }

  /** The compare-and-set administrative release. */
  function Release(owners: map<string, string>, h: string, from: string): map<string, string> {
    if Lookup(owners, h) == Some(from) then owners - {h} else owners
  }

  /** No Connector is served, admitted or remembered for the hostname. */
  ghost predicate Unused(e: Edge, h: string) {
    && h !in e.confirmed
    && (forall a :: a in e.admitted ==> h !in a.hostnames)
    && (forall t :: t in e.reg.byTenant ==> h !in e.reg.byTenant[t].hostnames)
  }

  /** The owner of `h` changes, and no other. */
  ghost predicate Reassigns(owners: map<string, string>, owners': map<string, string>, h: string) {
    && h in owners && Lookup(owners', h) != Lookup(owners, h)
    && forall x :: x != h ==> Lookup(owners', x) == Lookup(owners, x)
  }

  lemma ReassignedAtEdge(owners: map<string, string>, owners': map<string, string>, e: Edge, h: string)
    requires EdgeInv(owners, e) && Reassigns(owners, owners', h)
    ensures EdgeInv(owners', e) <==> Unused(e, h)
  {
    if EdgeInv(owners', e) {
      forall a | a in e.admitted ensures h !in a.hostnames {
        assert Owns(owners, a.tenant, a.hostnames) && Owns(owners', a.tenant, a.hostnames);
      }
      forall t | t in e.reg.byTenant ensures h !in e.reg.byTenant[t].hostnames {
        assert Owns(owners, t, e.reg.byTenant[t].hostnames) && Owns(owners', t, e.reg.byTenant[t].hostnames);
      }
    }
  }

  /** Whoever was admitted while `owners` was in force can still be registered. */
  lemma AdmittedEnters(owners: map<string, string>, s: Sys, i: nat, a: Admission, h: string)
    requires i in s.edges && EdgeInv(owners, s.edges[i]) && Reassigns(owners, s.owners, h)
    requires a in s.edges[i].admitted && h in a.hostnames
    ensures !OneOwner(Next(s, Enter(i, a)))
  {
    var r := s.edges[i].reg;
    var x := Handle(a.tenant, a.hostnames, a.services, r.nextGeneration + 1);
    assert Owns(owners, a.tenant, a.hostnames);
    forall x | x in a.hostnames ensures !Taken(r, a.tenant, x) {
      if x in r.byHost {
        var t := r.byHost[x].tenant;
        assert Lookup(r.byTenant, t) == Some(r.byHost[x]) && Owns(owners, t, r.byTenant[t].hostnames);
      }
    }
    LookupAfterRegister(r, x, h);
    assert h in Next(s, Enter(i, a)).edges[i].reg.byHost;
  }

  /** An Edge that still uses the hostname comes to serve it for the former owner. */
  lemma UsedIsServed(owners: map<string, string>, s: Sys, i: nat, h: string) returns (es: seq<Event>)
    requires i in s.edges && EdgeInv(owners, s.edges[i]) && Reassigns(owners, s.owners, h) && !Unused(s.edges[i], h)
    ensures Allowed(s, es) && !OneOwner(Run(s, es))
  {
    var e := s.edges[i];
    if t :| t in e.reg.byTenant && h in e.reg.byTenant[t].hostnames {
      es := [];
      assert Owns(owners, t, e.reg.byTenant[t].hostnames) && Lookup(e.reg.byHost, h) == Some(e.reg.byTenant[t]);
      assert e.reg.byTenant[t].tenant == t;
    } else if a :| a in e.admitted && h in a.hostnames {
      es := [Enter(i, a)];
      AdmittedEnters(owners, s, i, a, h);
      assert es[1..] == [] && Run(s, es) == Next(s, Enter(i, a));
    } else {
      var a := Admission(e.confirmed[h], [h], None);
      var s1 := Next(s, Authenticate(i, a, Down));
      AdmitFromCache(owners, e, a);
      AdmittedEnters(owners, s1, i, a, h);
      es := [Authenticate(i, a, Down), Enter(i, a)];
      assert es[1..] == [Enter(i, a)] && [Enter(i, a)][1..] == [];
      assert Run(s, es) == Run(s1, [Enter(i, a)]) == Next(s1, Enter(i, a));
    }
  }

  /** An administrative change is safe, whatever happens then, exactly when no Edge serves, admits or
      remembers the hostname. */
  lemma ReassignmentIsSafeExactly(s: Sys, owners: map<string, string>, h: string)
    requires Inv(s) && Reassigns(s.owners, owners, h)
    ensures (forall es :: Allowed(s.(owners := owners), es) ==> OneOwner(Run(s.(owners := owners), es))) <==>
            (forall i :: i in s.edges ==> Unused(s.edges[i], h))
  {
    var s' := s.(owners := owners);
    forall i | i in s.edges ensures EdgeInv(owners, s.edges[i]) <==> Unused(s.edges[i], h) {
      ReassignedAtEdge(s.owners, owners, s.edges[i], h);
    }
    if i :| i in s.edges && !Unused(s.edges[i], h) {
      var es := UsedIsServed(s.owners, s', i, h);
      assert !OneOwner(Run(s', es));
    } else {
      forall es | Allowed(s', es) ensures OneOwner(Run(s', es)) {
        EveryEdgeServesTheOwner(s', es);
      }
    }
  }

  /** After a transfer the new owner can claim the hostname and the former one cannot; after a release anyone can.
      A change that names the wrong owner does nothing. */
  lemma AdministrationIs(owners: map<string, string>, h: string, from: string, to: string, tenant: string)
    ensures h in owners && owners[h] == from ==>
              && (Claimable(Transfer(owners, h, from, to), tenant, [h]) <==> tenant == to)
              && Claimable(Release(owners, h, from), tenant, [h])
    ensures (h in owners ==> owners[h] != from) ==>
              Transfer(owners, h, from, to) == owners && Release(owners, h, from) == owners
    ensures forall x :: x != h ==>
              && Lookup(Transfer(owners, h, from, to), x) == Lookup(owners, x)
              && Lookup(Release(owners, h, from), x) == Lookup(owners, x)
  {
    if h in owners && owners[h] == from {
      assert h in [h];
      assert OwnedByOther(Transfer(owners, h, from, to), tenant, h) <==> tenant != to;
      assert !OwnedByOther(Release(owners, h, from), tenant, h);
    }
  }

  lemma TransferIsSafeExactly(s: Sys, h: string, from: string, to: string)
    requires Inv(s) && from != to && Lookup(s.owners, h) == Some(from)
    ensures Transfer(s.owners, h, from, to) == s.owners[h := to]
    ensures var s' := s.(owners := Transfer(s.owners, h, from, to));
            (forall es :: Allowed(s', es) ==> OneOwner(Run(s', es))) <==>
            forall i :: i in s.edges ==> Unused(s.edges[i], h)
  {
    ReassignmentIsSafeExactly(s, Transfer(s.owners, h, from, to), h);
  }

  lemma ReleaseIsSafeExactly(s: Sys, h: string, from: string)
    requires Inv(s) && Lookup(s.owners, h) == Some(from)
    ensures Release(s.owners, h, from) == s.owners - {h}
    ensures var s' := s.(owners := Release(s.owners, h, from));
            (forall es :: Allowed(s', es) ==> OneOwner(Run(s', es))) <==>
            forall i :: i in s.edges ==> Unused(s.edges[i], h)
  {
    ReassignmentIsSafeExactly(s, Release(s.owners, h, from), h);
  }

  lemma InitIsInv(owners: map<string, string>)
    ensures Inv(Sys(owners, map[]))
  {
  }
}
