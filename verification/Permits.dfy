/** Stream budgets: semaphores created on demand for each peer and tenant, shared by tasks that wait,
    hold and drop permits, and removed again by a sweep (mesh/forward.rs). */
module Permits {
  import opened Wrappers

  datatype Key = Tenant(name: string) | Peer(name: string)

  /** A task takes a tenant slot and then a peer slot. The numbers name the semaphores it cloned from
      the map; dropping both permits is two steps, `HalfReleased` lies between them. */
  datatype Phase =
    | Idle
    | WaitingTenant(tenantSem: nat)
    | HoldingTenant(tenantSem: nat)
    | WaitingPeer(tenantSem: nat, peerSem: nat)
    | HoldingBoth(tenantSem: nat, peerSem: nat)
    | HalfReleased(peerSem: nat)

  datatype Task = Task(tenant: string, peer: string, phase: Phase)

  /** `entries` is the map, `available` the free permits of every semaphore ever made. */
  datatype Sys = Sys(tenantLimit: nat, peerLimit: nat, entries: map<Key, nat>, available: map<nat, nat>,
    tasks: map<nat, Task>)

  datatype Event =
    | Arrive(id: nat, tenant: string, peer: string)
    | CloneTenant(id: nat)
    | TakeTenant(id: nat)
    | ClonePeer(id: nat)
    | TakePeer(id: nat)
    | GiveUp(id: nat)
    | DropTenant(id: nat)
    | DropPeer(id: nat)
    | ReleaseBoth(id: nat)
    | Sweep(key: Key)

  function Limit(s: Sys, key: Key): nat { if key.Tenant? then s.tenantLimit else s.peerLimit }

  /** The semaphore of `key` that a task has a handle on: cloned, awaited or held. */
  function Handle(t: Task, key: Key): Option<nat> {
    match key
    case Tenant(name) =>
      if t.tenant == name &&
        (t.phase.WaitingTenant? || t.phase.HoldingTenant? || t.phase.WaitingPeer? || t.phase.HoldingBoth?)
      then Some(t.phase.tenantSem) else None
    case Peer(name) =>
      if t.peer == name && (t.phase.WaitingPeer? || t.phase.HoldingBoth? || t.phase.HalfReleased?)
      then Some(t.phase.peerSem) else None
  }

  predicate HasPermit(t: Task, key: Key) {
    match key
    case Tenant(name) => t.tenant == name && (t.phase.HoldingTenant? || t.phase.WaitingPeer? || t.phase.HoldingBoth?)
    case Peer(name) => t.peer == name && (t.phase.HoldingBoth? || t.phase.HalfReleased?)
  }

  function Holders(tasks: map<nat, Task>, key: Key): set<nat> {
    set i | i in tasks && HasPermit(tasks[i], key)
  }

  /** The entry's semaphore is referenced by the map alone and has all its permits. */
  predicate Unused(s: Sys, key: Key)
    requires key in s.entries && s.entries[key] in s.available
  {
    && (forall i :: i in s.tasks ==> Handle(s.tasks[i], key) != Some(s.entries[key]))
    && s.available[s.entries[key]] >= Limit(s, key)
  }

  predicate Enabled(s: Sys, e: Event) {
    match e
    case Arrive(id, _, _) => id !in s.tasks
    case CloneTenant(id) => id in s.tasks && s.tasks[id].phase.Idle?
    case TakeTenant(id) => id in s.tasks && s.tasks[id].phase.WaitingTenant? && Free(s, s.tasks[id].phase.tenantSem)
    case ClonePeer(id) => id in s.tasks && s.tasks[id].phase.HoldingTenant?
    case TakePeer(id) => id in s.tasks && s.tasks[id].phase.WaitingPeer? && Free(s, s.tasks[id].phase.peerSem)
    case GiveUp(id) => id in s.tasks &&
      (s.tasks[id].phase.WaitingTenant? || s.tasks[id].phase.HoldingTenant? || s.tasks[id].phase.WaitingPeer?)
    case DropTenant(id) => id in s.tasks && s.tasks[id].phase.HoldingBoth?
    case DropPeer(id) => id in s.tasks && s.tasks[id].phase.HalfReleased?
    case ReleaseBoth(id) => id in s.tasks && s.tasks[id].phase.HoldingBoth?
    case Sweep(key) => key in s.entries && s.entries[key] in s.available
  }

  predicate Free(s: Sys, sem: nat) { sem in s.available && s.available[sem] > 0 }

  function Put(s: Sys, id: nat, phase: Phase): Sys
    requires id in s.tasks
  {
    s.(tasks := s.tasks[id := s.tasks[id].(phase := phase)])
  }

  function Took(s: Sys, sem: nat): Sys
    requires Free(s, sem)
  {
    s.(available := s.available[sem := s.available[sem] - 1])
  }

  function Gave(s: Sys, sem: nat): Sys {
    if sem in s.available then s.(available := s.available[sem := s.available[sem] + 1]) else s
  }

  /** The entry for `key`, inserted with all permits if it is missing; semaphores are never reused. */
  function WithEntry(s: Sys, key: Key): (r: (Sys, nat)) {
    if key in s.entries then (s, s.entries[key])
    else
      var sem := Unseen(s.available);
      (s.(entries := s.entries[key := sem], available := s.available[sem := Limit(s, key)]), sem)
  }

  /** A number no semaphore has. */
  function Unseen(m: map<nat, nat>): (n: nat)
    ensures n !in m
  {
    FirstGap(m, m.Keys, 0)
  }

  function FirstGap(m: map<nat, nat>, left: set<nat>, n: nat): (r: nat)
    requires left <= m.Keys && forall k :: k in m && k >= n ==> k in left
    ensures r !in m
    decreases |left|
  {
    if n !in m then n else FirstGap(m, left - {n}, n + 1)
  }

  function Next(s: Sys, e: Event): Sys
    requires Enabled(s, e)
  {
    match e
    case Arrive(id, tenant, peer) => s.(tasks := s.tasks[id := Task(tenant, peer, Idle)])
    case CloneTenant(id) =>
      var (s', sem) := WithEntry(s, Tenant(s.tasks[id].tenant));
      Put(s', id, WaitingTenant(sem))
    case TakeTenant(id) => Put(Took(s, s.tasks[id].phase.tenantSem), id, HoldingTenant(s.tasks[id].phase.tenantSem))
    case ClonePeer(id) =>
      var (s', sem) := WithEntry(s, Peer(s.tasks[id].peer));
      Put(s', id, WaitingPeer(s.tasks[id].phase.tenantSem, sem))
    case TakePeer(id) =>
      Put(Took(s, s.tasks[id].phase.peerSem), id, HoldingBoth(s.tasks[id].phase.tenantSem, s.tasks[id].phase.peerSem))
    case GiveUp(id) =>
      Put(if s.tasks[id].phase.WaitingTenant? then s else Gave(s, s.tasks[id].phase.tenantSem), id, Idle)
    case DropTenant(id) => Put(Gave(s, s.tasks[id].phase.tenantSem), id, HalfReleased(s.tasks[id].phase.peerSem))
    case DropPeer(id) => Put(Gave(s, s.tasks[id].phase.peerSem), id, Idle)
    case ReleaseBoth(id) => Put(Gave(Gave(s, s.tasks[id].phase.tenantSem), s.tasks[id].phase.peerSem), id, Idle)
    case Sweep(key) => if Unused(s, key) then s.(entries := s.entries - {key}) else s
  }

  // ----- What every step keeps -----

  /** Every semaphore a task waits for or holds is the one in the map. */
  ghost predicate HandlesCurrent(s: Sys) {
    forall i, key {:trigger Handle(s.tasks[i], key)} :: i in s.tasks && Handle(s.tasks[i], key).Some? ==>
      Lookup(s.entries, key) == Handle(s.tasks[i], key)
  }

  ghost predicate EntriesDistinct(s: Sys) {
    && (forall key :: key in s.entries ==> s.entries[key] in s.available)
    && (forall a, b :: a in s.entries && b in s.entries && s.entries[a] == s.entries[b] ==> a == b)
  }

  /** Permits are conserved: free ones and held ones make up the limit. */
  ghost predicate Conserved(s: Sys) {
    forall key :: key in s.entries && s.entries[key] in s.available ==>
      s.available[s.entries[key]] + |Holders(s.tasks, key)| == Limit(s, key)
  }

  ghost predicate Inv(s: Sys) { HandlesCurrent(s) && EntriesDistinct(s) && Conserved(s) }

  lemma HoldersAfter(tasks: map<nat, Task>, id: nat, t: Task, key: Key)
    ensures |Holders(tasks[id := t], key)| + (if id in tasks && HasPermit(tasks[id], key) then 1 else 0)
         == |Holders(tasks, key)| + (if HasPermit(t, key) then 1 else 0)
  {
    var before, after := Holders(tasks, key), Holders(tasks[id := t], key);
    assert after == (if HasPermit(t, key) then (before - {id}) + {id} else before - {id});
  }

  lemma NoHolders(s: Sys, key: Key)
    requires HandlesCurrent(s) && key !in s.entries
    ensures Holders(s.tasks, key) == {}
  {
    forall i | i in s.tasks ensures !HasPermit(s.tasks[i], key) {
      assert Handle(s.tasks[i], key).None?;
    }
  }

  /** Making an entry for a key that has none. */
  lemma EntryKeeps(s: Sys, key: Key)
    requires Inv(s)
    ensures var (s', sem) := WithEntry(s, key);
            Inv(s') && s'.tasks == s.tasks && Lookup(s'.entries, key) == Some(sem)
  {
    if key !in s.entries {
      NoHolders(s, key);
      var s' := WithEntry(s, key).0;
      forall i, k | i in s'.tasks && Handle(s'.tasks[i], k).Some?
        ensures Lookup(s'.entries, k) == Handle(s'.tasks[i], k)
      {
        assert Lookup(s.entries, k) == Handle(s.tasks[i], k);
      }
    }
  }

  /** One task moves; the free permits of the keys whose permits it took or gave change with it. */
  lemma MoveKeeps(s: Sys, s': Sys, id: nat)
    requires Inv(s) && id in s'.tasks && s'.tasks == s.tasks[id := s'.tasks[id]]
    requires s'.entries == s.entries && s'.available.Keys == s.available.Keys
    requires s'.tenantLimit == s.tenantLimit && s'.peerLimit == s.peerLimit
    requires forall key :: Handle(s'.tasks[id], key).Some? ==> Lookup(s.entries, key) == Handle(s'.tasks[id], key)
    requires forall key :: key in s.entries ==>
               s'.available[s.entries[key]] + (if HasPermit(s'.tasks[id], key) then 1 else 0)
               == s.available[s.entries[key]] + (if id in s.tasks && HasPermit(s.tasks[id], key) then 1 else 0)
    ensures Inv(s')
  {
    forall key | key in s'.entries ensures s'.available[s'.entries[key]] + |Holders(s'.tasks, key)| == Limit(s', key) {
      HoldersAfter(s.tasks, id, s'.tasks[id], key);
    }
  }

  lemma TakeKeeps(s: Sys, e: Event)
    requires Inv(s) && Enabled(s, e) && (e.TakeTenant? || e.TakePeer?)
    ensures Inv(Next(s, e))
  {
    var t, t' := s.tasks[e.id], Next(s, e).tasks[e.id];
    var key := if e.TakeTenant? then Tenant(t.tenant) else Peer(t.peer);
    assert Handle(t, key).Some? && Lookup(s.entries, key) == Handle(t, key);
    assert forall k :: Handle(t', k) == Handle(t, k);
    assert forall k :: k != key ==> HasPermit(t', k) == HasPermit(t, k);
    MoveKeeps(s, Next(s, e), e.id);
  }

  lemma GiveKeeps(s: Sys, e: Event)
    requires Inv(s) && Enabled(s, e) && (e.GiveUp? || e.DropTenant? || e.DropPeer?)
    ensures Inv(Next(s, e))
  {
    var t, t' := s.tasks[e.id], Next(s, e).tasks[e.id];
    var key := if e.DropPeer? then Peer(t.peer) else Tenant(t.tenant);
    assert Handle(t, key).Some? && Lookup(s.entries, key) == Handle(t, key);
    assert forall k :: Handle(t', k).Some? ==> Handle(t', k) == Handle(t, k);
    assert forall k :: k != key ==> HasPermit(t', k) == HasPermit(t, k);
    MoveKeeps(s, Next(s, e), e.id);
  }

  lemma CloneKeeps(s: Sys, e: Event)
    requires Inv(s) && Enabled(s, e) && (e.CloneTenant? || e.ClonePeer?)
    ensures Inv(Next(s, e))
  {
    var key := if e.CloneTenant? then Tenant(s.tasks[e.id].tenant) else Peer(s.tasks[e.id].peer);
    EntryKeeps(s, key);
    var s1 := WithEntry(s, key).0;
    var t, t' := s.tasks[e.id], Next(s, e).tasks[e.id];
    assert forall k :: k != key ==> Handle(t', k) == Handle(t, k);
    assert forall k :: HasPermit(t', k) == HasPermit(t, k);
    MoveKeeps(s1, Next(s, e), e.id);
  }

  /** Dropping both permits at once is the two drops in a row. */
  lemma ReleaseIsTwoDrops(s: Sys, id: nat)
    requires Enabled(s, ReleaseBoth(id))
    ensures Next(s, ReleaseBoth(id)) == Next(Next(s, DropTenant(id)), DropPeer(id))
  {
    var a := Next(s, ReleaseBoth(id));
    var b := Next(Next(s, DropTenant(id)), DropPeer(id));
    assert a.tasks == b.tasks;
  }

  lemma SweepKeeps(s: Sys, key: Key)
    requires Inv(s) && Enabled(s, Sweep(key))
    ensures Inv(Next(s, Sweep(key)))
  {
    var s' := Next(s, Sweep(key));
    forall i, k | i in s'.tasks && Handle(s'.tasks[i], k).Some?
      ensures Lookup(s'.entries, k) == Handle(s'.tasks[i], k)
    {
      assert Lookup(s.entries, k) == Handle(s.tasks[i], k);
    }
  }

  /** A sweep removes an entry exactly when no task waits for it or holds a permit of it; the next task then gets
      a semaphore with all its permits. */
  lemma SweepExactly(s: Sys, key: Key)
    requires Inv(s) && Enabled(s, Sweep(key))
    ensures var s' := Next(s, Sweep(key));
            && (key !in s'.entries <==> forall i :: i in s.tasks ==> Handle(s.tasks[i], key).None?)
            && (forall k :: k != key ==> Lookup(s'.entries, k) == Lookup(s.entries, k))
            && s'.available == s.available && s'.tasks == s.tasks
            && (key !in s'.entries ==>
                  var (again, sem) := WithEntry(s', key);
                  again.available[sem] == Limit(s, key) && sem !in s.available)
  {
    if forall i :: i in s.tasks ==> Handle(s.tasks[i], key).None? {
      assert Holders(s.tasks, key) == {} by {
        forall i | i in s.tasks ensures !HasPermit(s.tasks[i], key) { assert Handle(s.tasks[i], key).None?; }
      }
    } else {
      var i :| i in s.tasks && Handle(s.tasks[i], key).Some?;
      assert Lookup(s.entries, key) == Handle(s.tasks[i], key);
    }
  }

  lemma StepKeepsInv(s: Sys, e: Event)
    requires Inv(s) && Enabled(s, e)
    ensures Inv(Next(s, e))
  {
    match e {
      case Arrive(id, _, _) => MoveKeeps(s, Next(s, e), id);
      case CloneTenant(_) => CloneKeeps(s, e);
      case ClonePeer(_) => CloneKeeps(s, e);
      case TakeTenant(_) => TakeKeeps(s, e);
      case TakePeer(_) => TakeKeeps(s, e);
      case ReleaseBoth(id) =>
        GiveKeeps(s, DropTenant(id));
        GiveKeeps(Next(s, DropTenant(id)), DropPeer(id));
        ReleaseIsTwoDrops(s, id);
      case Sweep(key) => SweepKeeps(s, key);
      case _ => GiveKeeps(s, e);
    }
  }

  // ----- Whole runs -----

  ghost predicate Allowed(s: Sys, es: seq<Event>)
    decreases |es|
  {
    es == [] || (Enabled(s, es[0]) && Allowed(Next(s, es[0]), es[1..]))
  }

  function Run(s: Sys, es: seq<Event>): Sys
    requires Allowed(s, es)
    decreases |es|
  {
    if es == [] then s else Run(Next(s, es[0]), es[1..])
  }

  /** Tasks of `tenant` that occupy a slot of `peer`. */
  function Occupying(s: Sys, tenant: string, peer: string): set<nat> {
    set i | i in s.tasks && s.tasks[i].tenant == tenant && HasPermit(s.tasks[i], Peer(peer))
  }

  function Halfway(s: Sys, tenant: string, peer: string): set<nat> {
    set i | i in s.tasks && s.tasks[i].tenant == tenant && s.tasks[i].peer == peer && s.tasks[i].phase.HalfReleased?
  }

  lemma AtMostLimit(s: Sys, key: Key)
    requires Inv(s)
    ensures |Holders(s.tasks, key)| <= Limit(s, key)
  {
    if key !in s.entries { NoHolders(s, key); }
  }

  lemma TenantShare(s: Sys, tenant: string, peer: string)
    requires Inv(s)
    ensures |Occupying(s, tenant, peer)| <= s.tenantLimit + |Halfway(s, tenant, peer)|
  {
    AtMostLimit(s, Tenant(tenant));
    var both, half := Holders(s.tasks, Tenant(tenant)), Halfway(s, tenant, peer);
    assert Occupying(s, tenant, peer) <= both + half;
    SubsetCount(Occupying(s, tenant, peer), both + half);
    assert |both + half| == |both| + |half| - |both * half|;
  }

  lemma StepKeepsLimits(s: Sys, e: Event)
    requires Enabled(s, e)
    ensures Next(s, e).tenantLimit == s.tenantLimit && Next(s, e).peerLimit == s.peerLimit
  {
  }

  /** Over every interleaving of cloning, waiting, timing out, dropping and sweeping: at most `limit`
      permits of a key are live, every handle a task has is on the semaphore in the map, and a tenant
      occupies no more of a peer's slots than its own limit, apart from pairs that are just being
      dropped. */
  lemma {:induction false} BudgetsHold(s: Sys, es: seq<Event>, tenant: string, peer: string)
    requires Inv(s) && Allowed(s, es)
    ensures var s' := Run(s, es);
            && Inv(s')
            && |Holders(s'.tasks, Tenant(tenant))| <= s.tenantLimit
            && |Holders(s'.tasks, Peer(peer))| <= s.peerLimit
            && |Occupying(s', tenant, peer)| <= s.tenantLimit + |Halfway(s', tenant, peer)|
    decreases |es|
  {
    if es == [] {
      AtMostLimit(s, Tenant(tenant));
      AtMostLimit(s, Peer(peer));
      TenantShare(s, tenant, peer);
    } else {
      StepKeepsInv(s, es[0]);
      StepKeepsLimits(s, es[0]);
      BudgetsHold(Next(s, es[0]), es[1..], tenant, peer);
    }
  }

  lemma {:induction false} NoHalfway(s: Sys, es: seq<Event>, tenant: string, peer: string)
    requires Allowed(s, es) && Halfway(s, tenant, peer) == {} && forall e :: e in es ==> !e.DropTenant?
    ensures Halfway(Run(s, es), tenant, peer) == {}
    decreases |es|
  {
    if es != [] {
      var s' := Next(s, es[0]);
      forall i | i in s'.tasks ensures i !in Halfway(s', tenant, peer) {
        assert i !in Halfway(s, tenant, peer);
      }
      NoHalfway(s', es[1..], tenant, peer);
    }
  }

  /** When the two permits of a pair are released as one step, the tenant's limit bounds its share
      of every peer's slots without exception. */
  lemma TenantNeverExceedsItsShare(s: Sys, es: seq<Event>, tenant: string, peer: string)
    requires Inv(s) && Allowed(s, es) && Halfway(s, tenant, peer) == {} && forall e :: e in es ==> !e.DropTenant?
    ensures |Occupying(Run(s, es), tenant, peer)| <= s.tenantLimit
  {
    BudgetsHold(s, es, tenant, peer);
    NoHalfway(s, es, tenant, peer);
  }

  function HalfReleasedPair(tenant: string, peer: string): Sys {
    Sys(1, 2, map[Tenant(tenant) := 0, Peer(peer) := 1], map[0 := 0, 1 := 1],
        map[0 := Task(tenant, peer, HalfReleased(1)), 1 := Task(tenant, peer, WaitingPeer(0, 1))])
  }

  lemma HalfReleasedIsInv(tenant: string, peer: string)
    ensures Inv(HalfReleasedPair(tenant, peer))
  {
    var s := HalfReleasedPair(tenant, peer);
    assert Holders(s.tasks, Tenant(tenant)) == {1} && Holders(s.tasks, Peer(peer)) == {0};
  }

  ghost predicate Reaches(s: Sys, es: seq<Event>, s': Sys) { Allowed(s, es) && Run(s, es) == s' }

  lemma {:induction false} ReachesNext(s: Sys, es: seq<Event>, mid: Sys, e: Event)
    requires Reaches(s, es, mid) && Enabled(mid, e)
    ensures Reaches(s, es + [e], Next(mid, e))
    decreases |es|
  {
    if es == [] {
      assert [e][1..] == [];
    } else {
      ConcatTail(es, [e]);
      ReachesNext(Next(s, es[0]), es[1..], mid, e);
    }
  }

  /** A task that holds a pair, from the empty system. */
  function FirstPair(tenant: string, peer: string): seq<Event> {
    [] + [Arrive(0, tenant, peer)] + [CloneTenant(0)] + [TakeTenant(0)] + [ClonePeer(0)] + [TakePeer(0)]
  }

  /** The second entry gets the second semaphore. */
  lemma ClonesPeer(tenant: string, peer: string)
    ensures var s := Sys(1, 2, map[Tenant(tenant) := 0], map[0 := 0], map[0 := Task(tenant, peer, HoldingTenant(0))]);
            Next(s, ClonePeer(0)) ==
            Sys(1, 2, map[Tenant(tenant) := 0, Peer(peer) := 1], map[0 := 0, 1 := 2],
                map[0 := Task(tenant, peer, WaitingPeer(0, 1))])
  {
    var m: map<nat, nat> := map[0 := 0];
    assert Unseen(m) == FirstGap(m, m.Keys - {0}, 1) == 1;
  }

  lemma FirstPairIs(tenant: string, peer: string)
    ensures Reaches(Sys(1, 2, map[], map[], map[]), FirstPair(tenant, peer),
                    Sys(1, 2, map[Tenant(tenant) := 0, Peer(peer) := 1], map[0 := 0, 1 := 1],
                        map[0 := Task(tenant, peer, HoldingBoth(0, 1))]))
  {
    var s0 := Sys(1, 2, map[], map[], map[]);
    var s1 := Next(s0, Arrive(0, tenant, peer));
    var s2 := Next(s1, CloneTenant(0));
    assert s2 == Sys(1, 2, map[Tenant(tenant) := 0], map[0 := 1], map[0 := Task(tenant, peer, WaitingTenant(0))]);
    var s3 := Next(s2, TakeTenant(0));
    assert s3 == Sys(1, 2, map[Tenant(tenant) := 0], map[0 := 0], map[0 := Task(tenant, peer, HoldingTenant(0))]);
    ClonesPeer(tenant, peer);
    var es := [] + [Arrive(0, tenant, peer)];
    ReachesNext(s0, [], s0, Arrive(0, tenant, peer));
    ReachesNext(s0, es, s1, CloneTenant(0));
    ReachesNext(s0, es + [CloneTenant(0)], s2, TakeTenant(0));
    ReachesNext(s0, es + [CloneTenant(0)] + [TakeTenant(0)], s3, ClonePeer(0));
    ReachesNext(s0, es + [CloneTenant(0)] + [TakeTenant(0)] + [ClonePeer(0)], Next(s3, ClonePeer(0)), TakePeer(0));
  }

  /** It drops its tenant permit, and a second task of the tenant takes that and waits for the peer. */
  function SecondTask(tenant: string, peer: string): seq<Event> {
    FirstPair(tenant, peer) + [DropTenant(0)] + [Arrive(1, tenant, peer)] + [CloneTenant(1)] + [TakeTenant(1)] +
      [ClonePeer(1)]
  }

  lemma SecondTaskIs(tenant: string, peer: string)
    ensures Reaches(Sys(1, 2, map[], map[], map[]), SecondTask(tenant, peer), HalfReleasedPair(tenant, peer))
  {
    FirstPairIs(tenant, peer);
    var s0, es := Sys(1, 2, map[], map[], map[]), FirstPair(tenant, peer);
    var s1 := Run(s0, es);
    var s2 := Next(s1, DropTenant(0));
    var s3 := Next(s2, Arrive(1, tenant, peer));
    var s4 := Next(s3, CloneTenant(1));
    var s5 := Next(s4, TakeTenant(1));
    assert s5.available == map[0 := 0, 1 := 1];
    assert Next(s5, ClonePeer(1)) == HalfReleasedPair(tenant, peer);
    ReachesNext(s0, es, s1, DropTenant(0));
    ReachesNext(s0, es + [DropTenant(0)], s2, Arrive(1, tenant, peer));
    ReachesNext(s0, es + [DropTenant(0)] + [Arrive(1, tenant, peer)], s3, CloneTenant(1));
    ReachesNext(s0, es + [DropTenant(0)] + [Arrive(1, tenant, peer)] + [CloneTenant(1)], s4, TakeTenant(1));
    ReachesNext(s0, es + [DropTenant(0)] + [Arrive(1, tenant, peer)] + [CloneTenant(1)] + [TakeTenant(1)], s5,
      ClonePeer(1));
  }

  /** The exception is real: with a limit of one, the first pair has dropped its tenant permit, a
      second task of the tenant takes it and then a peer slot, and both occupy the peer. Dropping the
      peer permit ends it. */
  lemma HalfReleasedPairAddsOne(tenant: string, peer: string)
    ensures Reaches(Sys(1, 2, map[], map[], map[]), SecondTask(tenant, peer), HalfReleasedPair(tenant, peer))
    ensures var s := HalfReleasedPair(tenant, peer);
            && Inv(s) && Enabled(s, TakePeer(1))
            && |Occupying(Next(s, TakePeer(1)), tenant, peer)| == s.tenantLimit + 1
            && |Occupying(Next(Next(s, TakePeer(1)), DropPeer(0)), tenant, peer)| == s.tenantLimit
  {
    HalfReleasedIsInv(tenant, peer);
    SecondTaskIs(tenant, peer);
    var s := HalfReleasedPair(tenant, peer);
    var s1 := Next(s, TakePeer(1));
    assert Occupying(s1, tenant, peer) == {0, 1};
    assert Occupying(Next(s1, DropPeer(0)), tenant, peer) == {1};
  }

  lemma InitIsInv(tenantLimit: nat, peerLimit: nat)
    ensures Inv(Sys(tenantLimit, peerLimit, map[], map[], map[]))
  {
  }
}
