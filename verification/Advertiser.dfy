/** The route advertiser of one Edge: coalesced advertise requests, withdrawals and shutdown around
    one publish lock, while Connectors register and disconnect (mesh/routes.rs, quic_server.rs). */
module Advertiser {
  import opened Wrappers

  /** Where a task that called `advertise_now` is. `newest` is the newest registration and `gone` are the
      ended ones when the request was made. `Snapshot` reads the tenant index entry by entry, so
      registrations may come and go meanwhile; `bound` and `base` are the newest registration and the
      ended ones when the request counter was read. */
  datatype Phase =
    | Waiting(request: nat, newest: nat, gone: set<nat>)
    | Locked(request: nat, newest: nat)
    | Snapshot(upTo: nat, bound: nat, base: set<nat>, visited: set<string>, seen: set<nat>)
    | Covered(newest: nat, gone: set<nat>, publish: nat)
    | Done

  /** How a call to Valkey ends. */
  datatype Fate = Answered | LostAfter | LostBefore

  /** `live` maps registration generations to tenants; `published` lists the generations of each
      successful publish, and `routes` is what Valkey shows for this Edge. */
  datatype Sys = Sys(
    tenants: set<string>, live: map<nat, string>, newest: nat, ended: set<nat>,
    requests: nat, covered: nat, coveredBound: nat, coveredBase: set<nat>, stopped: bool, holder: Option<nat>,
    tasks: map<nat, Phase>, published: seq<set<nat>>, routes: set<nat>, withdrawn: set<nat>)

  datatype Event =
    | Register(tenant: string)
    | Remove(generation: nat)
    | Request(id: nat)
    | TakeLock(id: nat)
    | LoadCovered(id: nat)
    | ReadTenant(id: nat, tenant: string)
    | Publish(id: nat, fate: Fate)
    | Abort(id: nat)
    | Withdraw(generation: nat, fate: Fate)
    | Stop(fate: Fate)
    | RouteExpires(generation: nat)

  predicate Holds(s: Sys, id: nat) { id in s.tasks && s.holder == Some(id) }

  predicate Enabled(s: Sys, e: Event) {
    match e
    case Register(t) => t in s.tenants
    case Remove(g) => g in s.live
    case Request(id) => id !in s.tasks
    case TakeLock(id) => id in s.tasks && s.tasks[id].Waiting? && s.holder.None?
    case LoadCovered(id) => Holds(s, id) && s.tasks[id].Locked?
    case ReadTenant(id, t) => Holds(s, id) && s.tasks[id].Snapshot? && t in s.tenants
    case Publish(id, _) => Holds(s, id) && s.tasks[id].Snapshot? && s.tasks[id].visited == s.tenants
    case Abort(id) => Holds(s, id)
    case Withdraw(g, _) => g in s.ended && s.holder.None?
    case Stop(_) => s.holder.None?
    case RouteExpires(_) => true
  }

  function Of(live: map<nat, string>, tenant: string): set<nat> { set g | g in live && live[g] == tenant }

  function Moved(s: Sys, id: nat, phase: Phase): Sys { s.(tasks := s.tasks[id := phase]) }

  function Next(s: Sys, e: Event): Sys
    requires Enabled(s, e)
  {
    match e
    case Register(t) =>
      s.(live := (s.live - Of(s.live, t))[s.newest + 1 := t], newest := s.newest + 1, ended := s.ended + Of(s.live, t))
    case Remove(g) => s.(live := s.live - {g}, ended := s.ended + {g})
    case Request(id) => Moved(s, id, Waiting(s.requests + 1, s.newest, s.ended)).(requests := s.requests + 1)
    case TakeLock(id) =>
      var p := s.tasks[id];
      if s.stopped then Moved(s, id, Done)
      else if s.covered >= p.request then Moved(s, id, Covered(p.newest, p.gone, |s.published|))
      else Moved(s, id, Locked(p.request, p.newest)).(holder := Some(id))
    case LoadCovered(id) => Moved(s, id, Snapshot(s.requests, s.newest, s.ended, {}, {}))
    case ReadTenant(id, t) =>
      var p := s.tasks[id];
      if t in p.visited then s
      else Moved(s, id, p.(visited := p.visited + {t}, seen := p.seen + Of(s.live, t)))
    case Publish(id, fate) =>
      var p := s.tasks[id];
      var done := Moved(s, id, Done).(holder := None);
      (match fate
       case Answered =>
         done.(routes := p.seen, covered := p.upTo, coveredBound := p.bound, coveredBase := p.base,
               published := s.published + [p.seen])
       case LostAfter => done.(routes := p.seen)
       case LostBefore => done)
    case Abort(id) => Moved(s, id, Done).(holder := None)
    case Withdraw(g, fate) =>
      if fate.LostBefore? then s
      else s.(routes := s.routes - {g}, withdrawn := s.withdrawn + {g})
    case Stop(fate) =>
      s.(stopped := true, routes := if fate.LostBefore? then s.routes else s.routes - s.live.Keys)
    case RouteExpires(g) => s.(routes := s.routes - {g})
  }

  // ----- What every step keeps -----

  /** Whatever was registered up to `bound` is in the set, unless it was replaced or removed. */
  ghost predicate Includes(seen: set<nat>, ended: set<nat>, bound: nat) {
    forall g: nat :: 1 <= g <= bound ==> g in seen || g in ended
  }

  /** The same for a snapshot in progress, whose unvisited tenants are still to come. */
  ghost predicate WillInclude(s: Sys, bound: nat, visited: set<string>, seen: set<nat>) {
    forall g: nat :: 1 <= g <= bound ==> g in seen || g in s.ended || (g in s.live && s.live[g] !in visited)
  }

  ghost predicate RegistryInv(s: Sys) {
    && (forall g: nat :: 1 <= g <= s.newest <==> g in s.ended || g in s.live)
    && s.live.Keys !! s.ended
    && (forall g :: g in s.live ==> s.live[g] in s.tenants)
  }

  ghost predicate TaskInv(s: Sys, id: nat, p: Phase) {
    match p
    case Waiting(r, newest, gone) =>
      && s.holder != Some(id) && 1 <= r <= s.requests && newest <= s.newest && gone <= s.ended
      && (r <= s.covered ==> newest <= s.coveredBound && gone <= s.coveredBase)
    case Locked(r, newest) => s.holder == Some(id) && 1 <= r <= s.requests && newest <= s.newest
    case Snapshot(upTo, bound, base, visited, seen) =>
      && s.holder == Some(id) && 1 <= upTo <= s.requests && bound <= s.newest
      && base <= s.ended && seen !! base && seen !! s.withdrawn && WillInclude(s, bound, visited, seen)
    case Covered(newest, gone, publish) =>
      && s.holder != Some(id) && 1 <= publish <= |s.published|
      && Includes(s.published[publish - 1], s.ended, newest) && s.published[publish - 1] !! gone
    case Done => s.holder != Some(id)
  }

  /** Requests a snapshot answers were made before its bound and its base were taken. */
  ghost predicate InOrder(s: Sys) {
    forall i, j :: i in s.tasks && j in s.tasks && s.tasks[i].Waiting? && s.tasks[j].Snapshot? ==>
      s.tasks[i].request <= s.tasks[j].upTo ==> Precedes(s.tasks[i], s.tasks[j])
  }

  predicate Precedes(p: Phase, q: Phase)
    requires p.Waiting? && q.Snapshot?
  {
    p.newest <= q.bound && p.gone <= q.base
  }

  ghost predicate CoveredInv(s: Sys) {
    && s.covered <= s.requests
    && (s.covered > 0 ==>
          && s.published != [] && Includes(s.published[|s.published| - 1], s.ended, s.coveredBound)
          && s.published[|s.published| - 1] !! s.coveredBase)
  }

  ghost predicate Inv(s: Sys) {
    && RegistryInv(s) && CoveredInv(s) && InOrder(s)
    && (forall id :: id in s.tasks ==> TaskInv(s, id, s.tasks[id]))
    && (s.holder.Some? ==> s.holder.value in s.tasks)
    && (s.stopped ==> s.holder.None?)
    && s.withdrawn <= s.ended && s.routes !! s.withdrawn
  }

  lemma RegistryStepKeeps(s: Sys, e: Event)
    requires Inv(s) && Enabled(s, e) && (e.Register? || e.Remove?)
    ensures Inv(Next(s, e))
  {
    var s' := Next(s, e);
    assert s.ended <= s'.ended;
    forall id | id in s'.tasks ensures TaskInv(s', id, s'.tasks[id]) {
      assert TaskInv(s, id, s.tasks[id]);
    }
  }

  /** Steps that change one task and leave the registry and the published history alone. */
  lemma TaskMoves(s: Sys, s': Sys, id: nat)
    requires Inv(s) && id in s'.tasks && s'.tasks == s.tasks[id := s'.tasks[id]]
    requires s'.live == s.live && s'.ended == s.ended && s'.newest == s.newest && s'.tenants == s.tenants
    requires s'.published == s.published && s'.covered == s.covered && s'.coveredBound == s.coveredBound
    requires s'.coveredBase == s.coveredBase
    requires s'.withdrawn == s.withdrawn && s'.requests >= s.requests
    requires s.holder == Some(id) || s.holder.None? || s'.holder == s.holder
    requires s'.holder == s.holder || s'.holder == Some(id) || s'.holder.None?
    requires TaskInv(s', id, s'.tasks[id])
    ensures forall i :: i in s'.tasks ==> TaskInv(s', i, s'.tasks[i])
  {
    forall i | i in s'.tasks ensures TaskInv(s', i, s'.tasks[i]) {
      if i != id { assert TaskInv(s, i, s.tasks[i]); }
    }
  }

  lemma RequestKeeps(s: Sys, id: nat)
    requires Inv(s) && Enabled(s, Request(id))
    ensures Inv(Next(s, Request(id)))
  {
    var s' := Next(s, Request(id));
    TaskMoves(s, s', id);
    forall j | j in s'.tasks && s'.tasks[j].Snapshot?
      ensures j in s.tasks && s.tasks[j].Snapshot? && s'.tasks[j].upTo <= s.requests
    {
      assert TaskInv(s, j, s.tasks[j]);
    }
  }

  lemma TakeLockKeeps(s: Sys, id: nat)
    requires Inv(s) && Enabled(s, TakeLock(id))
    ensures Inv(Next(s, TakeLock(id)))
  {
    var s' := Next(s, TakeLock(id));
    assert TaskInv(s, id, s.tasks[id]);
    TaskMoves(s, s', id);
    forall j | j in s'.tasks && (s'.tasks[j].Snapshot? || s'.tasks[j].Waiting?)
      ensures j in s.tasks && s.tasks[j] == s'.tasks[j]
    {
    }
  }

  lemma LoadKeeps(s: Sys, id: nat)
    requires Inv(s) && Enabled(s, LoadCovered(id))
    ensures Inv(Next(s, LoadCovered(id)))
  {
    var s' := Next(s, LoadCovered(id));
    assert TaskInv(s, id, s.tasks[id]);
    assert WillInclude(s', s.newest, {}, {});
    TaskMoves(s, s', id);
    forall i, j | && i in s'.tasks && j in s'.tasks && s'.tasks[i].Waiting? && s'.tasks[j].Snapshot?
                  && s'.tasks[i].request <= s'.tasks[j].upTo
      ensures Precedes(s'.tasks[i], s'.tasks[j])
    {
      assert TaskInv(s', i, s'.tasks[i]);
    }
  }

  lemma ReadKeeps(s: Sys, id: nat, t: string)
    requires Inv(s) && Enabled(s, ReadTenant(id, t))
    ensures Inv(Next(s, ReadTenant(id, t)))
  {
    var s' := Next(s, ReadTenant(id, t));
    assert TaskInv(s, id, s.tasks[id]);
    if t !in s.tasks[id].visited {
      var p := s'.tasks[id];
      assert WillInclude(s', p.bound, p.visited, p.seen);
      TaskMoves(s, s', id);
    }
  }

  lemma PublishKeeps(s: Sys, id: nat, fate: Fate)
    requires Inv(s) && Enabled(s, Publish(id, fate))
    ensures Inv(Next(s, Publish(id, fate)))
  {
    var s' := Next(s, Publish(id, fate));
    assert TaskInv(s, id, s.tasks[id]);
    var p := s.tasks[id];
    forall g: nat | 1 <= g <= p.bound ensures g in p.seen || g in s.ended {
    }
    assert Includes(p.seen, s.ended, p.bound);
    forall i | i in s'.tasks ensures TaskInv(s', i, s'.tasks[i]) {
      if i != id {
        assert TaskInv(s, i, s.tasks[i]);
      }
    }
  }

  lemma OtherStepsKeep(s: Sys, e: Event)
    requires Inv(s) && Enabled(s, e) && (e.Abort? || e.Withdraw? || e.Stop? || e.RouteExpires?)
    ensures Inv(Next(s, e))
  {
    var s' := Next(s, e);
    forall i | i in s'.tasks ensures TaskInv(s', i, s'.tasks[i]) {
      assert TaskInv(s, i, s.tasks[i]);
    }
  }

  lemma StepKeepsInv(s: Sys, e: Event)
    requires Inv(s) && Enabled(s, e)
    ensures Inv(Next(s, e))
  {
    match e {
      case Register(_) => RegistryStepKeeps(s, e);
      case Remove(_) => RegistryStepKeeps(s, e);
      case Request(id) => RequestKeeps(s, id);
      case TakeLock(id) => TakeLockKeeps(s, id);
      case LoadCovered(id) => LoadKeeps(s, id);
      case ReadTenant(id, t) => ReadKeeps(s, id, t);
      case Publish(id, fate) => PublishKeeps(s, id, fate);
      case _ => OtherStepsKeep(s, e);
    }
  }

  // ----- Whole runs -----

  ghost predicate Allowed(s: Sys, es: seq<Event>)
    decreases |es|
  {
    es == [] || (Enabled(s, es[0]) && Allowed(Next(s, es[0]), es[1..]))
  }

  function Run(s: Sys, es: seq<Event>): Sys
    requires Allowed(s, es)
    decreases |es|
  {
    if es == [] then s else Run(Next(s, es[0]), es[1..])
  }

  lemma {:induction false} RunKeepsInv(s: Sys, es: seq<Event>)
    requires Inv(s) && Allowed(s, es)
    ensures Inv(Run(s, es))
    decreases |es|
  {
    if es != [] {
      StepKeepsInv(s, es[0]);
      RunKeepsInv(Next(s, es[0]), es[1..]);
    }
  }

  /** When `advertise_now` returns because its request is already covered, some successful publish
      carried every registration that was made before the request and has not ended since, and none
      that had ended before the request. */
  lemma CoveredMeansPublished(s: Sys, es: seq<Event>, id: nat)
    requires Inv(s) && Allowed(s, es) && id in Run(s, es).tasks && Run(s, es).tasks[id].Covered?
    ensures var s', p := Run(s, es), Run(s, es).tasks[id];
            && 1 <= p.publish <= |s'.published|
            && (forall g :: g in s'.live && g <= p.newest ==> g in s'.published[p.publish - 1])
            && s'.published[p.publish - 1] !! p.gone
  {
    RunKeepsInv(s, es);
    assert TaskInv(Run(s, es), id, Run(s, es).tasks[id]);
  }

  /** Once the withdrawal of an ended registration has reached Valkey, its routes are never shown
      again, and no later publish carries them. */
  lemma {:induction false} WithdrawnStaysWithdrawn(s: Sys, es: seq<Event>, g: nat)
    requires Inv(s) && Allowed(s, es) && g in s.withdrawn
    ensures g !in Run(s, es).routes
    ensures s.published <= Run(s, es).published
    ensures forall k :: |s.published| <= k < |Run(s, es).published| ==> g !in Run(s, es).published[k]
    decreases |es|
  {
    if es != [] {
      StepKeepsInv(s, es[0]);
      var s' := Next(s, es[0]);
      assert es[0].Publish? ==> TaskInv(s, es[0].id, s.tasks[es[0].id]);
      WithdrawnStaysWithdrawn(s', es[1..], g);
      var last := Run(s', es[1..]);
      forall k | |s.published| <= k < |last.published| ensures g !in last.published[k] {
        if k < |s'.published| { assert last.published[k] == s'.published[k]; }
      }
    }
  }

  /** A withdrawal that reaches Valkey takes the registration's routes away, and only those, for good. */
  lemma WithdrawalRemoves(s: Sys, g: nat, fate: Fate, es: seq<Event>)
    requires Inv(s) && Enabled(s, Withdraw(g, fate)) && !fate.LostBefore? && Allowed(Next(s, Withdraw(g, fate)), es)
    ensures var s' := Next(s, Withdraw(g, fate));
            && (forall x :: x in s'.routes <==> x in s.routes && x != g)
            && g !in Run(s', es).routes
  {
    StepKeepsInv(s, Withdraw(g, fate));
    WithdrawnStaysWithdrawn(Next(s, Withdraw(g, fate)), es, g);
  }

  /** A shutdown that reaches Valkey takes the routes of every live registration away for good. */
  lemma StopRemoves(s: Sys, fate: Fate, es: seq<Event>)
    requires Inv(s) && Enabled(s, Stop(fate)) && !fate.LostBefore? && Allowed(Next(s, Stop(fate)), es)
    ensures Run(Next(s, Stop(fate)), es).routes !! s.live.Keys
  {
    StepKeepsInv(s, Stop(fate));
    NothingAfterStop(Next(s, Stop(fate)), es);
  }

  // ----- A request is answered by a publish -----

  function Reads(id: nat, order: seq<string>): seq<Event> {
    if order == [] then [] else [ReadTenant(id, order[0])] + Reads(id, order[1..])
  }

  /** The snapshot holds exactly the live registrations of the tenants read so far. */
  ghost predicate SeenSoFar(s: Sys, id: nat) {
    && Holds(s, id) && s.tasks[id].Snapshot?
    && s.tasks[id].seen == set g | g in s.live && s.live[g] in s.tasks[id].visited
  }

  /** Only `id` moved, and its snapshot still answers the same requests. */
  ghost predicate OnlySnapshotGrew(s: Sys, s': Sys, id: nat)
    requires id in s.tasks && s.tasks[id].Snapshot?
  {
    && id in s'.tasks && s' == Moved(s, id, s'.tasks[id]) && s'.tasks[id].Snapshot?
    && s'.tasks[id].upTo == s.tasks[id].upTo
  }

  lemma {:induction false} ReadAll(s: Sys, id: nat, order: seq<string>)
    requires SeenSoFar(s, id) && forall t :: t in order ==> t in s.tenants
    ensures Allowed(s, Reads(id, order))
    ensures var s' := Run(s, Reads(id, order));
            && OnlySnapshotGrew(s, s', id) && SeenSoFar(s', id)
            && s'.tasks[id].visited == s.tasks[id].visited + set t | t in order
    decreases |order|
  {
    if order == [] {
      assert s == Moved(s, id, s.tasks[id]);
      assert (set t | t in order) == {};
    } else {
      var s1 := Next(s, ReadTenant(id, order[0]));
      assert s1 == Moved(s, id, s1.tasks[id]);
      ReadAll(s1, id, order[1..]);
      assert Reads(id, order)[1..] == Reads(id, order[1..]);
      assert (set t | t in order) == {order[0]} + set t | t in order[1..];
    }
  }

  /** The steps of a task that makes a request and is not overtaken. */
  function Advertise(id: nat, order: seq<string>): seq<Event> {
    [Request(id)] + ([TakeLock(id)] + ([LoadCovered(id)] + (Reads(id, order) + [Publish(id, Answered)])))
  }

  lemma {:induction false} RunConcat(s: Sys, a: seq<Event>, b: seq<Event>)
    requires Allowed(s, a) && Allowed(Run(s, a), b)
    ensures Allowed(s, a + b) && Run(s, a + b) == Run(Run(s, a), b)
    decreases |a|
  {
    if a == [] {
      assert a + b == b;
    } else {
      ConcatTail(a, b);
      RunConcat(Next(s, a[0]), a[1..], b);
    }
  }

  /** From any state in which the lock is free and the Edge is not stopped, a request that is not overtaken ends
      with a publish: Valkey shows exactly the live registrations, and every request made so far is covered. */
  lemma RequestPublishesLive(s: Sys, id: nat, order: seq<string>)
    requires Inv(s) && !s.stopped && s.holder.None? && id !in s.tasks && Enumerates(order, s.tenants)
    ensures Allowed(s, Advertise(id, order))
    ensures var s' := Run(s, Advertise(id, order));
            && s'.routes == s.live.Keys && s'.published == s.published + [s.live.Keys]
            && s'.covered == s'.requests == s.requests + 1 && s'.holder.None?
            && s' == s.(requests := s'.requests, covered := s'.covered, coveredBound := s'.coveredBound,
                        coveredBase := s'.coveredBase, tasks := s'.tasks, published := s'.published,
                        routes := s'.routes)
  {
    StartsSnapshot(s, id);
    var s1 := Next(s, Request(id));
    var s2 := Next(s1, TakeLock(id));
    var s3 := Next(s2, LoadCovered(id));
    ReadAll(s3, id, order);
    var s4 := Run(s3, Reads(id, order));
    assert (set t | t in order) == s.tenants;
    var last := [Publish(id, Answered)];
    PublishesSnapshot(s, s4, id);
    RunConcat(s3, Reads(id, order), last);
    PrependStep(s2, LoadCovered(id), Reads(id, order) + last);
    PrependStep(s1, TakeLock(id), [LoadCovered(id)] + (Reads(id, order) + last));
    PrependStep(s, Request(id), [TakeLock(id)] + ([LoadCovered(id)] + (Reads(id, order) + last)));
  }

  lemma StartsSnapshot(s: Sys, id: nat)
    requires Inv(s) && !s.stopped && s.holder.None? && id !in s.tasks
    ensures var s1 := Next(s, Request(id));
            && Enabled(s1, TakeLock(id))
            && var s2 := Next(s1, TakeLock(id));
               && Enabled(s2, LoadCovered(id))
               && var s3 := Next(s2, LoadCovered(id));
                  && SeenSoFar(s3, id) && s3.tasks[id].visited == {} && s3.tasks[id].upTo == s.requests + 1
                  && s3 == s.(requests := s.requests + 1, holder := Some(id), tasks := s3.tasks)
  {
    var s3 := Next(Next(Next(s, Request(id)), TakeLock(id)), LoadCovered(id));
    assert s3.tasks[id].seen == set g | g in s.live && s.live[g] in s3.tasks[id].visited;
  }

  lemma PublishesSnapshot(s: Sys, s4: Sys, id: nat)
    requires Inv(s) && s.holder.None? && SeenSoFar(s4, id)
    requires s4.tasks[id].visited == s.tenants && s4.tasks[id].upTo == s.requests + 1
    requires s4 == s.(requests := s.requests + 1, holder := Some(id), tasks := s4.tasks)
    ensures Allowed(s4, [Publish(id, Answered)])
    ensures var s' := Run(s4, [Publish(id, Answered)]);
            && s'.routes == s.live.Keys && s'.published == s.published + [s.live.Keys]
            && s'.covered == s'.requests == s.requests + 1 && s'.holder.None?
            && s' == s.(requests := s'.requests, covered := s'.covered, coveredBound := s'.coveredBound,
                        coveredBase := s'.coveredBase, tasks := s'.tasks, published := s'.published,
                        routes := s'.routes)
  {
    assert [Publish(id, Answered)][1..] == [];
    assert s4.tasks[id].seen == s.live.Keys;
  }

  lemma PrependStep(s: Sys, e: Event, es: seq<Event>)
    requires Enabled(s, e) && Allowed(Next(s, e), es)
    ensures Allowed(s, [e] + es) && Run(s, [e] + es) == Run(Next(s, e), es)
  {
    assert ([e] + es)[1..] == es;
  }

  /** That publish answers the requests already waiting: each of them returns without a publish of its own. */
  lemma WaitingRequestsAreCoalesced(s: Sys, id: nat, order: seq<string>, other: nat)
    requires Inv(s) && !s.stopped && s.holder.None? && id !in s.tasks && Enumerates(order, s.tenants)
    requires other in s.tasks && s.tasks[other].Waiting?
    ensures Allowed(s, Advertise(id, order))
    ensures var s' := Run(s, Advertise(id, order));
            && Enabled(s', TakeLock(other))
            && var s'' := Next(s', TakeLock(other));
               s''.tasks[other].Covered? && s''.published == s'.published && s''.holder.None?
  {
    RequestPublishesLive(s, id, order);
    assert TaskInv(s, other, s.tasks[other]);
    AdvertiseIsSteps(id, order);
    OthersWait(s, Advertise(id, order), id, other);
  }

  predicate StepOf(e: Event, id: nat) {
    (e.Request? || e.TakeLock? || e.LoadCovered? || e.ReadTenant? || e.Publish?) && e.id == id
  }

  lemma {:induction false} ReadsAreSteps(id: nat, order: seq<string>)
    ensures forall e :: e in Reads(id, order) ==> StepOf(e, id)
  {
    if order != [] {
      ReadsAreSteps(id, order[1..]);
    }
  }

  lemma AdvertiseIsSteps(id: nat, order: seq<string>)
    ensures forall e :: e in Advertise(id, order) ==> StepOf(e, id)
  {
    ReadsAreSteps(id, order);
    var last := Reads(id, order) + [Publish(id, Answered)];
    assert forall e :: e in last ==> StepOf(e, id);
    assert forall e :: e in [LoadCovered(id)] + last ==> StepOf(e, id);
    assert forall e :: e in [TakeLock(id)] + ([LoadCovered(id)] + last) ==> StepOf(e, id);
  }

  /** A task that waits goes on waiting while other tasks act. */
  lemma {:induction false} OthersWait(s: Sys, es: seq<Event>, id: nat, other: nat)
    requires Allowed(s, es) && other in s.tasks && s.tasks[other].Waiting? && id != other
    requires forall e :: e in es ==> StepOf(e, id)
    ensures other in Run(s, es).tasks && Run(s, es).tasks[other] == s.tasks[other]
    decreases |es|
  {
    if es != [] {
      assert StepOf(es[0], id);
      OthersWait(Next(s, es[0]), es[1..], id, other);
    }
  }

  /** What Connectors did shows in the next publish: a new registration is there in place of the tenant's former
      one, and a removed one is not. */
  lemma ChangesArePublished(s: Sys, tenant: string, gone: nat, id: nat, order: seq<string>)
    requires Inv(s) && !s.stopped && s.holder.None? && id !in s.tasks && Enumerates(order, s.tenants)
    requires tenant in s.tenants && gone in s.live
    ensures Allowed(Next(s, Register(tenant)), Advertise(id, order))
    ensures forall g :: g in Run(Next(s, Register(tenant)), Advertise(id, order)).routes <==>
              g == s.newest + 1 || (g in s.live && s.live[g] != tenant)
    ensures Allowed(Next(s, Remove(gone)), Advertise(id, order))
    ensures Run(Next(s, Remove(gone)), Advertise(id, order)).routes == s.live.Keys - {gone}
  {
    StepKeepsInv(s, Register(tenant));
    RequestPublishesLive(Next(s, Register(tenant)), id, order);
    StepKeepsInv(s, Remove(gone));
    RequestPublishesLive(Next(s, Remove(gone)), id, order);
  }

  /** A publish that fails, or is given up, covers nothing and frees the lock, so that the requests that wait
      publish again; only one whose answer alone was lost shows its routes. */
  lemma FailedPublishCoversNothing(s: Sys, id: nat, fate: Fate)
    requires Inv(s) && Enabled(s, Publish(id, fate)) && !fate.Answered?
    ensures var s' := Next(s, Publish(id, fate));
            && s'.covered == s.covered && s'.published == s.published && s'.holder.None?
            && s'.routes == if fate.LostAfter? then s.tasks[id].seen else s.routes
    ensures Next(s, Abort(id)) == Next(s, Publish(id, LostBefore))
  {
  }

  /** Whoever gets the lock goes on to publish exactly when no publish covers the request yet and the Edge is not
      stopped. A command that does not reach Valkey takes no route away. */
  lemma LockIsKeptExactly(s: Sys, id: nat, g: nat)
    requires Inv(s) && Enabled(s, TakeLock(id))
    ensures Next(s, TakeLock(id)).holder == Some(id) <==> !s.stopped && s.covered < s.tasks[id].request
    ensures Next(s, TakeLock(id)).tasks[id].Covered? <==> !s.stopped && s.tasks[id].request <= s.covered
    ensures Next(s, TakeLock(id)).routes == s.routes && Next(s, TakeLock(id)).published == s.published
    ensures g in s.ended ==> Next(s, Withdraw(g, LostBefore)) == s
    ensures Next(s, Stop(LostBefore)) == s.(stopped := true)
  {
  }

  /** After shutdown nothing is published any more and no route appears. */
  lemma {:induction false} NothingAfterStop(s: Sys, es: seq<Event>)
    requires Inv(s) && Allowed(s, es) && s.stopped
    ensures Run(s, es).stopped && Run(s, es).published == s.published && Run(s, es).routes <= s.routes
    decreases |es|
  {
    if es != [] {
      StepKeepsInv(s, es[0]);
      NothingAfterStop(Next(s, es[0]), es[1..]);
    }
  }

  ghost predicate Init(s: Sys) {
    && s.live == map[] && s.newest == 0 && s.ended == {} && s.requests == 0 && s.covered == 0
    && !s.stopped && s.holder.None? && s.tasks == map[] && s.published == [] && s.routes == {} && s.withdrawn == {}
  }

  lemma InitIsInv(s: Sys)
    requires Init(s)
    ensures Inv(s)
  {
  }
}
