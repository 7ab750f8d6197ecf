/** Certificate issuance by several Edges: read the store, take the lease with that minimum, check
    the lease, store (acme.rs over valkey.rs and certificate_store.rs). */
module AcmeIssue {
  import opened Wrappers
  import opened Leases
  import opened CertStore

  /** How far an Edge is; `min` is the number it read from the store before asking for the lease. */
  datatype Attempt =
    | Asked(min: nat)
    | Holding(min: nat, generation: nat)
    | Checked(min: nat, generation: nat)

  datatype Sys = Sys(keys: Keys, dir: Dir, edges: map<string, Attempt>)

  datatype Event =
    | Ask(edge: string, min: nat)
    | GetLease(edge: string)
    | CheckLease(edge: string)
    | StoreCert(edge: string, pem: Pem, victims: set<nat>)
    | StoreCrash(edge: string, pem: Pem)
    | GiveUp(edge: string)
    | Free(owner: string, generation: nat)
    | LeaseExpires

  ghost predicate InStore(d: Dir, g: nat) { g in d.gens || d.current == Some(g) }

  /** What `next_generation` answers. */
  ghost predicate IsNext(d: Dir, min: nat) {
    && min > 0 && (forall g: nat :: InStore(d, g) ==> g < min)
    && (min == 1 || InStore(d, min - 1))
  }

  ghost predicate Enabled(s: Sys, e: Event) {
    match e
    case Ask(edge, min) => edge !in s.edges && IsNext(s.dir, min)
    case GetLease(edge) => edge in s.edges && s.edges[edge].Asked?
    case CheckLease(edge) => edge in s.edges && s.edges[edge].Holding?
    case StoreCert(edge, _, victims) =>
      edge in s.edges && s.edges[edge].Checked? && forall v :: v in victims ==> v < s.edges[edge].generation
    case StoreCrash(edge, _) => edge in s.edges && s.edges[edge].Checked?
    case GiveUp(edge) => edge in s.edges
    case Free(_, _) => true
    case LeaseExpires => true
  }

  function Leave(s: Sys, edge: string): Sys { s.(edges := s.edges - {edge}) }

  function Next(s: Sys, e: Event): Sys
    requires Enabled(s, e)
  {
    match e
    case Ask(edge, min) => s.(edges := s.edges[edge := Asked(min)])
    case GetLease(edge) =>
      var (keys, granted) := Acquire(s.keys, edge, s.edges[edge].min);
      if granted.Some? then s.(keys := keys, edges := s.edges[edge := Holding(s.edges[edge].min, granted.value)])
      else Leave(s, edge)
    case CheckLease(edge) =>
      if Check(s.keys, edge, s.edges[edge].generation)
      then s.(edges := s.edges[edge := Checked(s.edges[edge].min, s.edges[edge].generation)])
      else Leave(s, edge)
    case StoreCert(edge, pem, victims) =>
      var g := s.edges[edge].generation;
      if Accepts(s.dir, g) then Leave(s, edge).(dir := Dir(s.dir.gens[g := Complete(pem)] - victims, Some(g)))
      else Leave(s, edge)
    case StoreCrash(edge, pem) =>
      var g := s.edges[edge].generation;
      if Accepts(s.dir, g) then Leave(s, edge).(dir := s.dir.(gens := s.dir.gens[g := Complete(pem)]))
      else Leave(s, edge)
    case GiveUp(edge) => Leave(s, edge)
    case Free(owner, generation) => s.(keys := Release(s.keys, owner, generation))
    case LeaseExpires => s.(keys := s.keys.(lease := None))
  }

  predicate HasGeneration(a: Attempt) { a.Holding? || a.Checked? }

  /** The generation belongs to a past holding, or to the present one. */
  ghost predicate Granted(k: Keys, edge: string, g: nat) {
    1 <= g && (g < k.counter || (g == k.counter && (k.lease.None? || Check(k, edge, g))))
  }

  ghost predicate Reaches(d: Dir, n: nat) { n in d.gens || (d.current.Some? && d.current.value >= n) }

  ghost predicate EdgeInv(s: Sys, edge: string)
    requires edge in s.edges
  {
    var a := s.edges[edge];
    && (a.min > 1 ==> Reaches(s.dir, a.min - 1))
    && (if HasGeneration(a)
        then && Granted(s.keys, edge, a.generation)
             && (a.generation >= a.min ==>
                   forall x: nat :: InStore(s.dir, x) ==>
                     x != a.generation && (x < a.generation || x <= s.keys.counter))
        else forall x: nat :: InStore(s.dir, x) ==> x < a.min || (x <= s.keys.counter && !Check(s.keys, edge, x)))
  }

  ghost predicate OneWriterPerGeneration(s: Sys) {
    forall a, b :: a in s.edges && b in s.edges && a != b && HasGeneration(s.edges[a]) && HasGeneration(s.edges[b])
      ==> s.edges[a].generation != s.edges[b].generation
  }

  ghost predicate Inv(s: Sys) {
    Leases.Inv(s.keys) && (s.keys.lease.Some? ==> s.keys.counter >= 1)
    && (forall edge :: edge in s.edges ==> EdgeInv(s, edge)) && OneWriterPerGeneration(s)
  }

  lemma LeaveKeeps(s: Sys, edge: string)
    requires Inv(s)
    ensures Inv(Leave(s, edge))
  {
    forall x | x in Leave(s, edge).edges ensures EdgeInv(Leave(s, edge), x) {
      assert EdgeInv(s, x);
    }
  }

  lemma GrantKeeps(s: Sys, edge: string)
    requires Inv(s) && edge in s.edges && s.edges[edge].Asked?
    ensures Inv(Next(s, GetLease(edge)))
  {
    var min := s.edges[edge].min;
    var (keys, granted) := Acquire(s.keys, edge, min);
    AcquireGrants(s.keys, edge, min);
    if granted.None? {
      LeaveKeeps(s, edge);
    } else {
      var s' := Next(s, GetLease(edge));
      Leases.StepKeepsInv(s.keys, AcquireLease(edge, min));
      forall x | x in s'.edges ensures EdgeInv(s', x) {
        assert EdgeInv(s, x);
        if x != edge {
          OthersUnaffectedByGrant(s, s', edge, x);
        } else if s.keys.lease.Some? {
          OneHolder(s.keys, edge, granted.value, edge, granted.value);
        }
      }
      forall x | x in s.edges && x != edge && HasGeneration(s.edges[x]) ensures s.edges[x].generation != granted.value {
        assert EdgeInv(s, x);
        if s.keys.lease.Some? && s.edges[x].generation == granted.value {
          OneHolder(s.keys, edge, granted.value, x, granted.value);
        }
      }
    }
  }

  lemma OthersUnaffectedByGrant(s: Sys, s': Sys, edge: string, other: string)
    requires Inv(s) && edge in s.edges && s.edges[edge].Asked? && other in s.edges && other != edge
    requires s' == Next(s, GetLease(edge)) && other in s'.edges
    ensures EdgeInv(s', other)
  {
    var a := s.edges[other];
    assert EdgeInv(s, other);
    assert s'.edges[other] == a && s'.dir == s.dir;
    GrantToAnother(s.keys, edge, s.edges[edge].min, other);
    if HasGeneration(a) {
      assert Granted(s.keys, other, a.generation);
      assert Granted(s'.keys, other, a.generation);
    } else {
      forall x: nat | InStore(s'.dir, x) ensures x < a.min || (x <= s'.keys.counter && !Check(s'.keys, other, x)) {
        assert InStore(s.dir, x);
      }
    }
  }

  /** A grant to one Edge takes nothing from another and gives it nothing. */
  lemma GrantToAnother(keys: Keys, edge: string, min: nat, other: string)
    requires Leases.Inv(keys) && other != edge
    ensures var keys' := Acquire(keys, edge, min).0;
            && keys'.counter >= keys.counter
            && (forall g: nat :: Granted(keys, other, g) ==> Granted(keys', other, g))
            && (forall g: nat :: Check(keys', other, g) ==> Check(keys, other, g))
  {
    var keys' := Acquire(keys, edge, min).0;
    AcquireGrants(keys, edge, min);
    forall g: nat | Check(keys', other, g) ensures Check(keys, other, g) {
      if keys.lease.None? {
        FormatInjective(other, g, edge, keys'.counter);
      }
    }
  }

  /** A generation of `edge` enters the store, possibly as the active one with older ones removed. */
  lemma StoreKeeps(s: Sys, edge: string, d: Dir)
    requires Inv(s) && edge in s.edges && s.edges[edge].Checked?
    requires var g := s.edges[edge].generation;
             && Accepts(s.dir, g)
             && (forall x: nat :: InStore(d, x) ==> InStore(s.dir, x) || x == g)
             && (forall n: nat :: Reaches(s.dir, n) ==> Reaches(d, n))
    ensures Inv(Leave(s, edge).(dir := d))
  {
    var g := s.edges[edge].generation;
    var s' := Leave(s, edge).(dir := d);
    assert EdgeInv(s, edge);
    forall x | x in s'.edges ensures EdgeInv(s', x) {
      assert EdgeInv(s, x);
      if s.edges[x].Asked? && Check(s.keys, x, g) {
        OneHolder(s.keys, x, g, x, g);
        OneHolder(s.keys, x, g, edge, g);
      }
    }
  }

  lemma ReleaseKeeps(s: Sys, keys: Keys)
    requires Inv(s) && keys.counter == s.keys.counter && (keys == s.keys || keys.lease.None?)
    ensures Inv(s.(keys := keys))
  {
    forall x | x in s.edges ensures EdgeInv(s.(keys := keys), x) {
      assert EdgeInv(s, x);
    }
  }

  lemma OtherStepsKeep(s: Sys, e: Event)
    requires Inv(s) && Enabled(s, e) && (e.Ask? || e.CheckLease?)
    ensures Inv(Next(s, e))
  {
    var s' := Next(s, e);
    if e.CheckLease? && e.edge !in s'.edges {
      LeaveKeeps(s, e.edge);
    } else {
      forall x | x in s'.edges ensures EdgeInv(s', x) {
        if x in s.edges { assert EdgeInv(s, x); }
      }
    }
  }

  lemma StepKeepsInv(s: Sys, e: Event)
    requires Inv(s) && Enabled(s, e)
    ensures Inv(Next(s, e))
  {
    match e {
      case Ask(_, _) => OtherStepsKeep(s, e);
      case GetLease(edge) => GrantKeeps(s, edge);
      case CheckLease(_) => OtherStepsKeep(s, e);
      case StoreCert(edge, pem, victims) =>
        var g := s.edges[edge].generation;
        if Accepts(s.dir, g) {
          StoreKeeps(s, edge, Dir(s.dir.gens[g := Complete(pem)] - victims, Some(g)));
        } else {
          LeaveKeeps(s, edge);
        }
      case StoreCrash(edge, pem) =>
        var g := s.edges[edge].generation;
        if Accepts(s.dir, g) {
          StoreKeeps(s, edge, s.dir.(gens := s.dir.gens[g := Complete(pem)]));
        } else {
          LeaveKeeps(s, edge);
        }
      case GiveUp(edge) => LeaveKeeps(s, edge);
      case Free(owner, generation) => ReleaseKeeps(s, Release(s.keys, owner, generation));
      case LeaseExpires => ReleaseKeeps(s, s.keys.(lease := None));
    }
  }

  ghost predicate Allowed(s: Sys, es: seq<Event>)
    decreases |es|
  {
    es == [] || (Enabled(s, es[0]) && Allowed(Next(s, es[0]), es[1..]))
  }

  function Run(s: Sys, es: seq<Event>): Sys
    requires Allowed(s, es)
    decreases |es|
  {
    if es == [] then s else Run(Next(s, es[0]), es[1..])
  }

  /** The counter is ahead of the store; true from the start, unless Valkey lost its counter. */
  ghost predicate CounterAhead(s: Sys) { forall x: nat :: InStore(s.dir, x) ==> x <= s.keys.counter }

  lemma StepKeepsCounterAhead(s: Sys, e: Event)
    requires Inv(s) && Enabled(s, e) && CounterAhead(s)
    ensures CounterAhead(Next(s, e))
  {
    match e {
      case GetLease(edge) => AcquireGrants(s.keys, edge, s.edges[edge].min);
      case StoreCert(edge, _, _) =>
        assert EdgeInv(s, edge);
        forall x: nat | InStore(Next(s, e).dir, x) ensures x <= s.keys.counter {
          assert InStore(s.dir, x) || x == s.edges[edge].generation;
        }
      case StoreCrash(edge, _) =>
        assert EdgeInv(s, edge);
        forall x: nat | InStore(Next(s, e).dir, x) ensures x <= s.keys.counter {
          assert InStore(s.dir, x) || x == s.edges[edge].generation;
        }
      case _ =>
    }
  }

  /** In every run: two Edges never store the same generation, and an Edge that still holds its lease
      is not refused by the store as long as its generation is at least the minimum it asked for.
      When the counter is ahead of the store, that condition is exact. */
  lemma {:induction false} HolderIsAccepted(s: Sys, es: seq<Event>, edge: string)
    requires Inv(s) && Allowed(s, es)
    requires edge in Run(s, es).edges && HasGeneration(Run(s, es).edges[edge])
    requires Check(Run(s, es).keys, edge, Run(s, es).edges[edge].generation)
    ensures var s' := Run(s, es);
            var a := s'.edges[edge];
            && OneWriterPerGeneration(s')
            && (a.generation >= a.min ==> Accepts(s'.dir, a.generation))
            && (CounterAhead(s) ==> (Accepts(s'.dir, a.generation) <==> a.generation >= a.min))
    decreases |es|
  {
    if es == [] {
      var a := s.edges[edge];
      assert EdgeInv(s, edge);
      OneHolder(s.keys, edge, a.generation, edge, a.generation);
      assert forall x: nat :: x in s.dir.gens ==> InStore(s.dir, x);
      assert s.dir.current.Some? ==> InStore(s.dir, s.dir.current.value);
    } else {
      StepKeepsInv(s, es[0]);
      if CounterAhead(s) { StepKeepsCounterAhead(s, es[0]); }
      HolderIsAccepted(Next(s, es[0]), es[1..], edge);
    }
  }

  /** After the holder frees the lease, in any state of any run, the next Edge that asks gets it, with a number
      above the freed one. */
  lemma FreedLeaseIsGranted(s: Sys, es: seq<Event>, owner: string, generation: nat, edge: string)
    requires Inv(s) && Allowed(s, es) && Run(s, es).keys.lease == Some(Format(owner, generation))
    requires edge in Run(s, es).edges && Run(s, es).edges[edge].Asked?
    ensures var s' := Run(s, es);
            var s'' := Next(Next(s', Free(owner, generation)), GetLease(edge));
            && edge in s''.edges && s''.edges[edge].Holding? && s''.edges[edge].min == s'.edges[edge].min
            && s''.edges[edge].generation > generation && s''.edges[edge].generation >= s'.edges[edge].min
            && s'' == Next(Next(s', LeaseExpires), GetLease(edge))
            && Check(s''.keys, edge, s''.edges[edge].generation)
  {
    RunKeepsInv(s, es);
    var s' := Run(s, es);
    ReleaseFrees(s'.keys, owner, generation, edge, s'.edges[edge].min, []);
  }

  /** While nobody holds the lease an Edge that goes through all the steps stores its certificate and makes it
      the current one, whatever happened before. */
  lemma UndisturbedIssueStores(s: Sys, edge: string, min: nat, pem: Pem, victims: set<nat>)
    requires Inv(s) && s.keys.lease.None? && edge !in s.edges && IsNext(s.dir, min)
    requires forall v :: v in victims ==> v < min
    ensures var s1 := Next(Next(s, Ask(edge, min)), GetLease(edge));
            var g := s1.keys.counter;
            && g >= min && g > s.keys.counter
            && LeadsTo(s1, [CheckLease(edge), StoreCert(edge, pem, victims)],
                       Sys(s1.keys, Dir(s.dir.gens[g := Complete(pem)] - victims, Some(g)), s.edges))
            && (s.dir.gens[g := Complete(pem)] - victims)[g] == Complete(pem)
  {
    AcquireGrants(s.keys, edge, min);
    var s1 := Next(Next(s, Ask(edge, min)), GetLease(edge));
    var g := s1.keys.counter;
    var s2 := Next(s1, CheckLease(edge));
    assert s2.edges[edge] == Checked(min, g);
    assert forall x: nat :: x in s.dir.gens ==> InStore(s.dir, x);
    assert s.dir.current.Some? ==> InStore(s.dir, s.dir.current.value);
    assert Accepts(s2.dir, g);
    var s3 := Next(s2, StoreCert(edge, pem, victims));
    assert s3.edges == s.edges;
    LeadsToNext(s1, [], s1, CheckLease(edge));
    LeadsToNext(s1, [] + [CheckLease(edge)], s2, StoreCert(edge, pem, victims));
    assert [] + [CheckLease(edge)] + [StoreCert(edge, pem, victims)] ==
           [CheckLease(edge), StoreCert(edge, pem, victims)];
  }

  /** An Edge that lost its lease before the check never gets to store under that generation, in any
      continuation. */
  lemma {:induction false} LostLeaseIsNotStored(s: Sys, es: seq<Event>, edge: string)
    requires Inv(s) && Allowed(s, es) && edge in s.edges && s.edges[edge].Holding?
    requires s.keys.lease != Some(Format(edge, s.edges[edge].generation))
    requires forall e :: e in es ==> !(e.Ask? && e.edge == edge)
    ensures edge in Run(s, es).edges ==> Run(s, es).edges[edge] == s.edges[edge]
    decreases |es|
  {
    if es != [] {
      var s' := Next(s, es[0]);
      StepKeepsInv(s, es[0]);
      assert EdgeInv(s, edge);
      StaysLost(s, es[0], edge);
      if edge in s'.edges {
        LostLeaseIsNotStored(s', es[1..], edge);
      } else {
        AbsentStaysAbsent(s', es[1..], edge);
      }
    }
  }

  lemma StaysLost(s: Sys, e: Event, edge: string)
    requires Inv(s) && Enabled(s, e) && edge in s.edges && s.edges[edge].Holding?
    requires !Check(s.keys, edge, s.edges[edge].generation) && !(e.Ask? && e.edge == edge)
    ensures var s' := Next(s, e);
            edge in s'.edges ==> s'.edges[edge] == s.edges[edge] && !Check(s'.keys, edge, s.edges[edge].generation)
  {
    assert EdgeInv(s, edge);
    if e.GetLease? {
      var min := s.edges[e.edge].min;
      AcquireGrants(s.keys, e.edge, min);
      var k' := Acquire(s.keys, e.edge, min).0;
      if Check(k', edge, s.edges[edge].generation) && s.keys.lease.None? {
        FormatInjective(e.edge, k'.counter, edge, s.edges[edge].generation);
      }
    }
  }

  lemma {:induction false} AbsentStaysAbsent(s: Sys, es: seq<Event>, edge: string)
    requires Allowed(s, es) && edge !in s.edges && forall e :: e in es ==> !(e.Ask? && e.edge == edge)
    ensures edge !in Run(s, es).edges
    decreases |es|
  {
    if es != [] {
      AbsentStaysAbsent(Next(s, es[0]), es[1..], edge);
    }
  }

  /** A store that is cut off before its certificate becomes current: the number is taken, so whoever asks next
      reads a larger minimum, and the current certificate is as before. An attempt that is given up leaves nothing. */
  lemma CrashedStoreIsPassedOver(s: Sys, edge: string, pem: Pem, min: nat)
    requires Enabled(s, StoreCrash(edge, pem)) && Accepts(s.dir, s.edges[edge].generation)
    ensures var s' := Next(s, StoreCrash(edge, pem));
            && s'.dir.current == s.dir.current && edge !in s'.edges
            && (IsNext(s'.dir, min) ==> min > s.edges[edge].generation)
    ensures Next(s, GiveUp(edge)) == s.(edges := s.edges - {edge})
  {
    assert InStore(Next(s, StoreCrash(edge, pem)).dir, s.edges[edge].generation);
  }

  lemma {:induction false} RunKeepsInv(s: Sys, es: seq<Event>)
    requires Inv(s) && Allowed(s, es)
    ensures Inv(Run(s, es))
    decreases |es|
  {
    if es != [] {
      StepKeepsInv(s, es[0]);
      RunKeepsInv(Next(s, es[0]), es[1..]);
    }
  }

  /** The minimum can be missed: an Edge whose release was lost asks again after storing, is answered
      with the generation it already stored, and is refused until the lease expires. */
  lemma LostReleaseIsRefused(s: Sys, edge: string, min: nat)
    requires Inv(s) && edge !in s.edges && IsNext(s.dir, min)
    requires Check(s.keys, edge, s.keys.counter) && s.dir.current == Some(s.keys.counter)
    ensures var s' := Next(Next(s, Ask(edge, min)), GetLease(edge));
            && edge in s'.edges && s'.edges[edge] == Holding(min, s.keys.counter)
            && s.keys.counter < min && !Accepts(s'.dir, s'.edges[edge].generation)
  {
    AcquireGrants(s.keys, edge, min);
    assert InStore(s.dir, s.keys.counter);
  }

  ghost predicate LeadsTo(s: Sys, es: seq<Event>, s': Sys) { Allowed(s, es) && Run(s, es) == s' }

  lemma {:induction false} LeadsToNext(s: Sys, es: seq<Event>, mid: Sys, e: Event)
    requires LeadsTo(s, es, mid) && Enabled(mid, e)
    ensures LeadsTo(s, es + [e], Next(mid, e))
    decreases |es|
  {
    if es == [] {
      assert [e][1..] == [];
    } else {
      ConcatTail(es, [e]);
      LeadsToNext(Next(s, es[0]), es[1..], mid, e);
    }
  }

  /** An Edge stores its first certificate. */
  function FirstStore(edge: string, pem: Pem): seq<Event> {
    [] + [Ask(edge, 1)] + [GetLease(edge)] + [CheckLease(edge)] + [StoreCert(edge, pem, {})]
  }

  lemma FirstStoreIs(edge: string, pem: Pem, counter: nat)
    ensures var g := counter + 1;
            LeadsTo(Sys(Keys(None, counter), Dir(map[], None), map[]), FirstStore(edge, pem),
                    Sys(Keys(Some(Format(edge, g)), g), Dir(map[g := Complete(pem)], Some(g)), map[]))
  {
    var g := counter + 1;
    var s0 := Sys(Keys(None, counter), Dir(map[], None), map[]);
    var s1 := Next(s0, Ask(edge, 1));
    var s2 := Next(s1, GetLease(edge));
    assert s2 == Sys(Keys(Some(Format(edge, g)), g), s0.dir, map[edge := Holding(1, g)]);
    var s3 := Next(s2, CheckLease(edge));
    assert s3 == s2.(edges := map[edge := Checked(1, g)]);
    var s4 := Next(s3, StoreCert(edge, pem, {}));
    assert s4.edges == map[] && s4.dir.gens == map[g := Complete(pem)];
    LeadsToNext(s0, [], s0, Ask(edge, 1));
    LeadsToNext(s0, [] + [Ask(edge, 1)], s1, GetLease(edge));
    LeadsToNext(s0, [] + [Ask(edge, 1)] + [GetLease(edge)], s2, CheckLease(edge));
    LeadsToNext(s0, [] + [Ask(edge, 1)] + [GetLease(edge)] + [CheckLease(edge)], s3, StoreCert(edge, pem, {}));
  }

  /** Such a run from an empty store: the Edge stores its first certificate, its release is lost, and it
      asks again. */
  lemma LostReleaseHappens(edge: string, pem: Pem, counter: nat)
    ensures var s := Sys(Keys(None, counter), Dir(map[], None), map[]);
            var es := FirstStore(edge, pem) + [Ask(edge, counter + 2)] + [GetLease(edge)];
            && Allowed(s, es)
            && var s' := Run(s, es);
               && s'.edges == map[edge := Holding(counter + 2, counter + 1)]
               && s'.dir.current == Some(counter + 1) && !Accepts(s'.dir, counter + 1)
  {
    var g, s0, es := counter + 1, Sys(Keys(None, counter), Dir(map[], None), map[]), FirstStore(edge, pem);
    FirstStoreIs(edge, pem, counter);
    var s4 := Run(s0, es);
    assert InStore(s4.dir, g);
    var s5 := Next(s4, Ask(edge, g + 1));
    ParseFormat(edge, g);
    LeadsToNext(s0, es, s4, Ask(edge, g + 1));
    LeadsToNext(s0, es + [Ask(edge, g + 1)], s5, GetLease(edge));
  }

  lemma InitIsInv(counter: nat, dir: Dir)
    ensures Inv(Sys(Keys(None, counter), dir, map[]))
  {
  }
}
