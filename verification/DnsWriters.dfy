/** What the writer lease keeps apart: reconcilers of several Edges that renew the lease before each
    save and each exchange with the provider (dns/reconciler.rs over valkey.rs). */
module DnsWriters {
  import opened Wrappers
  import Leases

  /** `cleared` between a confirmed renewal and the work it allows. */
  datatype Writer = Writer(generation: nat, cleared: bool)

  /** What a writer did between one renewal and the next, and whether it still held the lease then. */
  datatype Work = Work(owner: string, generation: nat, held: bool)

  datatype Sys = Sys(keys: Leases.Keys, writers: map<string, Writer>, done: seq<Work>)

  datatype Event =
    | Start(owner: string, min: nat)
    | Renew(owner: string)
    | Do(owner: string)
    | Stop(owner: string)
    | LeaseExpires

  predicate Enabled(s: Sys, e: Event) {
    match e
    case Start(owner, _) => owner !in s.writers
    case Renew(owner) => owner in s.writers
    case Do(owner) => owner in s.writers && s.writers[owner].cleared
    case Stop(owner) => owner in s.writers
    case LeaseExpires => true
  }

  function Next(s: Sys, e: Event): Sys
    requires Enabled(s, e)
  {
    match e
    case Start(owner, min) =>
      var (keys, granted) := Leases.Acquire(s.keys, owner, min);
      if granted.Some? then s.(keys := keys, writers := s.writers[owner := Writer(granted.value, false)])
      else s.(keys := keys)
    case Renew(owner) =>
      var g := s.writers[owner].generation;
      var (keys, granted) := Leases.Acquire(s.keys, owner, g);
      var confirmed := granted == Some(g);
      s.(keys := keys, writers := if confirmed then s.writers[owner := Writer(g, true)] else s.writers - {owner})
    case Do(owner) =>
      var g := s.writers[owner].generation;
      s.(writers := s.writers[owner := Writer(g, false)],
         done := s.done + [Work(owner, g, Leases.Check(s.keys, owner, g))])
    case Stop(owner) => s.(writers := s.writers - {owner})
    case LeaseExpires => s.(keys := s.keys.(lease := None))
  }

  // ----- What every step keeps -----

  /** Work done while the lease was held comes in the order of the generations, one owner each. */
  ghost predicate InTurn(done: seq<Work>) {
    forall i, j :: 0 <= i < j < |done| && done[i].held && done[j].held ==>
      && done[i].generation <= done[j].generation
      && (done[i].generation == done[j].generation ==> done[i].owner == done[j].owner)
  }

  /** A holding is overrun at most once. */
  ghost predicate OverrunOnce(done: seq<Work>) {
    forall i, j :: 0 <= i < j < |done| && !done[i].held && !done[j].held ==>
      (done[i].owner, done[i].generation) != (done[j].owner, done[j].generation)
  }

  ghost predicate WorkInv(s: Sys, w: Work) {
    && w.generation <= s.keys.counter
    && (w.held && w.generation == s.keys.counter ==>
          s.keys.lease.None? || Leases.Check(s.keys, w.owner, w.generation))
    && (!w.held ==>
          && !Leases.Check(s.keys, w.owner, w.generation)
          && (w.owner in s.writers && s.writers[w.owner].generation == w.generation ==> !s.writers[w.owner].cleared))
  }

  ghost predicate Inv(s: Sys) {
    && Leases.Inv(s.keys)
    && (forall o :: o in s.writers ==> s.writers[o].generation <= s.keys.counter)
    && (forall w :: w in s.done ==> WorkInv(s, w))
    && InTurn(s.done) && OverrunOnce(s.done)
  }

  /** An acquire keeps what is known of earlier work. */
  lemma AcquireKeeps(k: Leases.Keys, owner: string, min: nat, w: Work)
    requires Leases.Inv(k) && w.generation <= k.counter
    requires w.held && w.generation == k.counter ==> k.lease.None? || Leases.Check(k, w.owner, w.generation)
    requires !w.held ==> !Leases.Check(k, w.owner, w.generation)
    ensures var k' := Leases.Acquire(k, owner, min).0;
            && Leases.Inv(k') && k'.counter >= k.counter
            && (w.held && w.generation == k'.counter ==> k'.lease.None? || Leases.Check(k', w.owner, w.generation))
            && (!w.held ==> !Leases.Check(k', w.owner, w.generation))
  {
    var e := Leases.AcquireLease(owner, min);
    Leases.StepKeepsInv(k, e);
    Leases.AcquireGrants(k, owner, min);
    if !w.held {
      assert [e][1..] == [];
      Leases.GoneStaysGone(k, [e], w.owner, w.generation);
      assert Leases.Run(k, [e]) == Leases.Next(k, e);
    }
  }

  lemma StartKeeps(s: Sys, owner: string, min: nat)
    requires Inv(s) && Enabled(s, Start(owner, min))
    ensures Inv(Next(s, Start(owner, min)))
  {
    var s' := Next(s, Start(owner, min));
    Leases.StepKeepsInv(s.keys, Leases.AcquireLease(owner, min));
    Leases.AcquireGrants(s.keys, owner, min);
    forall w | w in s'.done ensures WorkInv(s', w) {
      assert WorkInv(s, w);
      AcquireKeeps(s.keys, owner, min, w);
    }
  }

  /** A renewal is confirmed only while the lease is held, so never after an overrun. */
  lemma RenewKeeps(s: Sys, owner: string)
    requires Inv(s) && Enabled(s, Renew(owner))
    ensures Inv(Next(s, Renew(owner)))
  {
    var s', g := Next(s, Renew(owner)), s.writers[owner].generation;
    Leases.StepKeepsInv(s.keys, Leases.AcquireLease(owner, g));
    Leases.AcquireGrants(s.keys, owner, g);
    forall w | w in s'.done ensures WorkInv(s', w) {
      assert WorkInv(s, w);
      AcquireKeeps(s.keys, owner, g, w);
    }
  }

  lemma DoKeeps(s: Sys, owner: string)
    requires Inv(s) && Enabled(s, Do(owner))
    ensures Inv(Next(s, Do(owner)))
  {
    var s', g := Next(s, Do(owner)), s.writers[owner].generation;
    var new_ := Work(owner, g, Leases.Check(s.keys, owner, g));
    if new_.held { Leases.OneHolder(s.keys, owner, g, owner, g); }
    forall w | w in s'.done ensures WorkInv(s', w) {
      if w in s.done { assert WorkInv(s, w); }
    }
    forall w | w in s.done
      ensures w.held && new_.held ==> w.generation <= g && (w.generation == g ==> w.owner == owner)
      ensures !w.held && !new_.held ==> (w.owner, w.generation) != (owner, g)
    {
      assert WorkInv(s, w);
      if w.held && new_.held && w.generation == g { Leases.OneHolder(s.keys, w.owner, g, owner, g); }
    }
  }

  lemma StepKeepsInv(s: Sys, e: Event)
    requires Inv(s) && Enabled(s, e)
    ensures Inv(Next(s, e))
  {
    match e {
      case Start(owner, min) => StartKeeps(s, owner, min);
      case Renew(owner) => RenewKeeps(s, owner);
      case Do(owner) => DoKeeps(s, owner);
      case Stop(_) =>
        forall w | w in s.done ensures WorkInv(Next(s, e), w) { assert WorkInv(s, w); }
      case LeaseExpires =>
        forall w | w in s.done ensures WorkInv(Next(s, e), w) { assert WorkInv(s, w); }
    }
  }

  // ----- Whole runs -----

  ghost predicate Allowed(s: Sys, es: seq<Event>)
    decreases |es|
  {
    es == [] || (Enabled(s, es[0]) && Allowed(Next(s, es[0]), es[1..]))
  }

  function Run(s: Sys, es: seq<Event>): Sys
    requires Allowed(s, es)
    decreases |es|
  {
    if es == [] then s else Run(Next(s, es[0]), es[1..])
  }

  /** Over every run of any number of writers: what they do while they hold the lease comes in the order of
      their generations, and a writer that lost the lease finishes at most the work its last renewal
      allowed. */
  lemma {:induction false} WritersTakeTurns(s: Sys, es: seq<Event>)
    requires Inv(s) && Allowed(s, es)
    ensures Inv(Run(s, es)) && InTurn(Run(s, es).done) && OverrunOnce(Run(s, es).done)
    decreases |es|
  {
    if es != [] {
      StepKeepsInv(s, es[0]);
      WritersTakeTurns(Next(s, es[0]), es[1..]);
    }
  }

  lemma InitIsInv(counter: nat)
    ensures Inv(Sys(Leases.Keys(None, counter), map[], []))
  {
  }

  ghost predicate Reaches(s: Sys, es: seq<Event>, s': Sys) { Allowed(s, es) && Run(s, es) == s' }

  lemma {:induction false} ReachesNext(s: Sys, es: seq<Event>, mid: Sys, e: Event)
    requires Reaches(s, es, mid) && Enabled(mid, e)
    ensures Reaches(s, es + [e], Next(mid, e))
    decreases |es|
  {
    if es == [] {
      assert [e][1..] == [];
    } else {
      ConcatTail(es, [e]);
      ReachesNext(Next(s, es[0]), es[1..], mid, e);
    }
  }

  /** A writer is cleared, and the lease expires behind its renewal. */
  function ClearedAndExpired(a: string): seq<Event> { [] + [Start(a, 1)] + [Renew(a)] + [LeaseExpires] }

  lemma ClearedAndExpiredIs(a: string, counter: nat)
    ensures Reaches(Sys(Leases.Keys(None, counter), map[], []), ClearedAndExpired(a),
                    Sys(Leases.Keys(None, counter + 1), map[a := Writer(counter + 1, true)], []))
  {
    var g, s0 := counter + 1, Sys(Leases.Keys(None, counter), map[], []);
    Leases.ParseFormat(a, g);
    var s1 := Next(s0, Start(a, 1));
    assert s1 == Sys(Leases.Keys(Some(Leases.Format(a, g)), g), map[a := Writer(g, false)], []);
    var s2 := Next(s1, Renew(a));
    assert s2 == s1.(writers := map[a := Writer(g, true)]);
    ReachesNext(s0, [], s0, Start(a, 1));
    ReachesNext(s0, [] + [Start(a, 1)], s1, Renew(a));
    ReachesNext(s0, [] + [Start(a, 1)] + [Renew(a)], s2, LeaseExpires);
  }

  /** That one overrun is real: the lease expires behind a renewal, another writer takes over and works,
      and then the first one does what it was cleared for. */
  lemma OverrunHappens(a: string, b: string, counter: nat)
    requires a != b
    ensures var es := ClearedAndExpired(a) + [Start(b, 1)] + [Renew(b)] + [Do(b)] + [Do(a)];
            var s := Sys(Leases.Keys(None, counter), map[], []);
            Allowed(s, es) && Run(s, es).done == [Work(b, counter + 2, true), Work(a, counter + 1, false)]
  {
    var g, s0, es := counter + 1, Sys(Leases.Keys(None, counter), map[], []), ClearedAndExpired(a);
    ClearedAndExpiredIs(a, counter);
    Leases.ParseFormat(b, g + 1);
    var s3 := Run(s0, es);
    var s4 := Next(s3, Start(b, 1));
    assert s4 == Sys(Leases.Keys(Some(Leases.Format(b, g + 1)), g + 1), s3.writers[b := Writer(g + 1, false)], []);
    var s5 := Next(s4, Renew(b));
    assert s5 == s4.(writers := s4.writers[b := Writer(g + 1, true)]);
    var s6 := Next(s5, Do(b));
    ReachesNext(s0, es, s3, Start(b, 1));
    ReachesNext(s0, es + [Start(b, 1)], s4, Renew(b));
    ReachesNext(s0, es + [Start(b, 1)] + [Renew(b)], s5, Do(b));
    ReachesNext(s0, es + [Start(b, 1)] + [Renew(b)] + [Do(b)], s6, Do(a));
    if Leases.Check(s6.keys, a, g) { Leases.FormatInjective(a, g, b, g + 1); }
  }

  // ----- A writer that is not disturbed -----

  /** A renewal lets the writer go on exactly when it holds the lease under its generation. One that comes too late
      ends the writer; if the lease was free it is taken under a larger generation. */
  lemma RenewalExactly(s: Sys, owner: string)
    requires Inv(s) && owner in s.writers
    ensures var s', g := Next(s, Renew(owner)), s.writers[owner].generation;
            && (owner in s'.writers <==> s.keys.lease == Some(Leases.Format(owner, g)))
            && (owner in s'.writers ==> s'.writers[owner] == Writer(g, true) && s'.keys == s.keys)
            && (s.keys.lease.None? ==>
                  s'.keys.counter > g && s'.keys.lease == Some(Leases.Format(owner, s'.keys.counter)))
            && (s.keys.lease.Some? ==> s'.keys == s.keys)
  {
    var g := s.writers[owner].generation;
    RenewalAnswer(s.keys, owner, g);
  }

  lemma RenewalAnswer(k: Leases.Keys, owner: string, g: nat)
    requires Leases.Inv(k) && g <= k.counter
    ensures var (k', granted) := Leases.Acquire(k, owner, g);
            && (granted == Some(g) <==> Leases.Check(k, owner, g))
            && (k.lease.Some? ==> k' == k)
            && (k.lease.None? ==> k'.counter > k.counter && Leases.Check(k', owner, k'.counter))
  {
    Leases.AcquireGrants(k, owner, g);
    if Leases.Check(k, owner, g) {
      Leases.OneHolder(k, owner, g, owner, g);
    }
  }

  /** While nobody holds the lease, a writer that starts, renews and works does so under the lease. */
  lemma UndisturbedWriterWorks(s: Sys, owner: string, min: nat)
    requires Inv(s) && owner !in s.writers && s.keys.lease.None?
    ensures var s1 := Next(s, Start(owner, min));
            && Enabled(s1, Renew(owner))
            && var s2 := Next(s1, Renew(owner));
               && Enabled(s2, Do(owner))
               && var s3 := Next(s2, Do(owner));
                  && s3.done == s.done + [Work(owner, s3.keys.counter, true)]
                  && s3.keys.counter > s.keys.counter && s3.keys.counter >= min
                  && !Enabled(s3, Do(owner))
                  && Enabled(Next(s3, Stop(owner)), Start(owner, min))
  {
    StepKeepsInv(s, Start(owner, min));
    Leases.AcquireGrants(s.keys, owner, min);
    RenewalExactly(Next(s, Start(owner, min)), owner);
  }
}
