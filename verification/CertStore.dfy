/** The generation store for managed certificates: directories `gen-<N>` and the `current` file
    of one name, shared by several Edges (certificate_store.rs). */
module CertStore {
  import opened Wrappers

  datatype Pem = Pem(chain: string, key: string)

  /** A directory is complete, or was only partly removed when its removal was interrupted. */
  datatype GenDir = Complete(pem: Pem) | Partial

  datatype Dir = Dir(gens: map<nat, GenDir>, current: Option<nat>)

  const KEPT_GENERATIONS: nat := 3

  predicate Above(g: nat, current: Option<nat>) { current.None? || g > current.value }

  /** The compare part of the compare-and-set: newer than the active generation, and not there yet. */
  predicate Accepts(d: Dir, g: nat) { Above(g, d.current) && g !in d.gens }

  // ----- Stores that interleave and crash -----

  datatype Phase =
    | Waiting
    | Locked
    | Admitted
    | Renamed
    | Pruning(victims: seq<nat>)
    | Ended

  datatype Writer = Writer(generation: nat, pem: Pem, phase: Phase)

  /** `ever` remembers what was stored under each generation number. */
  datatype Store = Store(dir: Dir, holder: Option<nat>, writers: map<nat, Writer>, ever: map<nat, Pem>)

  datatype Event =
    | Begin(id: nat, generation: nat, pem: Pem)
    | TakeLock(id: nat)
    | Compare(id: nat)
    | Rename(id: nat)
    | Point(id: nat, victims: seq<nat>)
    | RemoveOne(id: nat, partly: bool)
    | Finish(id: nat)
    | Crash(id: nat)

  predicate Holds(s: Store, id: nat) { id in s.writers && s.holder == Some(id) }

  ghost predicate Enabled(s: Store, e: Event) {
    match e
    case Begin(id, _, _) => id !in s.writers
    case TakeLock(id) => id in s.writers && s.writers[id].phase.Waiting? && s.holder.None?
    case Compare(id) => Holds(s, id) && s.writers[id].phase.Locked?
    case Rename(id) => Holds(s, id) && s.writers[id].phase.Admitted?
    case Point(id, victims) =>
      Holds(s, id) && s.writers[id].phase.Renamed? && forall v :: v in victims ==> v < s.writers[id].generation
    case RemoveOne(id, _) => Holds(s, id) && s.writers[id].phase.Pruning? && s.writers[id].phase.victims != []
    case Finish(id) => Holds(s, id) && s.writers[id].phase.Pruning? && s.writers[id].phase.victims == []
    case Crash(id) => id in s.writers
  }

  function Moved(s: Store, id: nat, phase: Phase): Store
    requires id in s.writers
  {
    s.(writers := s.writers[id := s.writers[id].(phase := phase)])
  }

  function Freed(s: Store, id: nat): Store
    requires id in s.writers
  {
    Moved(s, id, Ended).(holder := if s.holder == Some(id) then None else s.holder)
  }

  function Next(s: Store, e: Event): Store
    requires e.Begin? || e.id in s.writers
  {
    match e
    case Begin(id, g, pem) => s.(writers := s.writers[id := Writer(g, pem, Waiting)])
    case TakeLock(id) => Moved(s, id, Locked).(holder := Some(id))
    case Compare(id) => if Accepts(s.dir, s.writers[id].generation) then Moved(s, id, Admitted) else Freed(s, id)
    case Rename(id) =>
      var w := s.writers[id];
      Moved(s, id, Renamed).(dir := s.dir.(gens := s.dir.gens[w.generation := Complete(w.pem)]),
                             ever := s.ever[w.generation := w.pem])
    case Point(id, victims) =>
      Moved(s, id, Pruning(victims)).(dir := s.dir.(current := Some(s.writers[id].generation)))
    case RemoveOne(id, partly) =>
      if s.writers[id].phase.Pruning? && s.writers[id].phase.victims != [] then
        var v := s.writers[id].phase.victims[0];
        if v !in s.dir.gens then Moved(s, id, Pruning(s.writers[id].phase.victims[1..]))
        else if partly then s.(dir := s.dir.(gens := s.dir.gens[v := Partial]))
        else Moved(s, id, Pruning(s.writers[id].phase.victims[1..])).(dir := s.dir.(gens := s.dir.gens - {v}))
      else s
    case Finish(id) => Freed(s, id)
    case Crash(id) => Freed(s, id)
  }

  ghost predicate WriterInv(s: Store, id: nat)
    requires id in s.writers
  {
    var w := s.writers[id];
    match w.phase
    case Waiting => s.holder != Some(id)
    case Locked => s.holder == Some(id)
    case Admitted => s.holder == Some(id) && Accepts(s.dir, w.generation)
    case Renamed =>
      && s.holder == Some(id) && Above(w.generation, s.dir.current)
      && Lookup(s.dir.gens, w.generation) == Some(Complete(w.pem))
    case Pruning(victims) =>
      s.holder == Some(id) && s.dir.current == Some(w.generation) && forall v :: v in victims ==> v < w.generation
    case Ended => s.holder != Some(id)
  }

  /** Directories hold what was stored under their number; a missing or half-removed one is older
      than the active generation, so its number can never be used again. */
  ghost predicate DirInv(s: Store) {
    && (s.dir.current.Some? ==> s.dir.current.value in s.dir.gens)
    && (forall g :: g in s.dir.gens ==> g in s.ever && (s.dir.gens[g].Complete? ==> s.dir.gens[g].pem == s.ever[g]))
    && (forall g :: g in s.ever ==>
          || Lookup(s.dir.gens, g) == Some(Complete(s.ever[g]))
          || (s.dir.current.Some? && g < s.dir.current.value))
  }

  ghost predicate Inv(s: Store) {
    && DirInv(s)
    && (forall id :: id in s.writers ==> WriterInv(s, id))
    && (s.holder.Some? ==> s.holder.value in s.writers)
  }

  lemma WritersKept(s: Store, e: Event)
    requires Inv(s) && Enabled(s, e)
    ensures forall id :: id in Next(s, e).writers ==> WriterInv(Next(s, e), id)
  {
    var s' := Next(s, e);
    assert e.id in s.writers ==> WriterInv(s, e.id);
    if e.RemoveOne? {
      var victims := s.writers[e.id].phase.victims;
      assert victims[0] in victims && forall v :: v in victims[1..] ==> v in victims;
    }
    forall id | id in s'.writers ensures WriterInv(s', id) {
      if id != e.id { assert WriterInv(s, id); }
    }
  }

  lemma StepKeepsInv(s: Store, e: Event)
    requires Inv(s) && Enabled(s, e)
    ensures Inv(Next(s, e))
  {
    WritersKept(s, e);
    assert e.id in s.writers ==> WriterInv(s, e.id);
    if e.RemoveOne? {
      assert s.writers[e.id].phase.victims[0] in s.writers[e.id].phase.victims;
    }
  }

  /** What one step may change: `current` never goes back, and what was stored under a number
      stays what it was. */
  ghost predicate Grows(s: Store, s': Store) {
    && (s.dir.current.Some? ==> s'.dir.current.Some? && s'.dir.current.value >= s.dir.current.value)
    && (forall g :: g in s.ever ==> g in s'.ever && s'.ever[g] == s.ever[g])
  }

  lemma StepGrows(s: Store, e: Event)
    requires Inv(s) && Enabled(s, e)
    ensures Grows(s, Next(s, e))
  {
    assert e.id in s.writers ==> WriterInv(s, e.id);
  }

  ghost predicate Allowed(s: Store, es: seq<Event>)
    decreases |es|
  {
    es == [] || (Enabled(s, es[0]) && Allowed(Next(s, es[0]), es[1..]))
  }

  function Run(s: Store, es: seq<Event>): Store
    requires Allowed(s, es)
    decreases |es|
  {
    if es == [] then s else Run(Next(s, es[0]), es[1..])
  }

  /** In every interleaving of stores with crashes anywhere, the active generation never goes back,
      is always a complete directory, and holds exactly what was stored under its number, for good. */
  lemma {:induction false} ActiveGenerationIsStable(s: Store, es: seq<Event>)
    requires Inv(s) && Allowed(s, es)
    ensures var s' := Run(s, es);
            && Inv(s') && Grows(s, s')
            && (s'.dir.current.Some? ==>
                  var c := s'.dir.current.value;
                  c in s'.ever && Lookup(s'.dir.gens, c) == Some(Complete(s'.ever[c])))
    decreases |es|
  {
    if es != [] {
      StepKeepsInv(s, es[0]);
      StepGrows(s, es[0]);
      ActiveGenerationIsStable(Next(s, es[0]), es[1..]);
    }
  }

  // ----- A store that nothing interrupts -----

  lemma PrependStep(s: Store, e: Event, es: seq<Event>)
    requires Enabled(s, e) && Allowed(Next(s, e), es)
    ensures Allowed(s, [e] + es) && Run(s, [e] + es) == Run(Next(s, e), es)
  {
    assert ([e] + es)[1..] == es;
  }

  /** Remove the given directories one by one and release the lock. */
  function Prune(id: nat, n: nat): seq<Event> {
    if n == 0 then [Finish(id)] else [RemoveOne(id, false)] + Prune(id, n - 1)
  }

  /** `id` is through: the lock is free and the directory is as given. */
  ghost predicate Leaves(s: Store, id: nat, es: seq<Event>, dir: Dir) {
    && Allowed(s, es)
    && var s' := Run(s, es);
       s'.dir == dir && s'.holder.None? && id in s'.writers && s'.writers[id].phase.Ended?
  }

  lemma {:induction false} PruneRemoves(s: Store, id: nat, victims: seq<nat>)
    requires Holds(s, id) && s.writers[id].phase == Pruning(victims)
    ensures Leaves(s, id, Prune(id, |victims|), s.dir.(gens := s.dir.gens - Elems(victims)))
    decreases |victims|
  {
    if victims == [] {
      assert Prune(id, 0)[1..] == [];
      assert s.dir.gens - Elems(victims) == s.dir.gens;
    } else {
      var s' := Next(s, RemoveOne(id, false));
      PruneRemoves(s', id, victims[1..]);
      PrependStep(s, RemoveOne(id, false), Prune(id, |victims| - 1));
      assert Elems(victims) == {victims[0]} + Elems(victims[1..]);
      assert s.dir.gens - Elems(victims) == s'.dir.gens - Elems(victims[1..]);
    }
  }

  /** The steps from the lock to the release. */
  function StoreSteps(id: nat, g: nat, pem: Pem, victims: seq<nat>): seq<Event> {
    [Begin(id, g, pem)] + ([TakeLock(id)] + ([Compare(id)] +
    ([Rename(id)] + ([Point(id, victims)] + Prune(id, |victims|)))))
  }

  /** From every state in which the lock is free, a store that nothing interrupts makes an accepted generation
      the active one, with exactly the given victims gone, and releases the lock. */
  lemma UndisturbedStore(s: Store, id: nat, g: nat, pem: Pem, victims: seq<nat>)
    requires s.holder.None? && id !in s.writers && Accepts(s.dir, g) && forall v :: v in victims ==> v < g
    ensures Leaves(s, id, StoreSteps(id, g, pem, victims),
                   Dir(s.dir.gens[g := Complete(pem)] - Elems(victims), Some(g)))
  {
    var s1 := Next(s, Begin(id, g, pem));
    var s2 := Next(s1, TakeLock(id));
    var s3 := Next(s2, Compare(id));
    var s4 := Next(s3, Rename(id));
    var s5 := Next(s4, Point(id, victims));
    PruneRemoves(s5, id, victims);
    var pruning := Prune(id, |victims|);
    PrependStep(s4, Point(id, victims), pruning);
    PrependStep(s3, Rename(id), [Point(id, victims)] + pruning);
    PrependStep(s2, Compare(id), [Rename(id)] + ([Point(id, victims)] + pruning));
    PrependStep(s1, TakeLock(id), [Compare(id)] + ([Rename(id)] + ([Point(id, victims)] + pruning)));
    PrependStep(s, Begin(id, g, pem),
                [TakeLock(id)] + ([Compare(id)] + ([Rename(id)] + ([Point(id, victims)] + pruning))));
  }

  /** A generation that is not accepted changes nothing; one that is cut off before it becomes active leaves its
      directory behind and the active generation alone. Either way the lock is free again. */
  lemma StoreCutShort(s: Store, id: nat, g: nat, pem: Pem)
    requires s.holder.None? && id !in s.writers
    ensures !Accepts(s.dir, g) ==> Leaves(s, id, [Begin(id, g, pem)] + ([TakeLock(id)] + [Compare(id)]), s.dir)
    ensures Accepts(s.dir, g) ==>
              Leaves(s, id,
                     [Begin(id, g, pem)] + ([TakeLock(id)] + ([Compare(id)] + ([Rename(id)] + [Crash(id)]))),
                     s.dir.(gens := s.dir.gens[g := Complete(pem)]))
  {
    var s1 := Next(s, Begin(id, g, pem));
    var s2 := Next(s1, TakeLock(id));
    var s3 := Next(s2, Compare(id));
    if Accepts(s.dir, g) {
      var s4 := Next(s3, Rename(id));
      assert [Crash(id)][1..] == [];
      PrependStep(s3, Rename(id), [Crash(id)]);
      PrependStep(s2, Compare(id), [Rename(id)] + [Crash(id)]);
      PrependStep(s1, TakeLock(id), [Compare(id)] + ([Rename(id)] + [Crash(id)]));
      PrependStep(s, Begin(id, g, pem), [TakeLock(id)] + ([Compare(id)] + ([Rename(id)] + [Crash(id)])));
    } else {
      assert [Compare(id)][1..] == [];
      PrependStep(s1, TakeLock(id), [Compare(id)]);
      PrependStep(s, Begin(id, g, pem), [TakeLock(id)] + [Compare(id)]);
    }
  }

  /** A removal that is cut off leaves a partial directory, of one of the victims and nothing else. */
  lemma RemovalCutShort(s: Store, id: nat)
    requires Holds(s, id) && s.writers[id].phase.Pruning? && s.writers[id].phase.victims != []
    requires s.writers[id].phase.victims[0] in s.dir.gens
    ensures var v := s.writers[id].phase.victims[0];
            var s' := Next(Next(s, RemoveOne(id, true)), Crash(id));
            && s'.holder.None? && s'.dir == Dir(s.dir.gens[v := Partial], s.dir.current)
  {
  }

  // ----- The store as one Edge runs it -----

  predicate Descending(gs: seq<nat>) {
    forall i, j :: 0 <= i < j < |gs| ==> gs[i] > gs[j]
  }

  /** The newest usable generation not above `current`. */
  ghost predicate IsBest(d: Dir, usable: Pem -> bool, g: nat, pem: Pem) {
    && d.current.Some? && g <= d.current.value
    && Lookup(d.gens, g) == Some(Complete(pem)) && usable(pem)
    && forall x :: x in d.gens && g < x <= d.current.value && d.gens[x].Complete? ==> !usable(d.gens[x].pem)
  }

  function Elems(gs: seq<nat>): (s: set<nat>)
    ensures forall g :: g in s <==> g in gs
  {
    set g | g in gs
  }

  function Older(gens: map<nat, GenDir>, active: nat): set<nat> { set g | g in gens && g < active }

  /** Nothing from the active generation up is removed, what is removed is older than everything kept,
      and of more than two older generations exactly two remain. */
  ghost predicate Pruned(before: map<nat, GenDir>, after: map<nat, GenDir>, active: nat) {
    && (forall g :: g in after ==> g in before && after[g] == before[g])
    && (forall g :: g in before && g >= active ==> g in after)
    && (forall gone, kept :: gone in before && gone !in after && kept in after ==> gone < kept)
    && (if |Older(before, active)| < KEPT_GENERATIONS then after == before
        else |Older(after, active)| == KEPT_GENERATIONS - 1)
  }

  lemma DropOneMore(all: map<nat, GenDir>, gs: seq<nat>, i: nat)
    requires i < |gs|
    ensures all - Elems(gs[..i + 1]) == all - Elems(gs[..i]) - {gs[i]}
  {
    assert gs[..i + 1] == gs[..i] + [gs[i]];
    assert Elems(gs[..i + 1]) == Elems(gs[..i]) + {gs[i]};
  }

  lemma {:induction false} ElemsCount(gs: seq<nat>)
    requires Descending(gs)
    ensures |Elems(gs)| == |gs|
  {
    if gs != [] {
      var last := gs[|gs| - 1];
      ElemsCount(gs[..|gs| - 1]);
      assert gs == gs[..|gs| - 1] + [last];
      assert Elems(gs) == Elems(gs[..|gs| - 1]) + {last};
    }
  }

  lemma OlderCount(gens: map<nat, GenDir>, older: seq<nat>, active: nat)
    requires Descending(older) && forall g :: g in older <==> g in gens && g < active
    ensures |Older(gens, active)| == |older|
  {
    ElemsCount(older);
    assert Older(gens, active) == Elems(older);
  }

  lemma DroppingTailPrunes(before: map<nat, GenDir>, older: seq<nat>, active: nat)
    requires Descending(older) && |older| >= KEPT_GENERATIONS && forall g :: g in older <==> g in before && g < active
    ensures Pruned(before, before - Elems(older[KEPT_GENERATIONS - 1..]), active)
  {
    var tail := older[KEPT_GENERATIONS - 1..];
    var after := before - Elems(tail);
    forall g | g in older ensures g in tail <==> g != older[0] && g != older[1] {
      var k :| 0 <= k < |older| && older[k] == g;
      if k >= 2 { assert tail[k - 2] == g; }
    }
    assert older[0] in older && older[1] in older;
    assert Older(after, active) == {older[0], older[1]};
    OlderCount(before, older, active);
    forall gone, kept | gone in before && gone !in after && kept in after ensures gone < kept {
      var k :| 0 <= k < |tail| && tail[k] == gone;
      assert older[k + 2] == gone && gone in older;
      if kept < active { assert kept in older; }
    }
  }

  lemma Inserted(gs: seq<nat>, i: nat, g: nat)
    requires Descending(gs) && i <= |gs|
    requires (forall k :: 0 <= k < i ==> gs[k] > g) && (forall k :: i <= k < |gs| ==> gs[k] < g)
    ensures Descending(gs[..i] + [g] + gs[i..])
    ensures forall x :: x in gs[..i] + [g] + gs[i..] <==> x in gs || x == g
  {
    assert gs == gs[..i] + gs[i..];
  }

  class Files {
    var gens: map<nat, GenDir>
    var current: Option<nat>

    ghost function Contents(): Dir
      reads this
    {
      Dir(gens, current)
    }

    /** All generations on disk, newest first. */
    method Generations() returns (gs: seq<nat>)
      ensures Descending(gs) && forall g :: g in gs <==> g in gens
    {
      gs := [];
      var rest := gens.Keys;
      while rest != {}
        invariant rest <= gens.Keys && Descending(gs)
        invariant forall g :: g in gs <==> g in gens.Keys - rest
        decreases |rest|
      {
        var g :| g in rest;
        var i := 0;
        while i < |gs| && gs[i] > g
          invariant i <= |gs| && forall k :: 0 <= k < i ==> gs[k] > g
        {
          i := i + 1;
        }
        assert g !in gs;
        forall k | i <= k < |gs| ensures gs[k] < g {
          assert gs[k] in gs;
        }
        Inserted(gs, i, g);
        gs := gs[..i] + [g] + gs[i..];
        rest := rest - {g};
      }
    }

    /** A number above everything stored and above the active generation. */
    method NextGeneration() returns (g: nat)
      ensures g > 0 && Above(g, current) && forall x :: x in gens ==> x < g
      ensures g == 1 || g - 1 in gens || current == Some(g - 1)
    {
      var gs: seq<nat> := Generations();
      var newest := if |gs| > 0 then gs[0] else 0;
      assert forall x :: x in gens ==> x in gs;
      g := if current.Some? && current.value > newest then current.value + 1 else newest + 1;
    }

    method OlderThan(active: nat) returns (older: seq<nat>)
      ensures Descending(older) && forall g :: g in older <==> g in gens && g < active
    {
      var gs: seq<nat> := Generations();
      older := [];
      for i := 0 to |gs|
        invariant Descending(older)
        invariant forall g :: g in older <==> g in gs[..i] && g < active
      {
        if gs[i] < active {
          assert forall k :: 0 <= k < |older| ==> older[k] in gs[..i];
          older := older + [gs[i]];
        }
      }
      assert gs[..|gs|] == gs;
    }

    method RemoveAll(victims: seq<nat>)
      modifies this`gens
      ensures gens == old(gens) - Elems(victims)
    {
      ghost var all := gens;
      for i := 0 to |victims|
        invariant gens == all - Elems(victims[..i])
      {
        DropOneMore(all, victims, i);
        gens := gens - {victims[i]};
      }
      assert victims[..|victims|] == victims;
    }

    /** Keep the active generation, everything newer, and the two newest older ones. */
    method Prune(active: nat)
      modifies this`gens
      ensures Pruned(old(gens), gens, active)
    {
      var older: seq<nat> := OlderThan(active);
      if |older| >= KEPT_GENERATIONS {
        DroppingTailPrunes(gens, older, active);
        RemoveAll(older[KEPT_GENERATIONS - 1..]);
      } else {
        OlderCount(gens, older, active);
      }
    }

    /** Validate, compare, write the directory, switch `current`, prune; all under the lock. */
    method StoreGeneration(g: nat, pem: Pem, valid: bool) returns (stored: bool)
      modifies this
      ensures stored <==> valid && Accepts(old(Contents()), g)
      ensures !stored ==> Contents() == old(Contents())
      ensures stored ==>
                && current == Some(g) && Lookup(gens, g) == Some(Complete(pem))
                && Pruned(old(gens)[g := Complete(pem)], gens, g)
    {
      if !valid || (current.Some? && g <= current.value) || g in gens {
        return false;
      }
      gens := gens[g := Complete(pem)];
      current := Some(g);
      Prune(g);
      return true;
    }

    /** The active generation, or the newest older one that is still usable. */
    method LoadCurrent(usable: Pem -> bool) returns (entry: Option<(nat, Pem)>)
      ensures entry.Some? ==> IsBest(Contents(), usable, entry.value.0, entry.value.1)
      ensures entry.None? ==> forall g, pem :: !IsBest(Contents(), usable, g, pem)
    {
      if current.None? {
        return None;
      }
      var gs: seq<nat> := Generations();
      for i := 0 to |gs|
        invariant forall k :: 0 <= k < i && gs[k] <= current.value && gens[gs[k]].Complete? ==> !usable(gens[gs[k]].pem)
      {
        assert gs[i] in gens;
        if gs[i] <= current.value && gens[gs[i]].Complete? && usable(gens[gs[i]].pem) {
          forall x | x in gens && gs[i] < x <= current.value && gens[x].Complete? ensures !usable(gens[x].pem) {
            assert x in gs;
          }
          var found: nat := gs[i];
          return Some((found, gens[found].pem));
        }
      }
      forall g, pem ensures !IsBest(Contents(), usable, g, pem) {
        assert g in gens ==> g in gs;
      }
      return None;
    }
  }

  /** When nothing is lost, what `LoadCurrent` finds is what was last activated, as stored. */
  lemma LoadFindsActive(s: Store, usable: Pem -> bool, g: nat, pem: Pem)
    requires Inv(s) && IsBest(s.dir, usable, g, pem)
    ensures g in s.ever && s.ever[g] == pem
    ensures usable(s.ever[s.dir.current.value]) ==> g == s.dir.current.value
  {
  }

  lemma EmptyIsInv()
    ensures Inv(Store(Dir(map[], None), None, map[], map[]))
  {
  }
}
