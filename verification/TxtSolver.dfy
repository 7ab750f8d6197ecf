/** DNS-01 challenge values at one record name, added and removed by any number of solvers that
    interleave API call by API call, with a journal that survives crashes (dns/txt.rs over
    dns/cloudflare.rs). */
module TxtSolver {
  import opened Wrappers
  import opened DnsPlan
  import opened Cloudflare

  /** Where a solver is between two API calls or journal writes. */
  datatype Phase =
    | Journaling
    | Reading
    | Checking(current: Option<RecordSet>)
    | Sending(calls: seq<Call>)
    | Unjournaling
    | Done

  datatype Solver = Solver(adding: bool, value: string, phase: Phase)

  /** `used` holds every value a solver ever published. */
  datatype Sys = Sys(zone: Zone, journal: set<string>, solvers: map<nat, Solver>, used: set<string>, ttl: nat)

  datatype Event =
    | StartAdd(id: nat, value: string)
    | StartRemove(id: nat, value: string)
    | Step(id: nat, order: seq<string>)
    | Retry(id: nat)
    | Fail(id: nat)
    | OperatorPost(value: string, ttl: nat)
    | OperatorPatch(record: nat, ttl: nat)
    | OperatorDelete(record: nat)

  /** The record set a solver asks for, given the one it read. */
  function Target(s: Sys, solver: Solver, current: Option<RecordSet>): Option<RecordSet> {
    if solver.adding then
      var base := current.GetOr(RecordSet(s.zone.name, Txt, s.ttl, {}, None));
      Some(base.(values := base.values + {solver.value}))
    else if current.None? || current.value.values - {solver.value} == {} then None
    else Some(current.value.(values := current.value.values - {solver.value}))
  }

  /** A challenge value is fresh for its order; a removal follows the end of the add it undoes. */
  ghost predicate Enabled(s: Sys, e: Event) {
    match e
    case StartAdd(id, v) => id !in s.solvers && v !in s.used && v !in ValueSet(s.zone.records)
    case StartRemove(id, v) =>
      id !in s.solvers && v in s.used
      && forall i :: i in s.solvers && s.solvers[i].adding && s.solvers[i].value == v ==> s.solvers[i].phase.Done?
    case Step(id, order) =>
      && id in s.solvers
      && (s.solvers[id].phase.Checking? ==>
        Enumerates(order, ValuesOf(Target(s, s.solvers[id], s.solvers[id].phase.current))))
    case Retry(id) => id in s.solvers && s.solvers[id].phase.Sending?
    case Fail(id) => id in s.solvers
    case OperatorPost(v, _) => v !in s.used
    case OperatorPatch(_, _) => true
    case OperatorDelete(_) => true
  }

  function After(s: Sys, id: nat, phase: Phase): Sys
    requires id in s.solvers
  {
    s.(solvers := s.solvers[id := s.solvers[id].(phase := phase)])
  }

  /** What a solver does next. */
  function SolverStep(s: Sys, id: nat, order: seq<string>): Sys
    requires id in s.solvers
  {
    var solver := s.solvers[id];
    match solver.phase
    case Journaling => After(s.(journal := s.journal + {solver.value}), id, Reading)
    case Reading =>
      var observed := ObservedIn(s.zone);
      if observed.Some? && observed.value.unsupported then After(s, id, Done)
      else if solver.adding == (solver.value in ValuesOf(SetOf(observed))) then
        After(s, id, if solver.adding then Done else Unjournaling)
      else After(s, id, Checking(SetOf(observed)))
    case Checking(current) =>
      if Refuses(s.zone, current) then After(s, id, Reading)
      else After(s, id, Sending(Calls(s.zone, Target(s, solver, current), order)))
    case Sending(calls) =>
      if calls == [] then After(s, id, if solver.adding then Done else Unjournaling)
      else if calls[0].Delete? && Without(s.zone.records, calls[0].id) == s.zone.records then After(s, id, Done)
      else After(s.(zone := Effect(s.zone, calls[0])), id, Sending(calls[1..]))
    case Unjournaling => After(s.(journal := s.journal - {solver.value}), id, Done)
    case Done => s
  }

  function Next(s: Sys, e: Event): Sys {
    match e
    case StartAdd(id, v) => s.(solvers := s.solvers[id := Solver(true, v, Journaling)], used := s.used + {v})
    case StartRemove(id, v) => s.(solvers := s.solvers[id := Solver(false, v, Reading)])
    case Step(id, order) => if id in s.solvers then SolverStep(s, id, order) else s
    case Retry(id) => if id in s.solvers then After(s, id, Reading) else s
    case Fail(id) => if id in s.solvers then After(s, id, Done) else s
    case OperatorPost(v, ttl) => s.(zone := Effect(s.zone, Post(v, ttl, false)))
    case OperatorPatch(record, ttl) => s.(zone := Effect(s.zone, Patch(record, ttl, false)))
    case OperatorDelete(record) => s.(zone := Effect(s.zone, Delete(record)))
  }

  // ----- The calls a solver plans -----

  lemma {:induction false} OnlyMissing(order: seq<string>, have: set<string>, v: string)
    requires Distinct(order) && v in order && v !in have && forall x :: x in order ==> x == v || x in have
    ensures Missing(order, have) == [v]
  {
    if order[0] == v {
      NoneMissing(order[1..], have);
      assert [v] + [] == [v];
    } else {
      assert order == [order[0]] + order[1..];
      OnlyMissing(order[1..], have, v);
      assert [] + [v] == [v];
    }
  }

  lemma {:induction false} NoneMissing(order: seq<string>, have: set<string>)
    requires forall x :: x in order ==> x in have
    ensures Missing(order, have) == []
  {
    if order != [] {
      NoneMissing(order[1..], have);
    }
  }

  lemma {:induction false} NoneObsolete(rs: seq<CfRecord>, keep: set<string>)
    requires Listed(rs) && ValueSet(rs) <= keep
    ensures Obsolete(rs, keep) == []
  {
    if rs != [] {
      NoneObsolete(rs[1..], keep);
    }
  }

  lemma {:induction false} OnlyObsolete(rs: seq<CfRecord>, keep: set<string>, v: string) returns (r: CfRecord)
    requires Listed(rs) && v in ValueSet(rs) && v !in keep && ValueSet(rs) - {v} <= keep
    ensures Obsolete(rs, keep) == [r] && r in rs && r.value == Some(v)
  {
    if rs[0].value == Some(v) {
      NoneObsolete(rs[1..], keep);
      r := rs[0];
    } else {
      r := OnlyObsolete(rs[1..], keep, v);
      assert [] + [r] == [r];
      assert rs == [rs[0]] + rs[1..];
    }
  }

  /** Adding a value to the set that was just read plans exactly one call: the POST of that value. */
  lemma AddPlansOnePost(s: Sys, solver: Solver, current: Option<RecordSet>, order: seq<string>)
    requires ValidIds(s.zone) && s.zone.rtype.Txt? && solver.adding
    requires !Refuses(s.zone, current) && solver.value !in ValuesOf(current)
    requires Enumerates(order, ValuesOf(Target(s, solver, current)))
    ensures var target := Target(s, solver, current).value;
            Calls(s.zone, Some(target), order) == [Post(solver.value, target.ttl, Flag(s.zone, target))]
  {
    var z, target := s.zone, Target(s, solver, current).value;
    var have := ValueSet(z.records);
    if z.records != [] { SupportedIsUniform(z); }
    assert have == ValuesOf(current);
    EnumerationIsDistinct(order, target.values);
    WritesArePosts(z, z.records, target.ttl, Flag(z, target), order);
    OnlyMissing(order, have, solver.value);
    assert [solver.value][1..] == [];
    NoneObsolete(z.records, target.values);
  }

  /** Removing a value from the set that was just read plans exactly one call: the DELETE of the
      record that holds it. */
  lemma RemovePlansOneDelete(s: Sys, solver: Solver, current: Option<RecordSet>, order: seq<string>)
      returns (r: CfRecord)
    requires ValidIds(s.zone) && s.zone.rtype.Txt? && !solver.adding
    requires !Refuses(s.zone, current) && solver.value in ValuesOf(current)
    requires Enumerates(order, ValuesOf(Target(s, solver, current)))
    ensures Calls(s.zone, Target(s, solver, current), order) == [Delete(r.id)]
    ensures r in s.zone.records && r.value == Some(solver.value)
  {
    var z, target := s.zone, Target(s, solver, current);
    var have := ValueSet(z.records);
    SupportedIsUniform(z);
    assert have == ValuesOf(current);
    r := OnlyObsolete(z.records, ValuesOf(target), solver.value);
    assert Deletes([r]) == [Delete(r.id)] by { assert [r][1..] == []; }
    if target.Some? {
      WritesArePosts(z, z.records, target.value.ttl, Flag(z, target.value), order);
      NoneMissing(order, have);
    }
  }

  /** A set that cannot be managed is left alone: a solver that reads it ends, and one that had read it before
      reads it again, without a call and with the journal as it was. */
  lemma UnsupportedSetEndsSolver(s: Sys, id: nat, order: seq<string>)
    requires id in s.solvers && s.zone.records != [] && Unsupported(s.zone.records)
    ensures s.solvers[id].phase.Reading? ==> Next(s, Step(id, order)) == After(s, id, Done)
    ensures s.solvers[id].phase.Checking? ==>
              Next(Next(s, Step(id, order)), Step(id, order)) == After(s, id, Done)
  {
    if s.solvers[id].phase.Checking? {
      var s' := Next(s, Step(id, order));
      assert s' == After(s, id, Reading);
      assert s'.solvers[id := s.solvers[id].(phase := Done)] == s.solvers[id := s.solvers[id].(phase := Done)];
    }
  }

  // ----- What every step keeps -----

  predicate OwnPost(c: Call, v: string) { c.Post? && c.value == v }

  /** The record a pending DELETE names, if it still exists, holds the solver's own value. */
  ghost predicate OwnDelete(z: Zone, c: Call, v: string) {
    c.Delete? && c.id < z.nextId && forall r :: r in z.records && r.id == c.id ==> r.value == Some(v)
  }

  ghost predicate SolverInv(s: Sys, solver: Solver) {
    && solver.value in s.used
    && (solver.adding && !solver.phase.Journaling? && !solver.phase.Done? ==> solver.value in s.journal)
    && (match solver.phase
        case Journaling => solver.adding && solver.value !in ValueSet(s.zone.records)
        case Checking(current) => solver.adding <==> solver.value !in ValuesOf(current)
        case Sending(calls) =>
          if calls == [] then solver.adding || solver.value !in ValueSet(s.zone.records)
          else |calls| == 1 &&
               if solver.adding then OwnPost(calls[0], solver.value) else OwnDelete(s.zone, calls[0], solver.value)
        case Unjournaling => !solver.adding && solver.value !in ValueSet(s.zone.records)
        case _ => true)
  }

  /** A live add is the only solver of its value. */
  ghost predicate Exclusive(s: Sys) {
    forall i, j :: i in s.solvers && j in s.solvers && i != j && s.solvers[i].adding && !s.solvers[i].phase.Done?
      ==> s.solvers[i].value != s.solvers[j].value
  }

  ghost predicate Journaled(s: Sys) {
    forall v :: v in s.used && v in ValueSet(s.zone.records) ==> v in s.journal
  }

  /** No solver value is published twice, and one about to be posted is not there yet. */
  ghost predicate PublishedOnce(s: Sys) {
    && (forall r, q :: r in s.zone.records && q in s.zone.records && r.value.Some? && r.value.value in s.used ==>
          r.value == q.value ==> r.id == q.id)
    && (forall i ::
          i in s.solvers && s.solvers[i].phase.Sending? && s.solvers[i].adding && s.solvers[i].phase.calls != [] ==>
          s.solvers[i].value !in ValueSet(s.zone.records))
  }

  ghost predicate Inv(s: Sys) {
    && s.zone.rtype.Txt? && ValidIds(s.zone)
    && (forall i :: i in s.solvers ==> SolverInv(s, s.solvers[i]))
    && Exclusive(s) && Journaled(s) && PublishedOnce(s)
  }

  ghost predicate Init(s: Sys) {
    s.zone.rtype.Txt? && ValidIds(s.zone) && s.solvers == map[] && s.used == {} && s.journal == {}
  }

  // ----- Effect of a call on the records -----

  lemma {:induction false} AppendIds(rs: seq<CfRecord>, r: CfRecord)
    requires IdsDistinct(rs) && forall x :: x in rs ==> x.id < r.id
    ensures IdsDistinct(rs + [r])
    ensures ValueSet(rs + [r]) == ValueSet(rs) + (if r.value.Some? then {r.value.value} else {})
  {
    if rs != [] {
      AppendIds(rs[1..], r);
      ConcatTail(rs, [r]);
    } else {
      assert rs + [r] == [r];
    }
  }

  lemma {:induction false} WithoutIds(rs: seq<CfRecord>, id: nat)
    requires IdsDistinct(rs)
    ensures IdsDistinct(Without(rs, id))
    ensures ValueSet(Without(rs, id)) <= ValueSet(rs)
  {
    if rs != [] {
      WithoutIds(rs[1..], id);
    }
  }

  lemma {:induction false} PatchedIds(rs: seq<CfRecord>, id: nat, ttl: nat, proxied: Option<bool>)
    requires IdsDistinct(rs)
    ensures var out := Patched(rs, id, ttl, proxied);
            && |out| == |rs| && IdsDistinct(out) && ValueSet(out) == ValueSet(rs)
            && forall i :: 0 <= i < |rs| ==> out[i].id == rs[i].id && out[i].value == rs[i].value
  {
    if rs != [] {
      PatchedIds(rs[1..], id, ttl, proxied);
      assert Patched(rs, id, ttl, proxied)[1..] == Patched(rs[1..], id, ttl, proxied);
    }
  }

  /** Where a record found after a call comes from. */
  ghost predicate ComesFrom(z: Zone, c: Call, r: CfRecord) {
    || (exists q :: q in z.records && q.id == r.id && q.value == r.value)
    || (c.Post? && r.id == z.nextId && r.value == Some(c.value))
  }

  lemma EffectOnRecords(z: Zone, c: Call)
    requires ValidIds(z)
    ensures var z' := Effect(z, c);
            && ValidIds(z') && z'.rtype == z.rtype && z'.name == z.name && z'.nextId >= z.nextId
            && (forall r :: r in z'.records ==> ComesFrom(z, c, r))
            && ValueSet(z'.records) <= ValueSet(z.records) + (if c.Post? then {c.value} else {})
            && (c.Post? ==> z.records <= z'.records)
            && (c.Delete? ==> forall r :: r in z'.records <==> r in z.records && r.id != c.id)
  {
    match c {
      case Post(v, ttl, proxied) => AppendIds(z.records, CfRecord(z.nextId, Some(v), ttl, Reported(z, proxied)));
      case Patch(id, ttl, proxied) => PatchedIds(z.records, id, ttl, Reported(z, proxied));
      case Delete(id) => WithoutIds(z.records, id);
    }
  }

  /** Phases that tolerate the solver's own value being posted. */
  predicate CanBePublished(solver: Solver) {
    !solver.phase.Journaling? && !solver.phase.Unjournaling? && (solver.phase == Sending([]) ==> solver.adding)
  }

  lemma SolverInvKept(s: Sys, s': Sys, c: Call, solver: Solver)
    requires ValidIds(s.zone) && SolverInv(s, solver)
    requires s' == s.(zone := Effect(s.zone, c))
    requires c.Post? && !CanBePublished(solver) ==> c.value != solver.value
    ensures SolverInv(s', solver)
  {
    EffectOnRecords(s.zone, c);
    if solver.phase.Sending? && solver.phase.calls != [] && !solver.adding {
      var d := solver.phase.calls[0];
      forall r | r in s'.zone.records && r.id == d.id ensures r.value == Some(solver.value) {
        assert ComesFrom(s.zone, c, r);
      }
    }
  }

  /** A POST of a value that is not published yet, by the solver that owns it or by an operator. */
  lemma PostKeeps(s: Sys, s': Sys, c: Call)
    requires Inv(s) && c.Post? && s' == s.(zone := Effect(s.zone, c))
    requires c.value in s.used ==> c.value in s.journal && c.value !in ValueSet(s.zone.records)
    requires forall i :: i in s.solvers && s.solvers[i].value == c.value ==>
               CanBePublished(s.solvers[i]) && (s.solvers[i].phase.Sending? ==> s.solvers[i].phase.calls == [])
    ensures Inv(s')
  {
    EffectOnRecords(s.zone, c);
    forall i | i in s.solvers ensures SolverInv(s', s'.solvers[i]) {
      SolverInvKept(s, s', c, s.solvers[i]);
    }
    var added := s'.zone.records[|s.zone.records|];
    forall r, q | r in s'.zone.records && q in s'.zone.records && r.value.Some? && r.value.value in s.used &&
      r.value == q.value
      ensures r.id == q.id
    {
      assert s'.zone.records == s.zone.records + [added];
      InValueSet(s.zone.records, r.value.value);
      InValueSet(s.zone.records, q.value.value);
    }
  }

  lemma OtherCallKeeps(s: Sys, s': Sys, c: Call)
    requires Inv(s) && !c.Post? && s' == s.(zone := Effect(s.zone, c))
    ensures Inv(s')
  {
    EffectOnRecords(s.zone, c);
    forall i | i in s.solvers ensures SolverInv(s', s'.solvers[i]) {
      SolverInvKept(s, s', c, s.solvers[i]);
    }
    forall r, q | r in s'.zone.records && q in s'.zone.records && r.value.Some? && r.value.value in s.used &&
      r.value == q.value
      ensures r.id == q.id
    {
      assert ComesFrom(s.zone, c, r) && ComesFrom(s.zone, c, q);
    }
  }

  // ----- Steps that only move a solver or the journal -----

  lemma PhaseKeeps(s: Sys, s': Sys, id: nat, phase: Phase)
    requires Inv(s) && id in s.solvers && s' == After(s, id, phase)
    requires SolverInv(s', s'.solvers[id])
    requires s.solvers[id].phase.Done? ==> phase.Done?
    requires phase.Sending? && s.solvers[id].adding && phase.calls != [] ==>
             s.solvers[id].value !in ValueSet(s.zone.records)
    ensures Inv(s')
  {
    forall i | i in s'.solvers ensures SolverInv(s', s'.solvers[i]) {
      assert i in s.solvers && SolverInv(s, s.solvers[i]);
    }
  }

  lemma CheckKeeps(s: Sys, id: nat, order: seq<string>)
    requires Inv(s) && Enabled(s, Step(id, order)) && s.solvers[id].phase.Checking?
    ensures Inv(SolverStep(s, id, order))
  {
    var solver := s.solvers[id];
    var current := solver.phase.current;
    if Refuses(s.zone, current) {
      PhaseKeeps(s, SolverStep(s, id, order), id, Reading);
    } else {
      var calls := Calls(s.zone, Target(s, solver, current), order);
      if solver.adding {
        AddPlansOnePost(s, solver, current, order);
        assert ValueSet(s.zone.records) == ValuesOf(current);
      } else {
        var r := RemovePlansOneDelete(s, solver, current, order);
        forall q | q in s.zone.records && q.id == r.id ensures q == r { IdsIdentify(s.zone.records, q, r); }
      }
      PhaseKeeps(s, SolverStep(s, id, order), id, Sending(calls));
    }
  }

  lemma {:induction false} IdsIdentify(rs: seq<CfRecord>, q: CfRecord, r: CfRecord)
    requires IdsDistinct(rs) && q in rs && r in rs && q.id == r.id
    ensures q == r
  {
    if q != rs[0] && r != rs[0] {
      assert rs == [rs[0]] + rs[1..];
      IdsIdentify(rs[1..], q, r);
    }
  }

  lemma SendKeeps(s: Sys, id: nat, order: seq<string>)
    requires Inv(s) && id in s.solvers && s.solvers[id].phase.Sending? && s.solvers[id].phase.calls != []
    ensures Inv(SolverStep(s, id, order))
  {
    var solver := s.solvers[id];
    var c := solver.phase.calls[0];
    var s' := SolverStep(s, id, order);
    assert SolverInv(s, solver);
    if c.Delete? && Without(s.zone.records, c.id) == s.zone.records {
      PhaseKeeps(s, s', id, Done);
    } else {
      assert solver.phase.calls[1..] == [];
      if solver.adding {
        var moved := After(s, id, Sending([]));
        PhaseKeeps(s, moved, id, Sending([]));
        PostKeeps(moved, s', c);
      } else {
        var changed := s.(zone := Effect(s.zone, c));
        OtherCallKeeps(s, changed, c);
        DeleteTakesLast(s, solver.value, c);
        PhaseKeeps(changed, s', id, Sending([]));
      }
    }
  }

  /** A solver value is published once, so deleting its record leaves none. */
  lemma DeleteTakesLast(s: Sys, v: string, c: Call)
    requires Inv(s) && v in s.used && OwnDelete(s.zone, c, v) && Without(s.zone.records, c.id) != s.zone.records
    ensures v !in ValueSet(Effect(s.zone, c).records)
  {
    if forall r :: r in s.zone.records ==> r.id != c.id {
      NothingToRemove(s.zone.records, c.id);
    } else {
      var r :| r in s.zone.records && r.id == c.id;
      RecordsAfterDelete(s.zone, v, r);
    }
  }

  lemma RecordsAfterDelete(z: Zone, v: string, r: CfRecord)
    requires ValidIds(z) && r in z.records && r.value == Some(v)
    requires forall q :: q in z.records && q.value == Some(v) ==> q.id == r.id
    ensures var z' := Effect(z, Delete(r.id));
            && v !in ValueSet(z'.records) && z'.records != z.records
            && forall q :: q in z'.records <==> q in z.records && q.value != Some(v)
  {
    var z' := Effect(z, Delete(r.id));
    assert r !in z'.records;
    InValueSet(z'.records, v);
    forall q | q in z.records && q.id == r.id ensures q == r { IdsIdentify(z.records, q, r); }
  }

  /** Every enabled step of every solver and operator keeps the invariant. */
  lemma StepKeepsInv(s: Sys, e: Event)
    requires Inv(s) && Enabled(s, e)
    ensures Inv(Next(s, e))
  {
    match e {
      case StartAdd(id, v) => StartKeeps(s, id, Solver(true, v, Journaling));
      case StartRemove(id, v) => StartKeeps(s, id, Solver(false, v, Reading));
      case Step(id, order) => SolverStepKeeps(s, id, order);
      case Retry(id) => PhaseKeeps(s, Next(s, e), id, Reading);
      case Fail(id) => PhaseKeeps(s, Next(s, e), id, Done);
      case OperatorPost(v, ttl) =>
        assert forall i :: i in s.solvers ==> SolverInv(s, s.solvers[i]);
        PostKeeps(s, Next(s, e), Post(v, ttl, false));
      case OperatorPatch(record, ttl) => OtherCallKeeps(s, Next(s, e), Patch(record, ttl, false));
      case OperatorDelete(record) => OtherCallKeeps(s, Next(s, e), Delete(record));
    }
  }

  lemma StartKeeps(s: Sys, id: nat, solver: Solver)
    requires Inv(s) && Enabled(s, if solver.adding then StartAdd(id, solver.value) else StartRemove(id, solver.value))
    requires solver.phase == if solver.adding then Journaling else Reading
    ensures Inv(s.(solvers := s.solvers[id := solver], used := s.used + {solver.value}))
    ensures !solver.adding ==> s.used + {solver.value} == s.used
  {
    var s' := s.(solvers := s.solvers[id := solver], used := s.used + {solver.value});
    if !solver.adding { assert s'.used == s.used; }
    forall i | i in s'.solvers ensures SolverInv(s', s'.solvers[i]) {
      if i != id { assert SolverInv(s, s.solvers[i]); }
    }
    forall i | i in s.solvers ensures s.solvers[i].value in s.used {
      assert SolverInv(s, s.solvers[i]);
    }
    forall r, q | r in s.zone.records && q in s.zone.records && r.value.Some? && r.value.value in s'.used &&
      r.value == q.value
      ensures r.id == q.id
    {
      InValueSet(s.zone.records, r.value.value);
    }
  }

  lemma SolverStepKeeps(s: Sys, id: nat, order: seq<string>)
    requires Inv(s) && Enabled(s, Step(id, order))
    ensures Inv(SolverStep(s, id, order))
  {
    var solver := s.solvers[id];
    var s' := SolverStep(s, id, order);
    assert SolverInv(s, solver);
    match solver.phase {
      case Journaling => JournalKeeps(s, id);
      case Reading =>
        assert ValuesOf(SetOf(ObservedIn(s.zone))) == ValueSet(s.zone.records);
        PhaseKeeps(s, s', id, s'.solvers[id].phase);
      case Checking(_) => CheckKeeps(s, id, order);
      case Sending(calls) =>
        if calls == [] {
          PhaseKeeps(s, s', id, s'.solvers[id].phase);
        } else {
          SendKeeps(s, id, order);
        }
      case Unjournaling => UnjournalKeeps(s, id);
      case Done =>
    }
  }

  lemma JournalKeeps(s: Sys, id: nat)
    requires Inv(s) && id in s.solvers && s.solvers[id].phase.Journaling?
    ensures Inv(SolverStep(s, id, []))
  {
    var journaled := s.(journal := s.journal + {s.solvers[id].value});
    forall i | i in s.solvers ensures SolverInv(journaled, s.solvers[i]) {
      assert SolverInv(s, s.solvers[i]);
    }
    assert Inv(journaled);
    PhaseKeeps(journaled, SolverStep(s, id, []), id, Reading);
  }

  lemma UnjournalKeeps(s: Sys, id: nat)
    requires Inv(s) && id in s.solvers && s.solvers[id].phase.Unjournaling?
    ensures Inv(SolverStep(s, id, []))
  {
    var v := s.solvers[id].value;
    var s' := s.(journal := s.journal - {v});
    assert SolverInv(s, s.solvers[id]);
    forall i | i in s.solvers ensures SolverInv(s', s.solvers[i]) {
      assert SolverInv(s, s.solvers[i]);
    }
    assert Inv(s');
    PhaseKeeps(s', SolverStep(s, id, []), id, Done);
  }

  // ----- Whole runs -----

  ghost predicate Allowed(s: Sys, es: seq<Event>)
    decreases |es|
  {
    es == [] || (Enabled(s, es[0]) && Allowed(Next(s, es[0]), es[1..]))
  }

  function Run(s: Sys, es: seq<Event>): Sys
    decreases |es|
  {
    if es == [] then s else Run(Next(s, es[0]), es[1..])
  }

  /** In every interleaving of solvers, crashes and operator edits, every solver value that is still
      published is in the journal, and nothing is ever about to be sent but a POST of the solver's
      own value or a DELETE of a record that holds it. */
  lemma {:induction false} JournalCoversPublished(s: Sys, es: seq<Event>)
    requires Inv(s) && Allowed(s, es)
    ensures var s' := Run(s, es);
            && Inv(s')
            && s'.used * ValueSet(s'.zone.records) <= s'.journal
            && forall i, c :: i in s'.solvers && s'.solvers[i].phase.Sending? && c in s'.solvers[i].phase.calls ==>
                 if s'.solvers[i].adding then OwnPost(c, s'.solvers[i].value)
                   else OwnDelete(s'.zone, c, s'.solvers[i].value)
    decreases |es|
  {
    if es == [] {
      forall i, c | i in s.solvers && s.solvers[i].phase.Sending? && c in s.solvers[i].phase.calls
        ensures if s.solvers[i].adding then OwnPost(c, s.solvers[i].value) else OwnDelete(s.zone, c, s.solvers[i].value)
      {
        assert SolverInv(s, s.solvers[i]);
      }
    } else {
      StepKeepsInv(s, es[0]);
      JournalCoversPublished(Next(s, es[0]), es[1..]);
    }
  }

  lemma InitIsInv(s: Sys)
    requires Init(s)
    ensures Inv(s)
  {
  }

  /** The record is an operator's, or another order's: no event removes it but an operator's edit or
      the removal of the very value it holds. */
  ghost predicate Spares(s: Sys, e: Event, r: CfRecord) {
    match e
    case OperatorPatch(record, _) => record != r.id
    case OperatorDelete(record) => record != r.id
    case Step(id, _) => id in s.solvers && !s.solvers[id].adding ==> r.value != Some(s.solvers[id].value)
    case _ => true
  }

  lemma StepSpares(s: Sys, e: Event, r: CfRecord)
    requires Inv(s) && Enabled(s, e) && Spares(s, e, r) && r in s.zone.records
    ensures r in Next(s, e).zone.records
  {
    match e {
      case OperatorPatch(record, ttl) =>
        var i :| 0 <= i < |s.zone.records| && s.zone.records[i] == r;
        assert Next(s, e).zone.records[i] == r;
      case Step(id, _) => assert SolverInv(s, s.solvers[id]);
      case _ =>
    }
  }

  ghost predicate AllSpare(s: Sys, es: seq<Event>, r: CfRecord)
    decreases |es|
  {
    es == [] || (Spares(s, es[0], r) && AllSpare(Next(s, es[0]), es[1..], r))
  }

  /** Over every run, a record nobody edits by hand and whose value no removal names survives. */
  lemma {:induction false} OtherValuesSurvive(s: Sys, es: seq<Event>, r: CfRecord)
    requires Inv(s) && Allowed(s, es) && AllSpare(s, es, r) && r in s.zone.records
    ensures r in Run(s, es).zone.records
    decreases |es|
  {
    if es != [] {
      StepSpares(s, es[0], r);
      StepKeepsInv(s, es[0]);
      OtherValuesSurvive(Next(s, es[0]), es[1..], r);
    }
  }

  /** After a crash, removing a journaled value while nothing else runs takes its record and its
      journal entry away and leaves every other record alone. */
  lemma CleanupRemoves(s: Sys, id: nat, v: string, order: seq<string>)
    requires Inv(s) && Enabled(s, StartRemove(id, v)) && v in ValueSet(s.zone.records)
    requires !Unsupported(s.zone.records)
    requires Enumerates(order, ValueSet(s.zone.records) - {v})
    ensures var e := Step(id, order);
            var s' := Run(s, [StartRemove(id, v), e, e, e, e, e]);
            && v !in ValueSet(s'.zone.records) && s'.journal == s.journal - {v}
            && forall r :: r in s'.zone.records <==> r in s.zone.records && r.value != Some(v)
  {
    var e := Step(id, order);
    var r := CleanupPlans(s, id, v, order);
    var s3 := Next(Next(Next(s, StartRemove(id, v)), e), e);
    RecordsAfterDelete(s.zone, v, r);
    CleanupSends(s3, id, v, r, order);
    RunSix(s, StartRemove(id, v), e);
  }

  lemma CleanupPlans(s: Sys, id: nat, v: string, order: seq<string>) returns (r: CfRecord)
    requires ValidIds(s.zone) && s.zone.rtype.Txt? && v in ValueSet(s.zone.records) && !Unsupported(s.zone.records)
    requires Enumerates(order, ValueSet(s.zone.records) - {v})
    ensures var e := Step(id, order);
            var s3 := Next(Next(Next(s, StartRemove(id, v)), e), e);
            && r in s.zone.records && r.value == Some(v)
            && s3.zone == s.zone && s3.journal == s.journal && id in s3.solvers
            && s3.solvers[id] == Solver(false, v, Sending([Delete(r.id)]))
  {
    var e := Step(id, order);
    var current := SetOf(ObservedIn(s.zone));
    var s2 := Next(Next(s, StartRemove(id, v)), e);
    assert s2.solvers[id] == Solver(false, v, Checking(current)) && s2.zone == s.zone;
    r := RemovePlansOneDelete(s2, s2.solvers[id], current, order);
  }

  lemma CleanupSends(s: Sys, id: nat, v: string, r: CfRecord, order: seq<string>)
    requires id in s.solvers && s.solvers[id] == Solver(false, v, Sending([Delete(r.id)]))
    requires Effect(s.zone, Delete(r.id)).records != s.zone.records
    ensures var e := Step(id, order);
            var s' := Next(Next(Next(s, e), e), e);
            s'.zone == Effect(s.zone, Delete(r.id)) && s'.journal == s.journal - {v}
  {
    assert [Delete(r.id)][1..] == [];
  }

  lemma RunSix(s: Sys, a: Event, e: Event)
    ensures Run(s, [a, e, e, e, e, e]) == Next(Next(Next(Next(Next(Next(s, a), e), e), e), e), e)
  {
    assert [a, e, e, e, e, e][1..] == [e, e, e, e, e];
    assert [e, e, e, e, e][1..] == [e, e, e, e];
    assert [e, e, e, e][1..] == [e, e, e];
    assert [e, e, e][1..] == [e, e];
    assert [e, e][1..] == [e];
    assert [e][1..] == [];
    var s1 := Next(s, a);
    assert Run(s, [a, e, e, e, e, e]) == Run(s1, [e, e, e, e, e]);
    var s2 := Next(s1, e);
    assert Run(s1, [e, e, e, e, e]) == Run(s2, [e, e, e, e]);
    var s3 := Next(s2, e);
    assert Run(s2, [e, e, e, e]) == Run(s3, [e, e, e]);
    var s4 := Next(s3, e);
    assert Run(s3, [e, e, e]) == Run(s4, [e, e]);
    assert Run(s4, [e, e]) == Run(Next(s4, e), [e]);
  }

  /** The condition on removals is needed: a cleanup that starts while the add is between its
      journal write and its POST finds nothing to remove, drops the journal entry, and the value
      that is then published is in no journal. */
  lemma EarlyCleanupLosesJournal(s: Sys, v: string)
    requires Init(s) && s.zone.records == []
    ensures var add, cleanup := Step(0, [v]), Step(1, []);
            var early := Next(Next(Next(s, StartAdd(0, v)), add), StartRemove(1, v));
            var s' := Next(Next(Next(Next(Next(early, cleanup), cleanup), add), add), add);
            v in ValueSet(s'.zone.records) && v in s'.used && v !in s'.journal
  {
    var add, cleanup := Step(0, [v]), Step(1, []);
    var s1 := Next(s, StartAdd(0, v));
    var s2 := Next(s1, add);
    var s3 := Next(s2, StartRemove(1, v));
    var s5 := Next(Next(s3, cleanup), cleanup);
    assert s5.journal == {} && s5.solvers[0] == Solver(true, v, Reading) && s5.zone == s.zone;
    var s7 := Next(Next(s5, add), add);
    PlanFirstPost(s5.zone, v, s.ttl);
    assert s7.solvers[0] == Solver(true, v, Sending([Post(v, s.ttl, false)]));
    var s8 := Next(s7, add);
    assert s8.zone.records == [CfRecord(s.zone.nextId, Some(v), s.ttl, s.zone.plain)];
    InValueSet(s8.zone.records, v);
  }

  lemma PlanFirstPost(z: Zone, v: string, ttl: nat)
    requires z.rtype.Txt? && z.records == []
    ensures Calls(z, Some(RecordSet(z.name, Txt, ttl, {v}, None)), [v]) == [Post(v, ttl, false)]
    ensures {} + {v} == {v}
  {
    assert Writes([], Txt, ttl, false, [v][1..]) == [];
  }

  // ----- Exactly when a removal is safe -----

  lemma RunCons(s: Sys, e: Event, es: seq<Event>)
    ensures Run(s, [e] + es) == Run(Next(s, e), es)
    ensures Allowed(s, [e] + es) <==> Enabled(s, e) && Allowed(Next(s, e), es)
  {
    assert ([e] + es)[1..] == es;
  }

  lemma {:induction false} EnumerationExists(values: set<string>) returns (order: seq<string>)
    ensures Enumerates(order, values)
    decreases |values|
  {
    if values == {} {
      order := [];
    } else {
      var x :| x in values;
      var rest := EnumerationExists(values - {x});
      order := [x] + rest;
    }
  }

  /** Removes every record, one operator call after the other. */
  lemma {:induction false} OperatorClears(s: Sys) returns (es: seq<Event>)
    ensures Allowed(s, es) && Run(s, es) == s.(zone := s.zone.(records := []))
    decreases |s.zone.records|
  {
    if s.zone.records == [] {
      es := [];
    } else {
      var e := OperatorDelete(s.zone.records[0].id);
      WithoutIsShorter(s.zone.records[1..], s.zone.records[0].id);
      var rest := OperatorClears(Next(s, e));
      es := [e] + rest;
      RunCons(s, e, rest);
    }
  }

  lemma {:induction false} WithoutIsShorter(rs: seq<CfRecord>, id: nat)
    ensures |Without(rs, id)| <= |rs|
  {
    if rs != [] { WithoutIsShorter(rs[1..], id); }
  }

  /** The records can be managed and do not hold the value. */
  ghost predicate ReadyFor(z: Zone, v: string) {
    z.rtype.Txt? && ValidIds(z) && v !in ValueSet(z.records) && (z.records == [] || !Unsupported(z.records))
  }

  /** An add that can still publish its value. */
  ghost predicate LiveAdd(s: Sys, id: nat, v: string) {
    && id in s.solvers && s.solvers[id].adding && s.solvers[id].value == v
    && (match s.solvers[id].phase
        case Reading => true
        case Checking(current) => v !in ValuesOf(current)
        case Sending(calls) => calls == [] || OwnPost(calls[0], v)
        case _ => false)
  }

  ghost predicate Orphaned(s: Sys, v: string) { v in s.used && v in ValueSet(s.zone.records) && v !in s.journal }

  predicate SolversOnly(es: seq<Event>) { forall e :: e in es ==> e.Step? || e.Retry? }

  /** Left alone, such an add publishes its value, whether or not the journal still names it. */
  lemma PublishesFromSending(s: Sys, id: nat, v: string) returns (es: seq<Event>)
    requires ReadyFor(s.zone, v) && LiveAdd(s, id, v) && v in s.used && v !in s.journal
    requires s.solvers[id].phase.Sending? && s.solvers[id].phase.calls != []
    ensures Allowed(s, es) && Orphaned(Run(s, es), v) && SolversOnly(es)
  {
    es := [Step(id, [])];
    RunCons(s, es[0], []);
    assert es == [es[0]] + [];
    EffectOnRecords(s.zone, s.solvers[id].phase.calls[0]);
    AppendIds(s.zone.records, Effect(s.zone, s.solvers[id].phase.calls[0]).records[|s.zone.records|]);
  }

  lemma PublishesFromChecking(s: Sys, id: nat, v: string) returns (es: seq<Event>)
    requires ReadyFor(s.zone, v) && LiveAdd(s, id, v) && v in s.used && v !in s.journal
    requires s.solvers[id].phase.Checking? && !Refuses(s.zone, s.solvers[id].phase.current)
    ensures Allowed(s, es) && Orphaned(Run(s, es), v) && SolversOnly(es)
  {
    var solver, current := s.solvers[id], s.solvers[id].phase.current;
    var order := EnumerationExists(ValuesOf(Target(s, solver, current)));
    AddPlansOnePost(s, solver, current, order);
    var rest := PublishesFromSending(Next(s, Step(id, order)), id, v);
    RunCons(s, Step(id, order), rest);
    es := [Step(id, order)] + rest;
  }

  lemma PublishesFromReading(s: Sys, id: nat, v: string) returns (es: seq<Event>)
    requires ReadyFor(s.zone, v) && LiveAdd(s, id, v) && v in s.used && v !in s.journal && s.solvers[id].phase.Reading?
    ensures Allowed(s, es) && Orphaned(Run(s, es), v) && SolversOnly(es)
  {
    var rest := PublishesFromChecking(Next(s, Step(id, [])), id, v);
    RunCons(s, Step(id, []), rest);
    es := [Step(id, [])] + rest;
  }

  lemma Publishes(s: Sys, id: nat, v: string) returns (es: seq<Event>)
    requires ReadyFor(s.zone, v) && LiveAdd(s, id, v) && v in s.used && v !in s.journal
    ensures Allowed(s, es) && Orphaned(Run(s, es), v) && SolversOnly(es)
  {
    var solver := s.solvers[id];
    if solver.phase.Reading? {
      es := PublishesFromReading(s, id, v);
    } else if solver.phase.Checking? {
      if Refuses(s.zone, solver.phase.current) {
        var order := EnumerationExists(ValuesOf(Target(s, solver, solver.phase.current)));
        var rest := PublishesFromReading(Next(s, Step(id, order)), id, v);
        RunCons(s, Step(id, order), rest);
        es := [Step(id, order)] + rest;
      } else {
        es := PublishesFromChecking(s, id, v);
      }
    } else if solver.phase.calls == [] {
      var rest := PublishesFromReading(Next(s, Retry(id)), id, v);
      RunCons(s, Retry(id), rest);
      es := [Retry(id)] + rest;
    } else {
      es := PublishesFromSending(s, id, v);
    }
  }

  /** A removal that finds nothing drops the journal entry; an add that is about to journal its value
      does so just before. */
  lemma OvertakenAdd(s: Sys, rid: nat, id: nat, v: string) returns (es: seq<Event>)
    requires ReadyFor(s.zone, v) && v in s.used && rid in s.solvers && s.solvers[rid] == Solver(false, v, Reading)
    requires LiveAdd(s, id, v) || (id in s.solvers && s.solvers[id] == Solver(true, v, Journaling))
    ensures Allowed(s, es) && Orphaned(Run(s, es), v) && SolversOnly(es)
  {
    var e := Step(rid, []);
    var s1 := Next(s, e);
    assert s1.solvers[rid].phase.Unjournaling?;
    if s.solvers[id].phase.Journaling? {
      var s2 := Next(s1, Step(id, []));
      var rest := Publishes(Next(s2, e), id, v);
      RunCons(s2, e, rest);
      RunCons(s1, Step(id, []), [e] + rest);
      RunCons(s, e, [Step(id, [])] + ([e] + rest));
      es := [e] + ([Step(id, [])] + ([e] + rest));
    } else {
      var rest := Publishes(Next(s1, e), id, v);
      RunCons(s1, e, rest);
      RunCons(s, e, [e] + rest);
      es := [e] + ([e] + rest);
    }
  }

  lemma {:induction false} RunConcat(s: Sys, a: seq<Event>, b: seq<Event>)
    ensures Run(s, a + b) == Run(Run(s, a), b)
    ensures Allowed(s, a) && Allowed(Run(s, a), b) ==> Allowed(s, a + b)
    decreases |a|
  {
    if a == [] {
      assert a + b == b;
    } else {
      ConcatTail(a, b);
      RunConcat(Next(s, a[0]), a[1..], b);
    }
  }

  /** Whatever a live add is doing, a removal of its value can leave the value published and in no
      journal. No operator is involved unless the records hold the value or cannot be managed. */
  lemma EarlyRemovalOrphans(s: Sys, rid: nat, id: nat, v: string) returns (es: seq<Event>)
    requires Inv(s) && rid !in s.solvers && v in s.used
    requires id in s.solvers && s.solvers[id].adding && s.solvers[id].value == v && !s.solvers[id].phase.Done?
    ensures var s1 := Next(s, StartRemove(rid, v)); Allowed(s1, es) && Orphaned(Run(s1, es), v)
    ensures ReadyFor(s.zone, v) ==> SolversOnly(es)
  {
    var s1 := Next(s, StartRemove(rid, v));
    assert SolverInv(s, s.solvers[id]);
    if ReadyFor(s.zone, v) {
      es := OvertakenAdd(s1, rid, id, v);
    } else {
      var clear := OperatorClears(s1);
      var rest := OvertakenAdd(Run(s1, clear), rid, id, v);
      RunConcat(s1, clear, rest);
      es := clear + rest;
    }
  }

  /** Starting a removal is safe, whatever happens then, exactly when no add of its value is under way. */
  lemma RemovalIsSafeExactly(s: Sys, rid: nat, v: string)
    requires Inv(s) && rid !in s.solvers && v in s.used
    ensures (forall i :: i in s.solvers && s.solvers[i].adding && s.solvers[i].value == v ==>
            s.solvers[i].phase.Done?) <==>
            forall es :: Allowed(Next(s, StartRemove(rid, v)), es) ==> Journaled(Run(Next(s, StartRemove(rid, v)), es))
  {
    var s1 := Next(s, StartRemove(rid, v));
    if i :| i in s.solvers && s.solvers[i].adding && s.solvers[i].value == v && !s.solvers[i].phase.Done? {
      var es := EarlyRemovalOrphans(s, rid, i, v);
      assert !Journaled(Run(s1, es));
    } else {
      StepKeepsInv(s, StartRemove(rid, v));
      forall es | Allowed(s1, es) ensures Journaled(Run(s1, es)) {
        JournalCoversPublished(s1, es);
      }
    }
  }
}
