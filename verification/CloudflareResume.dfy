/** Interrupted Cloudflare changes are resumed: reconcile passes that are cut off after any number
    of API calls (dns/reconciler.rs over dns/plan.rs and dns/cloudflare.rs). */
module CloudflareResume {
  import opened Wrappers
  import opened DnsPlan
  import opened Cloudflare

  /** What survives an interruption: the provider's records and the saved entry. */
  datatype Durable = Durable(zone: Zone, managed: Option<ManagedRecord>)

  /** How one pass ends: after `calls` provider calls, and with or without the final save. */
  datatype Cut = Cut(calls: nat, saved: bool, now: int, generation: nat)

  function Goal(desired: DesiredRecord): set<string> {
    if desired.absent then {} else desired.set_.values
  }

  function Actual(z: Zone): Option<RecordSet> { SetOf(ObservedIn(z)) }

  /** The decision of a pass, after an interrupted change that completed was closed. */
  function PassAction(desired: DesiredRecord, s: Durable, cut: Cut, settleSecs: int): Action {
    Decide(desired, ObservedIn(s.zone), Settle(s.managed, Actual(s.zone), cut.generation, cut.now), cut.now, settleSecs)
  }

  function Pass(desired: DesiredRecord, s: Durable, order: seq<string>, cut: Cut, settleSecs: int): Durable {
    var managed := Settle(s.managed, Actual(s.zone), cut.generation, cut.now);
    match PassAction(desired, s, cut, settleSecs)
    case Apply(expected, target) =>
      var intent := WithIntent(managed, expected, target, cut.generation, cut.now);
      if Refuses(s.zone, expected) then
        s.(managed := if cut.saved then AfterConflict(intent) else Some(intent))
      else
        var calls := Calls(s.zone, target, order);
        if cut.calls < |calls| then Durable(Effects(s.zone, calls[..cut.calls]), Some(intent))
        else Durable(Effects(s.zone, calls),
                     Some(if cut.saved then CompleteChange(intent, expected, target, cut.generation, cut.now)
                       else intent))
    case action => if cut.saved then s.(managed := AfterQuietAction(managed, action, Actual(s.zone), cut)) else s
  }

  /** The entry after an action that does not touch the provider. */
  function AfterQuietAction(managed: Option<ManagedRecord>, action: Action, actual: Option<RecordSet>, cut: Cut)
    : Option<ManagedRecord>
  {
    match action
    case NoChange => if managed.Some? then Some(NoteConverged(managed.value, actual, cut.now)) else None
    case Adopt(current) => Some(ManagedRecord(Some(current), None, cut.generation, None, cut.now))
    case Forget => None
    case _ => managed
  }

  /** How a pass that plans a write leaves the record: the planned calls, or as many as it got to, are made; the
      entry is closed exactly when all of them were and the result was saved, and otherwise keeps the intent. */
  lemma WritingPassIs(desired: DesiredRecord, s: Durable, order: seq<string>, cut: Cut, settleSecs: int)
    requires PassAction(desired, s, cut, settleSecs).Apply?
    ensures var s' := Pass(desired, s, order, cut, settleSecs);
            var target := TargetFor(desired, Actual(s.zone));
            var calls := Calls(s.zone, target, order);
            var finished := |calls| <= cut.calls;
            && s'.zone == Effects(s.zone, if finished then calls else calls[..cut.calls])
            && s'.managed.Some?
            && (if finished && cut.saved
                then s'.managed.value.pending.None? && s'.managed.value.applied == target &&
                     s'.managed.value.previous == Actual(s.zone) && s'.managed.value.generation == cut.generation
                else s'.managed.value.pending == Some(PendingChange(Actual(s.zone), target, None, cut.now)))
  {
    var managed := Settle(s.managed, Actual(s.zone), cut.generation, cut.now);
    ApplyExactly(desired, ObservedIn(s.zone), managed, cut.now, settleSecs);
    if Actual(s.zone).Some? { SameDataSymmetric(Actual(s.zone).value, Actual(s.zone).value); }
  }

  /** A pass that plans none touches no record, and changes the entry only if it is saved. */
  lemma QuietPassIs(desired: DesiredRecord, s: Durable, order: seq<string>, cut: Cut, settleSecs: int)
    requires !PassAction(desired, s, cut, settleSecs).Apply?
    ensures var s' := Pass(desired, s, order, cut, settleSecs);
            && s'.zone == s.zone && (!cut.saved ==> s' == s)
            && (cut.saved && PassAction(desired, s, cut, settleSecs).NoChange? && s.managed.Some? ==>
                  && s'.managed.Some? && s'.managed.value.pending.None?
                  && SameOptional(Actual(s.zone), s'.managed.value.applied))
            && (cut.saved && PassAction(desired, s, cut, settleSecs).Forget? ==> s'.managed.None?)
            && (cut.saved && PassAction(desired, s, cut, settleSecs).Adopt? ==>
                  s'.managed.Some? && s'.managed.value.applied == Actual(s.zone))
  {
    var managed := Settle(s.managed, Actual(s.zone), cut.generation, cut.now);
    if managed.Some? { ConvergedIsNoted(managed.value, Actual(s.zone), cut.now); }
    UnmanagedAdopts(desired, s, cut, settleSecs);
  }

  lemma UnmanagedAdopts(desired: DesiredRecord, s: Durable, cut: Cut, settleSecs: int)
    ensures var action := PassAction(desired, s, cut, settleSecs);
            action.Adopt? ==> Some(action.current) == Actual(s.zone)
  {
  }

  // ----- Changes that keep TTL and proxy setting -----

  function TtlOf(desired: DesiredRecord, z: Zone): nat {
    if z.records == [] then desired.set_.ttl else z.records[0].ttl
  }

  /** The flag new records get: the configured one, else the one in use, else off. */
  function FlagOf(desired: DesiredRecord, z: Zone): bool {
    if z.records != [] && Proxiable(z.rtype) && z.records[0].proxied.Some? then z.records[0].proxied.value
    else desired.set_.proxied.GetOr(false)
  }

  /** The records differ from the configuration in their values only. */
  predicate SameShape(desired: DesiredRecord, z: Zone) {
    && desired.set_.name == z.name && desired.set_.rtype == z.rtype
    && Uniform(z, TtlOf(desired, z), Reported(z, FlagOf(desired, z)))
    && (!desired.absent ==>
          && desired.set_.values != {}
          && TtlOf(desired, z) == desired.set_.ttl
          && (Proxiable(z.rtype) && desired.set_.proxied.Some? ==> FlagOf(desired, z) == desired.set_.proxied.value))
  }

  /** The saved entry explains the records: nothing there and nothing recorded, the recorded data,
      or something between the endpoints of an unfinished change. */
  predicate Resumable(desired: DesiredRecord, s: Durable) {
    && SameShape(desired, s.zone)
    && (match s.managed
        case None => s.zone.records == []
        case Some(m) =>
          match m.pending
          case None => SameOptional(Actual(s.zone), m.applied)
          case Some(p) => p.ticket.None? && IsBetween(Actual(s.zone), p.expected, p.desired))
  }

  lemma ActualOf(desired: DesiredRecord, z: Zone)
    requires SameShape(desired, z)
    ensures Actual(z) == if z.records == [] then None
                         else Some(RecordSet(z.name, z.rtype, TtlOf(desired, z), ValueSet(z.records),
                                             if Proxiable(z.rtype) then Some(FlagOf(desired, z)) else None))
    ensures ObservedIn(z).Some? ==> !ObservedIn(z).value.unsupported
    ensures z.records == [] <==> ValueSet(z.records) == {}
  {
    UniformIsSupported(z, TtlOf(desired, z), Reported(z, FlagOf(desired, z)));
  }

  lemma DoneIsReached(desired: DesiredRecord, z: Zone)
    requires SameShape(desired, z)
    ensures Reached(desired, Actual(z)) <==> ValueSet(z.records) == Goal(desired)
    ensures Reached(desired, Actual(z)) <==> SymDiff(ValueSet(z.records), Goal(desired)) == {}
  {
    ActualOf(desired, z);
  }

  lemma TargetShape(desired: DesiredRecord, z: Zone)
    requires SameShape(desired, z) && !desired.absent
    ensures var target := if z.records == [] then desired.set_ else WithCurrentProxied(desired.set_, Actual(z));
            && target.ttl == TtlOf(desired, z) && target.values == Goal(desired)
            && target.name == z.name && target.rtype == z.rtype
            && Flag(z, target) == (if Proxiable(z.rtype) then FlagOf(desired, z) else Flag(z, target))
            && (Proxiable(z.rtype) && target.proxied.Some? ==> target.proxied.value == FlagOf(desired, z))
  {
    ActualOf(desired, z);
  }

  /** A resumable state is never reported as a conflict and never has to wait: the pass finds the
      record done, or plans exactly the change to the configured values. */
  lemma PassProceeds(desired: DesiredRecord, s: Durable, cut: Cut, settleSecs: int)
    requires Resumable(desired, s)
    ensures var action := PassAction(desired, s, cut, settleSecs);
            if Reached(desired, Actual(s.zone)) then action.NoChange? || action.Forget?
            else action.Apply? && action.expected == Actual(s.zone) && ValuesOf(action.target) == Goal(desired)
  {
    ActualOf(desired, s.zone);
    ApplyExactly(desired, ObservedIn(s.zone), Settle(s.managed, Actual(s.zone), cut.generation, cut.now), cut.now,
      settleSecs);
  }

  lemma ShapeKept(desired: DesiredRecord, z: Zone, z': Zone)
    requires SameShape(desired, z)
    requires z'.name == z.name && z'.rtype == z.rtype && z'.plain == z.plain
    requires Uniform(z', TtlOf(desired, z), Reported(z, FlagOf(desired, z)))
    ensures SameShape(desired, z')
    ensures z'.records != [] ==>
              && TtlOf(desired, z') == TtlOf(desired, z)
              && Reported(z', FlagOf(desired, z')) == Reported(z, FlagOf(desired, z))
  {
    if z'.records != [] {
      assert z'.records[0] in z'.records;
    }
  }

  /** What the configuration makes of the records `z`. */
  function TargetOf(desired: DesiredRecord, z: Zone): Option<RecordSet> {
    if desired.absent then None
    else Some(if z.records == [] then desired.set_ else WithCurrentProxied(desired.set_, Actual(z)))
  }

  lemma EndpointsOf(desired: DesiredRecord, z: Zone, z': Zone)
    requires SameShape(desired, z) && SameShape(desired, z')
    requires z'.records != [] ==> TtlOf(desired, z') == TtlOf(desired, z)
                                  && (z.records != [] || !desired.absent)
                                  && Reported(z', FlagOf(desired, z')) == Reported(z, FlagOf(desired, z))
    requires ValueSet(z.records) * Goal(desired) <= ValueSet(z'.records) <= ValueSet(z.records) + Goal(desired)
    requires z'.name == z.name && z'.rtype == z.rtype
    ensures IsBetween(Actual(z'), Actual(z), TargetOf(desired, z))
    ensures ValueSet(z'.records) == Goal(desired) ==> SameOptional(Actual(z'), TargetOf(desired, z))
  {
    ActualOf(desired, z);
    ActualOf(desired, z');
    if !desired.absent { TargetShape(desired, z); }
  }

  lemma FlagUsed(desired: DesiredRecord, z: Zone) returns (flag: bool)
    requires SameShape(desired, z)
    ensures Reported(z, flag) == Reported(z, FlagOf(desired, z))
    ensures var target := TargetOf(desired, z);
            && ValuesOf(target) == Goal(desired)
            && (target.Some? ==> target.value.ttl == TtlOf(desired, z) && Flag(z, target.value) == flag)
  {
    if desired.absent {
      flag := FlagOf(desired, z);
    } else {
      TargetShape(desired, z);
      flag := Flag(z, TargetOf(desired, z).value);
    }
  }

  /** The configured change from `z`, cut off after `k` calls. */
  lemma ChangeAdvances(desired: DesiredRecord, z: Zone, order: seq<string>, k: nat)
    requires SameShape(desired, z) && Enumerates(order, Goal(desired))
    requires desired.absent ==> z.records != []
    requires k <= |Calls(z, TargetOf(desired, z), order)|
    ensures var target := TargetOf(desired, z);
            var calls := Calls(z, target, order);
            var z' := Effects(z, calls[..k]);
            && |calls| == |SymDiff(ValueSet(z.records), Goal(desired))|
            && SameShape(desired, z')
            && IsBetween(Actual(z'), Actual(z), target)
            && |SymDiff(ValueSet(z'.records), Goal(desired))| + k == |calls|
            && (k == |calls| ==> SameOptional(Actual(z'), target))
  {
    var ttl, goal, target := TtlOf(desired, z), Goal(desired), TargetOf(desired, z);
    var flag := FlagUsed(desired, z);
    CallsAdvance(z, target, order, ttl, flag);
    var calls := Calls(z, target, order);
    PrefixAdvances(z, calls, k, ttl, flag, goal);
    var z' := Effects(z, calls[..k]);
    ShapeKept(desired, z, z');
    EndpointsOf(desired, z, z');
    assert k == |calls| ==> calls[..k] == calls;
  }

  function Applied(m: Option<ManagedRecord>): Option<RecordSet> { if m.Some? then m.value.applied else None }

  function Previous(m: Option<ManagedRecord>): Option<RecordSet> { if m.Some? then m.value.previous else None }

  /** The pass over a record that is done changes nothing at the provider. */
  lemma DonePass(desired: DesiredRecord, s: Durable, order: seq<string>, cut: Cut, settleSecs: int)
    requires Resumable(desired, s) && Reached(desired, Actual(s.zone))
    ensures var s' := Pass(desired, s, order, cut, settleSecs);
            s'.zone == s.zone && Resumable(desired, s')
  {
    PassProceeds(desired, s, cut, settleSecs);
    ActualOf(desired, s.zone);
  }

  /** What a pass that changes something leaves behind. */
  lemma ChangePassIs(desired: DesiredRecord, s: Durable, order: seq<string>, cut: Cut, settleSecs: int)
    requires Resumable(desired, s) && !Reached(desired, Actual(s.zone))
    ensures var s' := Pass(desired, s, order, cut, settleSecs);
            var target := TargetOf(desired, s.zone);
            var calls := Calls(s.zone, target, order);
            && s'.zone == Effects(s.zone, calls[..Min(cut.calls, |calls|)])
            && s'.managed.Some?
            && (match s'.managed.value.pending
                case Some(p) =>
                  var settled := Settle(s.managed, Actual(s.zone), cut.generation, cut.now);
                  && p.expected == Actual(s.zone) && p.desired == target && p.ticket.None?
                  && Applied(s'.managed) == Applied(settled) && Previous(s'.managed) == Previous(settled)
                case None => s'.managed.value.applied == target && |calls| <= cut.calls)
  {
    var z := s.zone;
    var target := TargetOf(desired, z);
    var calls := Calls(z, target, order);
    PassProceeds(desired, s, cut, settleSecs);
    ActualOf(desired, z);
    assert PassAction(desired, s, cut, settleSecs) == Apply(Actual(z), target);
    assert !Refuses(z, Actual(z));
    assert calls[..|calls|] == calls;
  }

  lemma ChangePass(desired: DesiredRecord, s: Durable, order: seq<string>, cut: Cut, settleSecs: int)
    requires Resumable(desired, s) && Enumerates(order, Goal(desired)) && !Reached(desired, Actual(s.zone))
    ensures var s' := Pass(desired, s, order, cut, settleSecs);
            var calls := Calls(s.zone, TargetOf(desired, s.zone), order);
            && |calls| == |SymDiff(ValueSet(s.zone.records), Goal(desired))|
            && |SymDiff(ValueSet(s'.zone.records), Goal(desired))| == |calls| - Min(cut.calls, |calls|)
            && Resumable(desired, s')
  {
    var calls := Calls(s.zone, TargetOf(desired, s.zone), order);
    ChangePassIs(desired, s, order, cut, settleSecs);
    if desired.absent { ActualOf(desired, s.zone); }
    ChangeAdvances(desired, s.zone, order, Min(cut.calls, |calls|));
  }

  /** One interrupted or completed pass: the state stays resumable, and the distance to the
      configured values shrinks by exactly the number of calls that were made. */
  lemma PassResumes(desired: DesiredRecord, s: Durable, order: seq<string>, cut: Cut, settleSecs: int)
    requires Resumable(desired, s) && Enumerates(order, Goal(desired))
    ensures !PassAction(desired, s, cut, settleSecs).Conflict? && !PassAction(desired, s, cut, settleSecs).Wait?
    ensures var s' := Pass(desired, s, order, cut, settleSecs);
            var distance := |SymDiff(ValueSet(s.zone.records), Goal(desired))|;
            && Resumable(desired, s')
            && |SymDiff(ValueSet(s'.zone.records), Goal(desired))| == distance - Min(cut.calls, distance)
  {
    PassProceeds(desired, s, cut, settleSecs);
    if Reached(desired, Actual(s.zone)) {
      DoneIsReached(desired, s.zone);
      DonePass(desired, s, order, cut, settleSecs);
    } else {
      ChangePass(desired, s, order, cut, settleSecs);
    }
  }

  function Passes(desired: DesiredRecord, s: Durable, order: seq<string>, cuts: seq<Cut>, settleSecs: int): Durable
    decreases |cuts|
  {
    if cuts == [] then s
    else Passes(desired, Pass(desired, s, order, cuts[0], settleSecs), order, cuts[1..], settleSecs)
  }

  function TotalCalls(cuts: seq<Cut>): nat {
    if cuts == [] then 0 else cuts[0].calls + TotalCalls(cuts[1..])
  }

  /** Any number of interruptions ends at the configured record set once the passes together were
      allowed as many calls as values differ, and no sooner. */
  lemma {:induction false} InterruptionsConverge(desired: DesiredRecord, s: Durable, order: seq<string>,
      cuts: seq<Cut>, settleSecs: int)
    requires Resumable(desired, s) && Enumerates(order, Goal(desired))
    ensures var s' := Passes(desired, s, order, cuts, settleSecs);
            && Resumable(desired, s')
            && (Reached(desired, Actual(s'.zone)) <==>
              TotalCalls(cuts) >= |SymDiff(ValueSet(s.zone.records), Goal(desired))|)
    decreases |cuts|
  {
    DoneIsReached(desired, s.zone);
    if cuts != [] {
      PassResumes(desired, s, order, cuts[0], settleSecs);
      InterruptionsConverge(desired, Pass(desired, s, order, cuts[0], settleSecs), order, cuts[1..], settleSecs);
    }
  }

  // ----- What an interruption keeps, and what it can lose -----

  lemma PassKeepsProxy(desired: DesiredRecord, s: Durable, order: seq<string>, cut: Cut, settleSecs: int)
    requires Resumable(desired, s) && Enumerates(order, Goal(desired))
    requires !desired.absent && !s.zone.rtype.Cname? && s.zone.records != []
    ensures var s' := Pass(desired, s, order, cut, settleSecs);
            && s'.zone.records != [] && s'.zone.rtype == s.zone.rtype
            && s'.zone.records[0].proxied == s.zone.records[0].proxied
  {
    if Reached(desired, Actual(s.zone)) {
      DonePass(desired, s, order, cut, settleSecs);
    } else {
      var z, target := s.zone, TargetOf(desired, s.zone);
      var calls := Calls(z, target, order);
      var k := Min(cut.calls, |calls|);
      var flag := FlagUsed(desired, z);
      ChangePassIs(desired, s, order, cut, settleSecs);
      CallsAdvance(z, target, order, TtlOf(desired, z), flag);
      PrefixAdvances(z, calls, k, TtlOf(desired, z), flag, Goal(desired));
      NeverEmptyAnswer(z, target.value, order, TtlOf(desired, z), flag, k);
      var z' := Effects(z, calls[..k]);
      assert z'.records[0] in z'.records && z.records[0] in z.records;
    }
  }

  /** Except for a CNAME, every run of interrupted passes over an existing record keeps the name
      answered and the proxy setting as it was. */
  lemma {:induction false} InterruptionsKeepProxy(desired: DesiredRecord, s: Durable, order: seq<string>,
      cuts: seq<Cut>, settleSecs: int)
    requires Resumable(desired, s) && Enumerates(order, Goal(desired))
    requires !desired.absent && !s.zone.rtype.Cname? && s.zone.records != []
    ensures var s' := Passes(desired, s, order, cuts, settleSecs);
            s'.zone.records != [] && s'.zone.records[0].proxied == s.zone.records[0].proxied
    decreases |cuts|
  {
    if cuts != [] {
      PassKeepsProxy(desired, s, order, cuts[0], settleSecs);
      PassResumes(desired, s, order, cuts[0], settleSecs);
      InterruptionsKeepProxy(desired, Pass(desired, s, order, cuts[0], settleSecs), order, cuts[1..], settleSecs);
    }
  }

  function CnameConfig(z: Zone, value: string, ttl: nat): DesiredRecord {
    DesiredRecord(RecordSet(z.name, Cname, ttl, {value}, None), false, false)
  }

  /** One CNAME record with target `value`. */
  predicate OneCname(z: Zone, value: string, ttl: nat, flag: bool) {
    && z.rtype.Cname? && |z.records| == 1
    && z.records[0].value == Some(value) && z.records[0].ttl == ttl && z.records[0].proxied == Some(flag)
  }

  lemma CnameCalls(z: Zone, old_: string, new_: string, ttl: nat, flag: bool)
    requires old_ != new_ && OneCname(z, old_, ttl, flag)
    ensures TargetOf(CnameConfig(z, new_, ttl), z) == Some(RecordSet(z.name, Cname, ttl, {new_}, Some(flag)))
    ensures Calls(z, TargetOf(CnameConfig(z, new_, ttl), z), [new_]) == [Delete(z.records[0].id), Post(new_, ttl, flag)]
  {
    assert z.records == [z.records[0]] && z.records[1..] == [];
    assert Existing(z.records, new_) == None;
    assert Obsolete(z.records[1..], {new_}) == [];
    assert Deletes(z.records[1..]) == [];
    assert Writes(z.records, Cname, ttl, flag, [new_][1..]) == [];
  }

  /** A pass over an existing CNAME with another target. */
  lemma CnamePass(s: Durable, old_: string, new_: string, ttl: nat, flag: bool, cut: Cut, settleSecs: int)
    requires old_ != new_ && OneCname(s.zone, old_, ttl, flag) && Resumable(CnameConfig(s.zone, new_, ttl), s)
    ensures var z' := Pass(CnameConfig(s.zone, new_, ttl), s, [new_], cut, settleSecs).zone;
            && z'.name == s.zone.name && z'.rtype == s.zone.rtype
            && (if cut.calls == 0 then z' == s.zone else if cut.calls == 1 then z'.records == []
                else OneCname(z', new_, ttl, flag))
  {
    var z, desired := s.zone, CnameConfig(s.zone, new_, ttl);
    assert z.records == [z.records[0]] && z.records[1..] == [];
    assert ValueSet(z.records[1..]) == {};
    CnameCalls(z, old_, new_, ttl, flag);
    ActualOf(desired, z);
    ChangePassIs(desired, s, [new_], cut, settleSecs);
    CnameEffects(z, old_, new_, ttl, flag);
  }

  lemma CnameEffects(z: Zone, old_: string, new_: string, ttl: nat, flag: bool)
    requires old_ != new_ && OneCname(z, old_, ttl, flag)
    ensures var calls := [Delete(z.records[0].id), Post(new_, ttl, flag)];
            && Effects(z, calls[..0]) == z
            && Effects(z, calls[..1]) == z.(records := [])
            && OneCname(Effects(z, calls[..2]), new_, ttl, flag) && Effects(z, calls[..2]).name == z.name
  {
    var calls := [Delete(z.records[0].id), Post(new_, ttl, flag)];
    assert z.records == [z.records[0]] && z.records[1..] == [];
    assert Without(z.records, z.records[0].id) == [];
    EffectsNext(z, calls, 0);
    EffectsNext(z, calls, 1);
  }

  /** A pass over a CNAME that was deleted and not created again yet. */
  lemma DeletedCnamePass(s: Durable, value: string, ttl: nat, cut: Cut, settleSecs: int)
    requires s.zone.rtype.Cname? && s.zone.records == [] && Resumable(CnameConfig(s.zone, value, ttl), s)
    ensures var z' := Pass(CnameConfig(s.zone, value, ttl), s, [value], cut, settleSecs).zone;
            && z'.name == s.zone.name && z'.rtype == s.zone.rtype
            && (if cut.calls == 0 then z' == s.zone else OneCname(z', value, ttl, false))
  {
    var z, desired := s.zone, CnameConfig(s.zone, value, ttl);
    assert Writes(z.records, Cname, ttl, false, [value][1..]) == [];
    var calls := Calls(z, TargetOf(desired, z), [value]);
    assert calls == [Post(value, ttl, false)];
    ActualOf(desired, z);
    ChangePassIs(desired, s, [value], cut, settleSecs);
    assert calls[..1] == calls;
    assert Effects(z, calls[..0]) == z;
    EffectsNext(z, calls, 0);
  }

  lemma {:induction false} DoneRun(desired: DesiredRecord, s: Durable, order: seq<string>, cuts: seq<Cut>,
      settleSecs: int)
    requires Resumable(desired, s) && Reached(desired, Actual(s.zone))
    ensures Passes(desired, s, order, cuts, settleSecs).zone == s.zone
    decreases |cuts|
  {
    if cuts != [] {
      DonePass(desired, s, order, cuts[0], settleSecs);
      DoneRun(desired, Pass(desired, s, order, cuts[0], settleSecs), order, cuts[1..], settleSecs);
    }
  }

  lemma OneCnameIsDone(s: Durable, value: string, ttl: nat, flag: bool, cuts: seq<Cut>, settleSecs: int)
    requires OneCname(s.zone, value, ttl, flag) && Resumable(CnameConfig(s.zone, value, ttl), s)
    ensures Passes(CnameConfig(s.zone, value, ttl), s, [value], cuts, settleSecs).zone == s.zone
  {
    assert s.zone.records == [s.zone.records[0]] && s.zone.records[1..] == [];
    assert ValueSet(s.zone.records[1..]) == {};
    DoneIsReached(CnameConfig(s.zone, value, ttl), s.zone);
    DoneRun(CnameConfig(s.zone, value, ttl), s, [value], cuts, settleSecs);
  }

  /** A deleted CNAME comes back with the flag off. */
  lemma {:induction false} DeletedCnameRun(s: Durable, value: string, ttl: nat, cuts: seq<Cut>, settleSecs: int)
    requires s.zone.rtype.Cname? && s.zone.records == [] && Resumable(CnameConfig(s.zone, value, ttl), s)
    requires TotalCalls(cuts) >= 1
    ensures OneCname(Passes(CnameConfig(s.zone, value, ttl), s, [value], cuts, settleSecs).zone, value, ttl, false)
    decreases |cuts|
  {
    var desired := CnameConfig(s.zone, value, ttl);
    var s' := Pass(desired, s, [value], cuts[0], settleSecs);
    DeletedCnamePass(s, value, ttl, cuts[0], settleSecs);
    assert Enumerates([value], Goal(desired));
    PassResumes(desired, s, [value], cuts[0], settleSecs);
    if cuts[0].calls == 0 {
      DeletedCnameRun(s', value, ttl, cuts[1..], settleSecs);
    } else {
      OneCnameIsDone(s', value, ttl, false, cuts[1..], settleSecs);
    }
  }

  /** Some of the passes stop after one call in total. */
  ghost predicate StopsAfterOne(cuts: seq<Cut>) { exists n: nat :: n <= |cuts| && TotalCalls(cuts[..n]) == 1 }

  lemma {:induction false} TotalCallsGrow(cuts: seq<Cut>, n: nat)
    requires 0 < n <= |cuts|
    ensures TotalCalls(cuts[..n]) == cuts[0].calls + TotalCalls(cuts[1..][..n - 1])
  {
    PrefixTail(cuts, n);
  }

  lemma StopsAfterOneIs(cuts: seq<Cut>)
    requires cuts != []
    ensures StopsAfterOne(cuts) <==> cuts[0].calls == 1 || (cuts[0].calls == 0 && StopsAfterOne(cuts[1..]))
  {
    if StopsAfterOne(cuts) {
      var n: nat :| n <= |cuts| && TotalCalls(cuts[..n]) == 1;
      TotalCallsGrow(cuts, n);
    }
    if cuts[0].calls == 1 {
      TotalCallsGrow(cuts, 1);
      assert TotalCalls(cuts[..1]) == 1;
    } else if cuts[0].calls == 0 && StopsAfterOne(cuts[1..]) {
      var n: nat :| n <= |cuts[1..]| && TotalCalls(cuts[1..][..n]) == 1;
      TotalCallsGrow(cuts, n + 1);
    }
  }

  /** A CNAME is deleted before its successor is created. When the configuration leaves the proxy flag
      open, the flag survives any run of interrupted passes that completes the change, exactly unless it
      was on and some of the passes stopped between the two calls: then the record is recreated with the
      flag off. */
  lemma {:induction false} InterruptedCnameKeepsProxyExactly(
      s: Durable, old_: string, new_: string, ttl: nat, flag: bool, cuts: seq<Cut>, settleSecs: int)
    requires old_ != new_ && OneCname(s.zone, old_, ttl, flag) && Resumable(CnameConfig(s.zone, new_, ttl), s)
    requires TotalCalls(cuts) >= 2
    ensures var z' := Passes(CnameConfig(s.zone, new_, ttl), s, [new_], cuts, settleSecs).zone;
            && |z'.records| == 1 && z'.records[0].value == Some(new_)
            && (z'.records[0].proxied == Some(flag) <==> !(flag && StopsAfterOne(cuts)))
    decreases |cuts|
  {
    var desired := CnameConfig(s.zone, new_, ttl);
    var s' := Pass(desired, s, [new_], cuts[0], settleSecs);
    CnamePass(s, old_, new_, ttl, flag, cuts[0], settleSecs);
    assert Enumerates([new_], Goal(desired));
    PassResumes(desired, s, [new_], cuts[0], settleSecs);
    StopsAfterOneIs(cuts);
    if cuts[0].calls == 0 {
      InterruptedCnameKeepsProxyExactly(s', old_, new_, ttl, flag, cuts[1..], settleSecs);
    } else if cuts[0].calls == 1 {
      DeletedCnameRun(s', new_, ttl, cuts[1..], settleSecs);
    } else {
      OneCnameIsDone(s', new_, ttl, flag, cuts[1..], settleSecs);
    }
  }

  /** Such a loss on a concrete run: two passes that each make one of the two calls. */
  lemma InterruptedCnameLosesFlag(name: string, old_: string, new_: string, ttl: nat, cut: Cut, settleSecs: int)
    requires old_ != new_ && cut.calls == 1
    ensures var z := Zone(name, Cname, None, [CfRecord(0, Some(old_), ttl, Some(true))], 1);
            var s := Durable(z, Some(ManagedRecord(Actual(z), None, 0, None, 0)));
            var z' := Passes(CnameConfig(z, new_, ttl), s, [new_], [cut, cut], settleSecs).zone;
            |z'.records| == 1 && z'.records[0].value == Some(new_) && z'.records[0].proxied != Some(true)
  {
    var z := Zone(name, Cname, None, [CfRecord(0, Some(old_), ttl, Some(true))], 1);
    var s := Durable(z, Some(ManagedRecord(Actual(z), None, 0, None, 0)));
    var tail := z.records[1..];
    assert ValueSet(tail) == {} && Listed(tail) && IdsDistinct(tail);
    assert Resumable(CnameConfig(z, new_, ttl), s) by { SameDataSymmetric(Actual(z).value, Actual(z).value); }
    var cuts := [cut, cut];
    assert cuts[1..] == [cut] && TotalCalls([cut]) == 1 && TotalCalls(cuts) == 2;
    StopsAfterOneIs(cuts);
    InterruptedCnameKeepsProxyExactly(s, old_, new_, ttl, true, cuts, settleSecs);
  }

  // ----- Refusals -----

  /** A pass in which call number `k` of the change is refused: what was done so far stays, and the
      intent is dropped. */
  function RefusedPass(desired: DesiredRecord, s: Durable, order: seq<string>, k: nat, cut: Cut, settleSecs: int)
    : Durable
  {
    match PassAction(desired, s, cut, settleSecs)
    case Apply(expected, target) =>
      var managed := Settle(s.managed, Actual(s.zone), cut.generation, cut.now);
      var calls := Calls(s.zone, target, order);
      Durable(Effects(s.zone, calls[..Min(k, |calls|)]),
              AfterConflict(WithIntent(managed, expected, target, cut.generation, cut.now)))
    case _ => Pass(desired, s, order, cut, settleSecs)
  }

  predicate Proceeds(action: Action) { !action.Conflict? && !action.Wait? }

  /** The configuration lets an entry that was dropped be taken up again. */
  predicate Reimports(desired: DesiredRecord, managed: Option<ManagedRecord>) {
    managed.None? && desired.import_ && !desired.absent
  }

  function Distance(desired: DesiredRecord, z: Zone): nat { |SymDiff(ValueSet(z.records), Goal(desired))| }

  /** What a refusal at call `k` leaves: the records are as before exactly if `k` is the first call, and
      the entry keeps what was applied and previous, or is gone if there was neither. */
  lemma RefusedPassIs(desired: DesiredRecord, s: Durable, order: seq<string>, k: nat, cut: Cut, settleSecs: int)
    requires Resumable(desired, s) && Enumerates(order, Goal(desired)) && k < Distance(desired, s.zone)
    ensures var s' := RefusedPass(desired, s, order, k, cut, settleSecs);
            var settled := Settle(s.managed, Actual(s.zone), cut.generation, cut.now);
            && (s'.zone == s.zone <==> k == 0)
            && SameShape(desired, s'.zone) && Distance(desired, s'.zone) == Distance(desired, s.zone) - k
            && (s'.managed.None? <==> Applied(settled).None? && Previous(settled).None?)
            && (s'.managed.Some? ==> s'.managed.value.pending.None? && Applied(s'.managed) == Applied(settled))
  {
    var z, target := s.zone, TargetOf(desired, s.zone);
    DoneIsReached(desired, z);
    if desired.absent { ActualOf(desired, z); }
    ChangeCount(desired, z, order);
    RefusedPassLeaves(desired, s, order, k, cut, settleSecs);
    ChangeAdvances(desired, z, order, k);
  }

  lemma RefusedPassLeaves(desired: DesiredRecord, s: Durable, order: seq<string>, k: nat, cut: Cut, settleSecs: int)
    requires Resumable(desired, s) && !Reached(desired, Actual(s.zone))
    requires k <= |Calls(s.zone, TargetOf(desired, s.zone), order)|
    ensures var target := TargetOf(desired, s.zone);
            var settled := Settle(s.managed, Actual(s.zone), cut.generation, cut.now);
            RefusedPass(desired, s, order, k, cut, settleSecs) ==
            Durable(Effects(s.zone, Calls(s.zone, target, order)[..k]),
                    AfterConflict(WithIntent(settled, Actual(s.zone), target, cut.generation, cut.now)))
  {
    PassProceeds(desired, s, cut, settleSecs);
    ActualOf(desired, s.zone);
    assert PassAction(desired, s, cut, settleSecs) == Apply(Actual(s.zone), TargetOf(desired, s.zone));
  }

  lemma ChangeCount(desired: DesiredRecord, z: Zone, order: seq<string>)
    requires SameShape(desired, z) && Enumerates(order, Goal(desired)) && (desired.absent ==> z.records != [])
    ensures |Calls(z, TargetOf(desired, z), order)| == Distance(desired, z)
  {
    ChangeAdvances(desired, z, order, 0);
  }

  /** The pass after a refusal goes on exactly if the records left still are what was applied, or nothing
      is there and nothing was applied, or the entry is gone and the configuration imports the record. */
  lemma ProceedsAfterRefusalExactly(desired: DesiredRecord, s: Durable, order: seq<string>, k: nat, cut: Cut,
                                    next: Cut, settleSecs: int)
    requires Resumable(desired, s) && Enumerates(order, Goal(desired)) && k < Distance(desired, s.zone)
    ensures var s' := RefusedPass(desired, s, order, k, cut, settleSecs);
            var settled := Settle(s.managed, Actual(s.zone), cut.generation, cut.now);
            Proceeds(PassAction(desired, s', next, settleSecs)) <==>
            SameOptional(Actual(s'.zone), Applied(settled)) || Reimports(desired, s'.managed)
  {
    RefusedPassIs(desired, s, order, k, cut, settleSecs);
    ClosedEntryProceeds(desired, RefusedPass(desired, s, order, k, cut, settleSecs), next, settleSecs);
  }

  lemma ClosedEntryProceeds(desired: DesiredRecord, s: Durable, cut: Cut, settleSecs: int)
    requires SameShape(desired, s.zone) && Distance(desired, s.zone) > 0
    requires s.managed.Some? ==> s.managed.value.pending.None?
    ensures Proceeds(PassAction(desired, s, cut, settleSecs)) <==>
            SameOptional(Actual(s.zone), Applied(s.managed)) || Reimports(desired, s.managed)
  {
    DoneIsReached(desired, s.zone);
    ActualOf(desired, s.zone);
  }

  /** The unfinished change, if any, leads to the configured values. */
  predicate HeadsForGoal(desired: DesiredRecord, s: Durable) {
    s.managed.Some? && s.managed.value.pending.Some? ==>
      ValuesOf(s.managed.value.pending.value.desired) == Goal(desired)
  }

  lemma NothingToSettle(desired: DesiredRecord, s: Durable, cut: Cut)
    requires Resumable(desired, s) && HeadsForGoal(desired, s) && Distance(desired, s.zone) > 0
    ensures Settle(s.managed, Actual(s.zone), cut.generation, cut.now) == s.managed
  {
    DoneIsReached(desired, s.zone);
    ActualOf(desired, s.zone);
  }

  /** Passes that do not complete the change keep the record of the last completed one. */
  lemma {:induction false} UnfinishedPasses(desired: DesiredRecord, s: Durable, order: seq<string>, cuts: seq<Cut>,
      settleSecs: int)
    requires Resumable(desired, s) && HeadsForGoal(desired, s) && Enumerates(order, Goal(desired))
    requires TotalCalls(cuts) < Distance(desired, s.zone)
    ensures var s' := Passes(desired, s, order, cuts, settleSecs);
            && Resumable(desired, s') && HeadsForGoal(desired, s')
            && Distance(desired, s'.zone) == Distance(desired, s.zone) - TotalCalls(cuts)
            && Applied(s'.managed) == Applied(s.managed) && Previous(s'.managed) == Previous(s.managed)
    decreases |cuts|
  {
    if cuts != [] {
      var s1 := Pass(desired, s, order, cuts[0], settleSecs);
      NothingToSettle(desired, s, cuts[0]);
      PassResumes(desired, s, order, cuts[0], settleSecs);
      UnfinishedPass(desired, s, order, cuts[0], settleSecs);
      UnfinishedPasses(desired, s1, order, cuts[1..], settleSecs);
    }
  }

  lemma UnfinishedPass(desired: DesiredRecord, s: Durable, order: seq<string>, cut: Cut, settleSecs: int)
    requires Resumable(desired, s) && HeadsForGoal(desired, s) && Enumerates(order, Goal(desired))
    requires cut.calls < Distance(desired, s.zone)
    ensures var s' := Pass(desired, s, order, cut, settleSecs);
            && HeadsForGoal(desired, s')
            && Applied(s'.managed) == Applied(s.managed) && Previous(s'.managed) == Previous(s.managed)
  {
    NothingToSettle(desired, s, cut);
    DoneIsReached(desired, s.zone);
    ChangePassIs(desired, s, order, cut, settleSecs);
    var flag := FlagUsed(desired, s.zone);
    if desired.absent { ActualOf(desired, s.zone); }
    ChangeCount(desired, s.zone, order);
  }

  /** After a completed change and any number of interrupted passes, a refusal is harmless exactly if not
      a single call was made since that change, in whatever pass, or if the entry it drops may be
      imported again. The check before the first call is no exception. */
  lemma RefusalIsHarmlessExactly(desired: DesiredRecord, s: Durable, order: seq<string>, cuts: seq<Cut>, k: nat,
                                 cut: Cut, next: Cut, settleSecs: int)
    requires Resumable(desired, s) && Enumerates(order, Goal(desired))
    requires s.managed.Some? ==> s.managed.value.pending.None?
    requires TotalCalls(cuts) + k < Distance(desired, s.zone)
    ensures var s' := RefusedPass(desired, Passes(desired, s, order, cuts, settleSecs), order, k, cut, settleSecs);
            Proceeds(PassAction(desired, s', next, settleSecs)) <==>
            TotalCalls(cuts) + k == 0
            || (desired.import_ && !desired.absent && Applied(s.managed).None? && Previous(s.managed).None?)
  {
    var s1 := Passes(desired, s, order, cuts, settleSecs);
    var s' := RefusedPass(desired, s1, order, k, cut, settleSecs);
    UnfinishedPasses(desired, s, order, cuts, settleSecs);
    NothingToSettle(desired, s1, cut);
    RefusedPassIs(desired, s1, order, k, cut, settleSecs);
    ProceedsAfterRefusalExactly(desired, s1, order, k, cut, next, settleSecs);
    ActualOf(desired, s.zone);
    ActualOf(desired, s'.zone);
    if TotalCalls(cuts) + k == 0 {
      NoCallsNoChange(desired, s, order, cuts, settleSecs);
    }
  }

  lemma {:induction false} NoCallsNoChange(desired: DesiredRecord, s: Durable, order: seq<string>, cuts: seq<Cut>,
      settleSecs: int)
    requires Resumable(desired, s) && Enumerates(order, Goal(desired)) && TotalCalls(cuts) == 0
    ensures Passes(desired, s, order, cuts, settleSecs).zone == s.zone
    decreases |cuts|
  {
    if cuts != [] {
      PassResumes(desired, s, order, cuts[0], settleSecs);
      if Reached(desired, Actual(s.zone)) {
        DonePass(desired, s, order, cuts[0], settleSecs);
      } else {
        ChangePassIs(desired, s, order, cuts[0], settleSecs);
      }
      NoCallsNoChange(desired, Pass(desired, s, order, cuts[0], settleSecs), order, cuts[1..], settleSecs);
    }
  }

  /** After a harmful refusal no later pass touches the records or the entry again. */
  lemma HarmfulRefusalIsFinal(desired: DesiredRecord, s: Durable, order: seq<string>, cuts: seq<Cut>, k: nat, cut: Cut,
                              later: seq<Cut>, settleSecs: int)
    requires Resumable(desired, s) && Enumerates(order, Goal(desired))
    requires s.managed.Some? ==> s.managed.value.pending.None?
    requires 0 < TotalCalls(cuts) + k < Distance(desired, s.zone)
    requires desired.import_ && !desired.absent ==> Applied(s.managed).Some? || Previous(s.managed).Some?
    ensures var s' := RefusedPass(desired, Passes(desired, s, order, cuts, settleSecs), order, k, cut, settleSecs);
            Passes(desired, s', order, later, settleSecs) == s'
  {
    var s1 := Passes(desired, s, order, cuts, settleSecs);
    var s' := RefusedPass(desired, s1, order, k, cut, settleSecs);
    UnfinishedPasses(desired, s, order, cuts, settleSecs);
    RefusedPassIs(desired, s1, order, k, cut, settleSecs);
    forall next: Cut ensures !Proceeds(PassAction(desired, s', next, settleSecs)) {
      RefusalIsHarmlessExactly(desired, s, order, cuts, k, cut, next, settleSecs);
    }
    StuckStays(desired, s', order, later, settleSecs);
  }

  lemma {:induction false} StuckStays(desired: DesiredRecord, s: Durable, order: seq<string>,
      cuts: seq<Cut>, settleSecs: int)
    requires s.managed.Some? ==> s.managed.value.pending.None?
    requires forall cut: Cut :: !Proceeds(PassAction(desired, s, cut, settleSecs))
    ensures Passes(desired, s, order, cuts, settleSecs) == s
    decreases |cuts|
  {
    if cuts != [] {
      assert !Proceeds(PassAction(desired, s, cuts[0], settleSecs));
      StuckStays(desired, s, order, cuts[1..], settleSecs);
    }
  }

  /** Such a refusal, on a concrete run: the first POST succeeds, the second is refused because another
      tool posted its value, the intent is dropped, and the next pass no longer recognizes its own record. */
  lemma LateRefusalOrphansRecord(z: Zone, a: string, b: string, ttl: nat, flag: bool, cut: Cut, next: Cut,
                                 settleSecs: int)
    requires z.rtype.A? && a != b && z.records == []
    ensures var desired := DesiredRecord(RecordSet(z.name, A, ttl, {a, b}, Some(flag)), false, false);
            var s := RefusedPass(desired, Durable(z, None), [a, b], 1, cut, settleSecs);
            && s == Durable(Effect(z, Post(a, ttl, flag)), None)
            && PassAction(desired, s, next, settleSecs) == Conflict(Unmanaged)
            && var edited := s.(zone := Effect(s.zone, Post(b, ttl, flag)));
               PassAction(desired, edited, next, settleSecs) == Conflict(Unmanaged)
  {
    var desired := DesiredRecord(RecordSet(z.name, A, ttl, {a, b}, Some(flag)), false, false);
    RefusedAtSecondPost(z, a, b, ttl, flag, cut, settleSecs);
    var z1 := Effect(z, Post(a, ttl, flag));
    PostedIsSupported(z, a, b, ttl, flag);
    UnmanagedIsConflict(desired, z1, next, settleSecs);
    UnmanagedIsConflict(desired, Effect(z1, Post(b, ttl, flag)), next, settleSecs);
  }

  lemma PostedIsSupported(z: Zone, a: string, b: string, ttl: nat, flag: bool)
    requires z.rtype.A? && a != b && z.records == []
    ensures var z1 := Effect(z, Post(a, ttl, flag));
            var z2 := Effect(z1, Post(b, ttl, flag));
            z1.records != [] && !Unsupported(z1.records) && z2.records != [] && !Unsupported(z2.records)
  {
    var z1 := Effect(z, Post(a, ttl, flag));
    var z2 := Effect(z1, Post(b, ttl, flag));
    assert Uniform(z.(nextId := z.nextId), ttl, Reported(z, flag));
    OnePost(z, a, ttl, flag);
    OnePost(z1, b, ttl, flag);
    UniformIsSupported(z1, ttl, Reported(z, flag));
    UniformIsSupported(z2, ttl, Reported(z, flag));
  }

  lemma UnmanagedIsConflict(desired: DesiredRecord, z: Zone, cut: Cut, settleSecs: int)
    requires !desired.import_ && !desired.absent && z.records != [] && !Unsupported(z.records)
    ensures PassAction(desired, Durable(z, None), cut, settleSecs) == Conflict(Unmanaged)
  {
  }

  lemma RefusedAtSecondPost(z: Zone, a: string, b: string, ttl: nat, flag: bool, cut: Cut, settleSecs: int)
    requires z.rtype.A? && a != b && z.records == []
    ensures var desired := DesiredRecord(RecordSet(z.name, A, ttl, {a, b}, Some(flag)), false, false);
            RefusedPass(desired, Durable(z, None), [a, b], 1, cut, settleSecs) ==
            Durable(Effect(z, Post(a, ttl, flag)), None)
  {
    var desired := DesiredRecord(RecordSet(z.name, A, ttl, {a, b}, Some(flag)), false, false);
    TwoPosts(a, b, ttl, flag);
    var calls := [Post(a, ttl, flag), Post(b, ttl, flag)];
    assert PassAction(desired, Durable(z, None), cut, settleSecs) == Apply(None, Some(desired.set_));
    assert Obsolete(z.records, {a, b}) == [] && calls + [] == calls;
    assert Calls(z, Some(desired.set_), [a, b]) == calls;
    assert Effects(z, calls[..0]) == z;
    EffectsNext(z, calls, 0);
  }

  lemma TwoPosts(a: string, b: string, ttl: nat, flag: bool)
    ensures Writes([], A, ttl, flag, [a, b]) == [Post(a, ttl, flag), Post(b, ttl, flag)]
  {
    assert [a, b][1..] == [b] && [b][1..] == [];
    assert Writes([], A, ttl, flag, [b]) == [Post(b, ttl, flag)] by { assert Writes([], A, ttl, flag, [b][1..]) == []; }
  }
}
