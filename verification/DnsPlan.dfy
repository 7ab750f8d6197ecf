/** DNS record sets as configured, observed at a provider and recorded as managed,
    and the decision that compares them (dns/mod.rs, dns/plan.rs). */
module DnsPlan {
  import opened Wrappers

  datatype RecordType = A | Aaaa | Cname | Txt

  /** All values for one (name, type), normalized. */
  datatype RecordSet = RecordSet(
    name: string, rtype: RecordType, ttl: nat, values: set<string>, proxied: Option<bool>)

  /** Same DNS data; the proxy flag is compared only when both sides specify it. */
  predicate SameData(a: RecordSet, b: RecordSet) {
    && a.name == b.name && a.rtype == b.rtype && a.ttl == b.ttl && a.values == b.values
    && (a.proxied.Some? && b.proxied.Some? ==> a.proxied == b.proxied)
  }

  predicate SameOptional(a: Option<RecordSet>, b: Option<RecordSet>) {
    match (a, b)
    case (None, None) => true
    case (Some(x), Some(y)) => SameData(x, y)
    case _ => false
  }

  datatype Observed = Observed(set_: RecordSet, unsupported: bool)

  function SetOf(observed: Option<Observed>): Option<RecordSet> {
    if observed.Some? then Some(observed.value.set_) else None
  }

  datatype DesiredRecord = DesiredRecord(set_: RecordSet, import_: bool, absent: bool)

  datatype Ticket = Ticket(changeId: nat)

  datatype PendingChange = PendingChange(
    expected: Option<RecordSet>, desired: Option<RecordSet>, ticket: Option<Ticket>, startedAt: int)

  datatype ManagedRecord = ManagedRecord(
    applied: Option<RecordSet>, previous: Option<RecordSet>, generation: nat,
    pending: Option<PendingChange>, updatedAt: int)

  datatype ConflictReason =
    | CannotBeManaged | ChangedDuringChange | ChangedOutside | RefusingToDelete | Unmanaged
    | ProviderRefused

  datatype Action =
    | NoChange
    | Apply(expected: Option<RecordSet>, target: Option<RecordSet>)
    | Adopt(current: RecordSet)
    | Forget
    | Wait
    | Conflict(reason: ConflictReason)

  /** Keep the provider's proxy setting when the configuration does not specify one. */
  function WithCurrentProxied(desired: RecordSet, current: Option<RecordSet>): RecordSet {
    if desired.proxied.Some? || current.None? then desired
    else desired.(proxied := current.value.proxied)
  }

  function ValuesOf(s: Option<RecordSet>): set<string> {
    if s.Some? then s.value.values else {}
  }

  /** Whether `actual` could be an intermediate state of a change from `from` to `to`. */
  predicate IsBetween(actual: Option<RecordSet>, from: Option<RecordSet>, to: Option<RecordSet>) {
    && ValuesOf(actual) <= ValuesOf(from) + ValuesOf(to)
    && ValuesOf(from) * ValuesOf(to) <= ValuesOf(actual)
    && (actual.Some? ==>
          || (from.Some? && from.value.ttl == actual.value.ttl)
          || (to.Some? && to.value.ttl == actual.value.ttl))
  }

  /** The provider already has what the configuration asks for. */
  predicate Reached(desired: DesiredRecord, actual: Option<RecordSet>) {
    if desired.absent then actual.None?
    else actual.Some? && SameData(actual.value, WithCurrentProxied(desired.set_, actual))
  }

  function Decide(desired: DesiredRecord, observed: Option<Observed>, managed: Option<ManagedRecord>,
                  now: int, settleSecs: int): Action
  {
    if observed.Some? && observed.value.unsupported then Conflict(CannotBeManaged)
    else
      var actual := SetOf(observed);
      match managed
      case Some(record) =>
        if Reached(desired, actual) then Proceed(desired, actual, true)
        else (match record.pending
              case Some(pending) =>
                if IsBetween(actual, pending.expected, pending.desired) then Proceed(desired, actual, true)
                else if now - pending.startedAt < settleSecs then Wait
                else Conflict(ChangedDuringChange)
              case None =>
                if SameOptional(actual, record.applied) then Proceed(desired, actual, true)
                else if now - record.updatedAt < settleSecs then Wait
                else Conflict(ChangedOutside))
      case None =>
        if actual.None? then Proceed(desired, actual, false)
        else if desired.absent then Conflict(RefusingToDelete)
        else if !desired.import_ then Conflict(Unmanaged)
        else
          var target := WithCurrentProxied(desired.set_, actual);
          if SameData(actual.value, target) then Adopt(actual.value) else Apply(actual, Some(target))
  }

  /** The last step of the decision, once nothing forbids a change. */
  function Proceed(desired: DesiredRecord, actual: Option<RecordSet>, managed: bool): Action {
    match (actual, desired.absent)
    case (None, true) => if managed then Forget else NoChange
    case (Some(_), true) => Apply(actual, None)
    case (None, false) => Apply(None, Some(desired.set_))
    case (Some(current), false) =>
      var target := WithCurrentProxied(desired.set_, actual);
      if SameData(current, target) then NoChange else Apply(actual, Some(target))
  }

  // ----- Bookkeeping of one managed record (dns/reconciler.rs) -----

  function CompleteChange(entry: ManagedRecord, expected: Option<RecordSet>, desired: Option<RecordSet>,
                          generation: nat, now: int): ManagedRecord
  {
    ManagedRecord(desired, expected, generation, None, now)
  }

  function FinishPending(entry: ManagedRecord, generation: nat, now: int): ManagedRecord {
    match entry.pending
    case Some(p) => CompleteChange(entry, p.expected, p.desired, generation, now)
    case None => entry
  }

  /** An interrupted immediate change that actually completed is closed before deciding. */
  function Settle(managed: Option<ManagedRecord>, actual: Option<RecordSet>, generation: nat, now: int)
    : Option<ManagedRecord>
  {
    if managed.Some? && managed.value.pending.Some? && managed.value.pending.value.ticket.None?
       && SameOptional(actual, managed.value.pending.value.desired)
    then Some(FinishPending(managed.value, generation, now))
    else managed
  }

  /** What `NoChange` records when the provider converged by other means. */
  function NoteConverged(entry: ManagedRecord, actual: Option<RecordSet>, now: int): ManagedRecord {
    if entry.pending.Some? || !SameOptional(actual, entry.applied)
    then entry.(applied := actual, pending := None, updatedAt := now)
    else entry
  }

  /** The entry as it is saved before the provider is touched. */
  function WithIntent(managed: Option<ManagedRecord>, expected: Option<RecordSet>, target: Option<RecordSet>,
                      generation: nat, now: int): ManagedRecord
  {
    var entry := managed.GetOr(ManagedRecord(None, None, generation, None, now));
    entry.(pending := Some(PendingChange(expected, target, None, now)))
  }

  /** What is left of the entry when the provider refuses the change. */
  function AfterConflict(entry: ManagedRecord): Option<ManagedRecord> {
    if entry.applied.None? && entry.previous.None? then None else Some(entry.(pending := None))
  }

  // ----- Properties of the comparison -----

  lemma SameDataSymmetric(a: RecordSet, b: RecordSet)
    ensures SameData(a, a)
    ensures SameData(a, b) <==> SameData(b, a)
  {
  }

  /** `SameData` is not transitive exactly where an unspecified flag hides two different ones. */
  lemma SameDataChains(a: RecordSet, b: RecordSet, c: RecordSet)
    requires SameData(a, b) && SameData(b, c)
    ensures SameData(a, c) <==> !(b.proxied.None? && a.proxied.Some? && c.proxied.Some? && a.proxied != c.proxied)
  {
  }

  /** The four situations in which a write may be planned. */
  predicate MayReplace(desired: DesiredRecord, actual: Option<RecordSet>, managed: Option<ManagedRecord>) {
    match managed
    case None => actual.None? || (desired.import_ && !desired.absent)
    case Some(record) =>
      match record.pending
      case Some(p) => IsBetween(actual, p.expected, p.desired)
      case None => SameOptional(actual, record.applied)
  }

  /** The set the configuration asks for, given what is there. */
  function TargetFor(desired: DesiredRecord, actual: Option<RecordSet>): Option<RecordSet> {
    if desired.absent then None else Some(WithCurrentProxied(desired.set_, actual))
  }

  /** A write is planned exactly for a supported record that differs from the configuration and
      that Sieve Tube may replace; it is always conditional on what was just observed, and its
      target is what the configuration asks for. */
  lemma ApplyExactly(desired: DesiredRecord, observed: Option<Observed>, managed: Option<ManagedRecord>,
                     now: int, settleSecs: int)
    ensures Decide(desired, observed, managed, now, settleSecs).Apply? <==>
            && !(observed.Some? && observed.value.unsupported)
            && !Reached(desired, SetOf(observed))
            && MayReplace(desired, SetOf(observed), managed)
    ensures var action := Decide(desired, observed, managed, now, settleSecs);
            action.Apply? ==>
              && action.expected == SetOf(observed)
              && action.target == TargetFor(desired, SetOf(observed))
              && Reached(desired, action.target)
  {
  }

  // ----- The decision in terms of values, TTL and flag -----

  /** The provider has what the configuration asks for, field by field. */
  ghost predicate AsConfigured(desired: DesiredRecord, actual: Option<RecordSet>) {
    if desired.absent then actual.None?
    else
      && actual.Some? && actual.value.name == desired.set_.name && actual.value.rtype == desired.set_.rtype
      && actual.value.ttl == desired.set_.ttl
      && (forall v :: v in actual.value.values <==> v in desired.set_.values)
      && (desired.set_.proxied.None? || actual.value.proxied.None? || desired.set_.proxied == actual.value.proxied)
  }

  lemma ReachedIsAsConfigured(desired: DesiredRecord, actual: Option<RecordSet>)
    ensures Reached(desired, actual) <==> AsConfigured(desired, actual)
  {
    if AsConfigured(desired, actual) && !desired.absent {
      assert actual.value.values == desired.set_.values;
    }
  }

  /** Every value comes from one end of the change, none that both ends have is missing, and the TTL is
      that of one end. */
  ghost predicate OnlyOwnValues(actual: Option<RecordSet>, p: PendingChange) {
    && (forall v :: v in ValuesOf(actual) ==> v in ValuesOf(p.expected) || v in ValuesOf(p.desired))
    && (forall v :: v in ValuesOf(p.expected) && v in ValuesOf(p.desired) ==> v in ValuesOf(actual))
    && (actual.Some? ==>
          || (p.expected.Some? && actual.value.ttl == p.expected.value.ttl)
          || (p.desired.Some? && actual.value.ttl == p.desired.value.ttl))
  }

  lemma BetweenMeansOwnValues(actual: Option<RecordSet>, p: PendingChange)
    ensures IsBetween(actual, p.expected, p.desired) <==> OnlyOwnValues(actual, p)
  {
  }

  /** A managed record that is not as configured, while a change is unfinished: written exactly when it holds
      only values of that change, left to settle for the time given, and a conflict after that. */
  lemma UnfinishedChangeDecision(desired: DesiredRecord, observed: Option<Observed>, record: ManagedRecord, now: int,
                                 settleSecs: int)
    requires record.pending.Some? && (observed.Some? ==> !observed.value.unsupported)
    requires !AsConfigured(desired, SetOf(observed))
    ensures var action := Decide(desired, observed, Some(record), now, settleSecs);
            var p := record.pending.value;
            && (action.Apply? <==> OnlyOwnValues(SetOf(observed), p))
            && (action.Wait? <==> !OnlyOwnValues(SetOf(observed), p) && now < p.startedAt + settleSecs)
            && (action == Conflict(ChangedDuringChange) <==>
                !OnlyOwnValues(SetOf(observed), p) && p.startedAt + settleSecs <= now)
  {
    ReachedIsAsConfigured(desired, SetOf(observed));
    BetweenMeansOwnValues(SetOf(observed), record.pending.value);
  }

  /** The same without an unfinished change: what counts is what was last applied. */
  lemma SettledRecordDecision(desired: DesiredRecord, observed: Option<Observed>, record: ManagedRecord, now: int,
                              settleSecs: int)
    requires record.pending.None? && (observed.Some? ==> !observed.value.unsupported)
    requires !AsConfigured(desired, SetOf(observed))
    ensures var action := Decide(desired, observed, Some(record), now, settleSecs);
            var applied := SameOptional(SetOf(observed), record.applied);
            && (action.Apply? <==> applied)
            && (action.Wait? <==> !applied && now < record.updatedAt + settleSecs)
            && (action == Conflict(ChangedOutside) <==> !applied && record.updatedAt + settleSecs <= now)
  {
    ReachedIsAsConfigured(desired, SetOf(observed));
  }

  /** A value of neither end, one that both ends have and is missing, or a TTL of neither: never written over. */
  lemma StrangeSetIsLeftAlone(desired: DesiredRecord, observed: Option<Observed>, record: ManagedRecord, v: string,
                              now: int, settleSecs: int)
    requires record.pending.Some? && !AsConfigured(desired, SetOf(observed))
    requires var actual, p := ValuesOf(SetOf(observed)), record.pending.value;
             || (v in actual && v !in ValuesOf(p.expected) && v !in ValuesOf(p.desired))
             || (v !in actual && v in ValuesOf(p.expected) && v in ValuesOf(p.desired))
             || (observed.Some? &&
                 (p.expected.Some? ==> p.expected.value.ttl != observed.value.set_.ttl) &&
                 (p.desired.Some? ==> p.desired.value.ttl != observed.value.set_.ttl))
    ensures var action := Decide(desired, observed, Some(record), now, settleSecs);
            action.Wait? || action.Conflict?
  {
    if !(observed.Some? && observed.value.unsupported) {
      UnfinishedChangeDecision(desired, observed, record, now, settleSecs);
    }
  }

  /** A managed record that is as configured needs no write: it is forgotten once it is gone on purpose. */
  lemma ConvergedDecision(desired: DesiredRecord, observed: Option<Observed>, record: ManagedRecord, now: int,
                          settleSecs: int)
    requires (observed.Some? ==> !observed.value.unsupported) && AsConfigured(desired, SetOf(observed))
    ensures Decide(desired, observed, Some(record), now, settleSecs) == if desired.absent then Forget else NoChange
  {
    ReachedIsAsConfigured(desired, SetOf(observed));
  }

  /** A record that is not managed: created when it is missing, never deleted, and taken over only on request. */
  lemma UnmanagedDecision(desired: DesiredRecord, observed: Option<Observed>, now: int, settleSecs: int)
    requires observed.Some? ==> !observed.value.unsupported
    ensures Decide(desired, observed, None, now, settleSecs) ==
            if observed.None? then (if desired.absent then NoChange else Apply(None, Some(desired.set_)))
            else if desired.absent then Conflict(RefusingToDelete)
            else if !desired.import_ then Conflict(Unmanaged)
            else if AsConfigured(desired, SetOf(observed)) then Adopt(observed.value.set_)
            else Apply(SetOf(observed), TargetFor(desired, SetOf(observed)))
  {
    ReachedIsAsConfigured(desired, SetOf(observed));
  }

  /** A record found as configured ends what was unfinished: the entry then records the data that is there. It is
      rewritten only when that is news. */
  lemma ConvergedIsNoted(entry: ManagedRecord, actual: Option<RecordSet>, now: int)
    ensures var noted := NoteConverged(entry, actual, now);
            && noted.pending.None? && SameOptional(actual, noted.applied)
            && noted.previous == entry.previous && noted.generation == entry.generation
            && (noted == entry || (noted.applied == actual && noted.updatedAt == now))
            && (entry.pending.None? && SameOptional(actual, entry.applied) ==> noted == entry)
            && (entry.pending.Some? || !SameOptional(actual, entry.applied) ==> noted.updatedAt == now)
  {
    if actual.Some? { SameDataSymmetric(actual.value, actual.value); }
  }
}
