/** Reconciliation against a provider whose record sets change atomically and conditionally:
    the in-memory provider and Route 53 with its change tickets (dns/reconciler.rs, dns/memory.rs). */
module Reconciler {
  import opened Wrappers
  import opened DnsPlan

  datatype Key = Key(name: string, rtype: RecordType)

  // ----- The conditional provider -----

  /** `tracked` providers answer with a ticket that is pending until the change is in sync. */
  datatype Provider = Provider(records: map<Key, Observed>, tickets: map<nat, bool>, tracked: bool, writes: nat)

  datatype Answer = Refused | Immediate | Submitted(ticket: Ticket)

  function SetAt(p: Provider, key: Key): Option<RecordSet> { SetOf(Lookup(p.records, key)) }

  predicate Refuses(p: Provider, key: Key, expected: Option<RecordSet>) {
    || (key in p.records && p.records[key].unsupported)
    || !SameOptional(SetAt(p, key), expected)
  }

  /** What the provider keeps of a requested set: it fills in an unspecified proxy flag. */
  function Stored(set_: RecordSet, rtype: RecordType, current: Option<RecordSet>): RecordSet {
    if set_.proxied.Some? || rtype.Txt? then set_
    else set_.(proxied := if current.Some? && current.value.proxied.Some? then current.value.proxied else Some(false))
  }

  function Written(p: Provider, key: Key, target: Option<RecordSet>): Provider {
    p.(records := if target.Some? then p.records[key := Observed(Stored(target.value, key.rtype, SetAt(p, key)), false)]
                  else p.records - {key},
       writes := p.writes + 1,
       tickets := if p.tracked then p.tickets[p.writes + 1 := false] else p.tickets)
  }

  function Replace(p: Provider, key: Key, expected: Option<RecordSet>, target: Option<RecordSet>): (Provider, Answer) {
    if Refuses(p, key, expected) then (p, Refused)
    else (Written(p, key, target), if p.tracked then Submitted(Ticket(p.writes + 1)) else Immediate)
  }

  predicate Synced(p: Provider, t: Ticket) { t.changeId in p.tickets && p.tickets[t.changeId] }

  /** A provider that accepts a change keeps exactly the requested set, fills in only a flag that was left open, and
      only where the type has one: the flag in use, else unproxied. Only a tracked one gives out a ticket, a new one
      that is not in sync yet. */
  lemma ReplaceIs(p: Provider, key: Key, expected: Option<RecordSet>, target: Option<RecordSet>)
    requires forall id :: id in p.tickets ==> id <= p.writes
    ensures var (p', answer) := Replace(p, key, expected, target);
            var current := SetAt(p, key);
            && (answer.Refused? <==>
                (key in p.records && p.records[key].unsupported) || !SameOptional(current, expected))
            && (answer.Refused? ==> p' == p)
            && (forall k :: k != key ==> Lookup(p'.records, k) == Lookup(p.records, k))
            && (!answer.Refused? ==>
                  && (answer.Submitted? <==> p.tracked)
                  && (p.tracked ==> answer.ticket.changeId !in p.tickets && !Synced(p', answer.ticket))
                  && (forall id :: id in p.tickets ==> id in p'.tickets && p'.tickets[id] == p.tickets[id])
                  && (!p.tracked ==> p'.tickets == p.tickets)
                  && (key in p'.records <==> target.Some?)
                  && (target.Some? ==>
                        && !p'.records[key].unsupported
                        && p'.records[key].set_ == target.value.(proxied := p'.records[key].set_.proxied)
                        && IsFlag(p'.records[key].set_.proxied, target.value.proxied, key.rtype, current)))
  {
  }

  predicate IsFlag(kept: Option<bool>, asked: Option<bool>, rtype: RecordType, current: Option<RecordSet>) {
    if asked.Some? || rtype.Txt? then kept == asked
    else kept == if current.Some? && current.value.proxied.Some? then current.value.proxied else Some(false)
  }

  // ----- One reconciling Edge, step by step -----

  datatype Pc =
    | Idle
    | Ready
    | Intending(key: Key, plan: Plan)
    | Writing(key: Key, plan: Plan)

  /** A planned write. `was` is the entry the pass found, `basis` the one the decision is based on. */
  datatype Plan = Plan(
    expected: Option<RecordSet>, target: Option<RecordSet>, was: Option<ManagedRecord>, basis: Option<ManagedRecord>,
    now: int)

  /** A write the provider carried out: what it replaced, why it was planned, the ticket it got, and the
      tickets at the provider and those that were lost when it was made. */
  datatype LogEntry = LogEntry(
    key: Key, replaced: Option<RecordSet>, plan: Plan, desired: DesiredRecord, ticket: Option<nat>,
    tickets: map<nat, bool>, lost: set<nat>)

  /** History: `ours` are records Sieve Tube accounts for, `unsaved` tickets that are only in memory,
      `lost` tickets that were never saved. */
  datatype World = World(
    config: map<Key, DesiredRecord>, settleSecs: int, generation: nat,
    disk: map<Key, ManagedRecord>, mem: map<Key, ManagedRecord>,
    provider: Provider, pc: Pc, log: seq<LogEntry>, ours: set<Key>, unsaved: set<nat>, lost: set<nat>)

  datatype Event =
    | Load(generation: nat)
    | Inspect(key: Key, now: int, answers: bool)
    | SaveIntent
    | SaveFails
    | Write(fate: Fate)
    | FinalSave
    | Crash
    | Sync(changeId: nat)
    | Edit(key: Key, to: Option<Observed>)
    | Reconfigure(config: map<Key, DesiredRecord>)
    | OtherWriter(disk: map<Key, ManagedRecord>, records: map<Key, Observed>, tickets: map<nat, bool>, writes: nat)

  /** The write is answered, or its answer is lost with or without the write taking effect. */
  datatype Fate = Answered | LostAfter | LostBefore

  ghost predicate ValidConfig(config: map<Key, DesiredRecord>) {
    forall k :: k in config ==> config[k].set_.name == k.name && config[k].set_.rtype == k.rtype
  }

  ghost predicate Enabled(w: World, e: Event) {
    match e
    case Load(_) => w.pc.Idle?
    case Inspect(key, _, _) => w.pc.Ready? && key in w.config
    case SaveIntent => w.pc.Intending?
    case SaveFails => w.pc.Intending?
    case Write(_) => w.pc.Writing?
    case FinalSave => w.pc.Ready?
    case Crash => true
    case Sync(_) => true
    case Edit(_, _) => true
    case Reconfigure(config) => w.pc.Idle? && ValidConfig(config)
    case OtherWriter(_, _, tickets, _) =>
      forall id :: id in w.provider.tickets && w.provider.tickets[id] ==> id in tickets && tickets[id]
  }

  /** Waiting for a submitted change; nothing else is looked at. */
  predicate TicketPending(p: Provider, m: Option<ManagedRecord>) {
    && m.Some? && m.value.pending.Some? && m.value.pending.value.ticket.Some?
    && !Synced(p, m.value.pending.value.ticket.value)
  }

  /** The entry the decision is based on: a change in sync is closed, and so is an interrupted
      immediate change that completed. */
  function Basis(p: Provider, m: Option<ManagedRecord>, actual: Option<RecordSet>, generation: nat, now: int)
    : Option<ManagedRecord>
  {
    var polled := if m.Some? && m.value.pending.Some? && m.value.pending.value.ticket.Some?
                  then Some(FinishPending(m.value, generation, now)) else m;
    Settle(polled, actual, generation, now)
  }

  function WithEntry(mem: map<Key, ManagedRecord>, key: Key, m: Option<ManagedRecord>): map<Key, ManagedRecord> {
    if m.Some? then mem[key := m.value] else mem - {key}
  }

  function ActionFor(w: World, key: Key, now: int): Action
    requires key in w.config
  {
    var m := Lookup(w.mem, key);
    if TicketPending(w.provider, m) then Wait
    else Decide(w.config[key], Lookup(w.provider.records, key),
                Basis(w.provider, m, SetAt(w.provider, key), w.generation, now), now, w.settleSecs)
  }

  function Inspected(w: World, key: Key, now: int): World
    requires key in w.config
  {
    var m, actual := Lookup(w.mem, key), SetAt(w.provider, key);
    if TicketPending(w.provider, m) then w
    else
      var basis := Basis(w.provider, m, actual, w.generation, now);
      match ActionFor(w, key, now)
      case NoChange =>
        w.(mem := WithEntry(w.mem, key, if basis.Some? then Some(NoteConverged(basis.value, actual, now)) else None))
      case Adopt(current) =>
        w.(mem := w.mem[key := ManagedRecord(Some(current), None, w.generation, None, now)])
      case Forget => w.(mem := w.mem - {key})
      case Apply(expected, target) =>
        w.(mem := WithEntry(w.mem, key, basis), pc := Intending(key, Plan(expected, target, m, basis, now)))
      case _ => w.(mem := WithEntry(w.mem, key, basis))
  }

  function Intent(w: World): ManagedRecord
    requires w.pc.Intending? || w.pc.Writing?
  {
    WithIntent(w.pc.plan.basis, w.pc.plan.expected, w.pc.plan.target, w.generation, w.pc.plan.now)
  }

  function IntentSaved(w: World): World
    requires w.pc.Intending?
  {
    var mem := w.mem[w.pc.key := Intent(w)];
    w.(mem := mem, disk := mem, unsaved := {}, pc := Writing(w.pc.key, w.pc.plan))
  }

  function EntryAfter(w: World, entry: ManagedRecord, answer: Answer): Option<ManagedRecord>
    requires w.pc.Writing?
  {
    match answer
    case Immediate =>
      Some(CompleteChange(entry, w.pc.plan.expected, w.pc.plan.target, w.generation, w.pc.plan.now))
    case Submitted(ticket) =>
      Some(if entry.pending.Some? then entry.(pending := Some(entry.pending.value.(ticket := Some(ticket)))) else entry)
    case Refused => AfterConflict(entry)
  }

  /** The write is carried out. */
  function CarriedOut(w: World): World
    requires w.pc.Writing? && w.pc.key in w.config
  {
    var ticket := if w.provider.tracked then Some(w.provider.writes + 1) else None;
    var l := LogEntry(w.pc.key, SetAt(w.provider, w.pc.key), w.pc.plan, w.config[w.pc.key], ticket,
                      w.provider.tickets, w.lost);
    w.(provider := Written(w.provider, w.pc.key, w.pc.plan.target), log := w.log + [l], ours := w.ours + {w.pc.key},
       pc := Ready)
  }

  function TicketSet(w: World): set<nat> { if w.provider.tracked then {w.provider.writes + 1} else {} }

  function WriteDone(w: World, fate: Fate): World
    requires w.pc.Writing? && w.pc.key in w.config
  {
    var answer := Replace(w.provider, w.pc.key, w.pc.plan.expected, w.pc.plan.target).1;
    var after := if answer.Refused? then w.(pc := Ready) else CarriedOut(w);
    match fate
    case LostBefore => w.(pc := Ready)
    case LostAfter => if answer.Refused? then after else after.(lost := w.lost + TicketSet(w))
    case Answered =>
      var mem := if w.pc.key in w.mem then WithEntry(w.mem, w.pc.key, EntryAfter(w, w.mem[w.pc.key], answer))
                 else w.mem;
      after.(mem := mem, unsaved := if answer.Refused? then w.unsaved else w.unsaved + TicketSet(w))
  }

  function Next(w: World, e: Event): World {
    match e
    case Load(generation) => w.(mem := w.disk, generation := generation, pc := Ready)
    case Inspect(key, now, answers) => if answers && key in w.config then Inspected(w, key, now) else w
    case SaveIntent => if w.pc.Intending? then IntentSaved(w) else w
    case SaveFails => if w.pc.Intending? then w.(mem := w.mem[w.pc.key := Intent(w)], pc := Ready) else w
    case Write(fate) => if w.pc.Writing? && w.pc.key in w.config then WriteDone(w, fate) else w
    case FinalSave => w.(disk := w.mem, unsaved := {}, pc := Idle)
    case Crash => w.(pc := Idle, lost := w.lost + w.unsaved, unsaved := {})
    case Sync(id) =>
      if id in w.provider.tickets then w.(provider := w.provider.(tickets := w.provider.tickets[id := true])) else w
    case Edit(key, to) =>
      var records := if to.Some? then w.provider.records[key := to.value] else w.provider.records - {key};
      w.(provider := w.provider.(records := records))
    case Reconfigure(config) => w.(config := config)
    case OtherWriter(disk, records, tickets, writes) =>
      w.(disk := disk, provider := w.provider.(records := records, tickets := tickets, writes := writes))
  }

  ghost predicate Allowed(w: World, es: seq<Event>)
    decreases |es|
  {
    es == [] || (Enabled(w, es[0]) && Allowed(Next(w, es[0]), es[1..]))
  }

  function Run(w: World, es: seq<Event>): World
    decreases |es|
  {
    if es == [] then w else Run(Next(w, es[0]), es[1..])
  }

  ghost predicate Reaches(w: World, es: seq<Event>, w': World) { Allowed(w, es) && Run(w, es) == w' }

  lemma {:induction false} ReachesNext(w: World, es: seq<Event>, mid: World, e: Event)
    requires Reaches(w, es, mid) && Enabled(mid, e)
    ensures Reaches(w, es + [e], Next(mid, e))
    decreases |es|
  {
    if es == [] {
      assert [e][1..] == [];
    } else {
      ConcatTail(es, [e]);
      ReachesNext(Next(w, es[0]), es[1..], mid, e);
    }
  }

  /** A pass that gets as far as saving its intent. */
  function UpToIntent(generation: nat, key: Key, now: int): seq<Event> {
    [] + [Load(generation)] + [Inspect(key, now, true)] + [SaveIntent]
  }

  lemma UpToIntentIs(w: World, es: seq<Event>, mid: World, generation: nat, key: Key, now: int)
    requires Reaches(w, es, mid) && mid.pc.Idle? && key in mid.config
    requires Inspected(mid.(mem := mid.disk, generation := generation, pc := Ready), key, now).pc.Intending?
    ensures var ready := mid.(mem := mid.disk, generation := generation, pc := Ready);
            Reaches(w, es + UpToIntent(generation, key, now), IntentSaved(Inspected(ready, key, now)))
  {
    var ready := Next(mid, Load(generation));
    ReachesNext(w, es, mid, Load(generation));
    ReachesNext(w, es + [Load(generation)], ready, Inspect(key, now, true));
    ReachesNext(w, es + [Load(generation)] + [Inspect(key, now, true)], Inspected(ready, key, now), SaveIntent);
    assert es + UpToIntent(generation, key, now) ==
           es + [Load(generation)] + [Inspect(key, now, true)] + [SaveIntent];
  }

  /** What an interruption leaves: a crash only what was saved; a failed save the intent in memory, without a write;
      a write that did not take effect nothing but the saved intent. A change that comes into sync stays in sync. */
  lemma InterruptionsLeave(w: World, generation: nat, changeId: nat)
    ensures var w' := Next(Next(w, Crash), Load(generation));
            && w'.mem == w.disk && w'.disk == w.disk && w'.provider == w.provider && w'.log == w.log && w'.pc.Ready?
            && w'.lost == w.lost + w.unsaved
    ensures w.pc.Intending? ==>
              var w' := Next(w, SaveFails);
              && w'.disk == w.disk && w'.provider == w.provider && w'.log == w.log && w'.pc.Ready?
              && w'.mem == w.mem[w.pc.key := Intent(w)]
    ensures w.pc.Writing? && w.pc.key in w.config ==> Next(w, Write(LostBefore)) == w.(pc := Ready)
    ensures var w' := Next(w, Sync(changeId));
            && (changeId in w.provider.tickets ==> w'.provider.tickets == w.provider.tickets[changeId := true])
            && w' == w.(provider := w.provider.(tickets := w'.provider.tickets))
  {
  }

  // ----- Every write is justified, whatever is edited in between -----

  /** Why a set may be replaced: nothing is there, it is being imported, it lies between the
      endpoints of an unfinished change of our own, or it matches what we last applied. */
  ghost predicate Justified(l: LogEntry) {
    match l.plan.basis
    case None => l.replaced.None? || (l.desired.import_ && !l.desired.absent)
    case Some(m) =>
      match m.pending
      case Some(p) => IsBetween(l.replaced, p.expected, p.desired)
      case None => SameOptional(l.replaced, l.plan.expected) && SameOptional(l.plan.expected, m.applied)
  }

  function TicketOf(m: Option<ManagedRecord>): Option<Ticket> {
    if m.Some? && m.value.pending.Some? then m.value.pending.value.ticket else None
  }

  predicate InSync(tickets: map<nat, bool>, id: nat) { id in tickets && tickets[id] }

  /** The decision behind a planned write; nothing it depends on changes before the write, and the
      change the entry was waiting for is in sync. */
  ghost predicate Planned(w: World, key: Key, plan: Plan) {
    && key in w.config
    && MayReplace(w.config[key], plan.expected, plan.basis)
    && !Reached(w.config[key], plan.expected) && plan.target == TargetFor(w.config[key], plan.expected)
    && TicketOf(plan.basis).None?
    && (TicketOf(plan.was).Some? ==> Synced(w.provider, TicketOf(plan.was).value))
  }

  ghost predicate Warranted(l: LogEntry) {
    && Justified(l)
    && (l.plan.target.None? ==> l.plan.basis.Some?)
    && !Reached(l.desired, l.plan.expected) && l.plan.target == TargetFor(l.desired, l.plan.expected)
    && Reached(l.desired, l.plan.target)
    && (TicketOf(l.plan.was).Some? ==> InSync(l.tickets, TicketOf(l.plan.was).value.changeId))
  }

  ghost predicate WriteInv(w: World) {
    && (w.pc.Intending? || w.pc.Writing? ==> Planned(w, w.pc.key, w.pc.plan))
    && forall l :: l in w.log ==> Warranted(l)
  }

  /** An inspection touches the entry of its record only, and leaves a submitted change alone. */
  lemma InspectTouches(w: World, key: Key, now: int)
    requires key in w.config
    ensures var w' := Inspected(w, key, now);
            && w' == w.(mem := w'.mem, pc := w'.pc)
            && (forall k :: k != key ==> Lookup(w'.mem, k) == Lookup(w.mem, k))
            && (w'.pc == w.pc || (w'.pc.Intending? && w'.pc.key == key))
            && (TicketPending(w.provider, Lookup(w.mem, key)) ==> w' == w)
  {
  }

  /** Whatever it does about another change, no ticket is left in the entry. */
  lemma InspectClosesTicket(w: World, key: Key, now: int)
    requires key in w.config && !TicketPending(w.provider, Lookup(w.mem, key))
    ensures TicketOf(Lookup(Inspected(w, key, now).mem, key)).None?
  {
    var basis := Basis(w.provider, Lookup(w.mem, key), SetAt(w.provider, key), w.generation, now);
    assert TicketOf(basis).None?;
    assert basis.Some? ==> TicketOf(Some(NoteConverged(basis.value, SetAt(w.provider, key), now))).None?;
  }

  lemma InspectPlans(w: World, key: Key, now: int)
    requires key in w.config
    ensures var w' := Inspected(w, key, now);
            w'.pc == w.pc || (w'.pc.Intending? && w'.pc.key == key && Planned(w', key, w'.pc.plan))
  {
    var m, actual := Lookup(w.mem, key), SetAt(w.provider, key);
    var basis := Basis(w.provider, m, actual, w.generation, now);
    ApplyExactly(w.config[key], Lookup(w.provider.records, key), basis, now, w.settleSecs);
  }

  lemma WriteIsWarranted(w: World, fate: Fate)
    requires WriteInv(w) && w.pc.Writing?
    ensures WriteInv(WriteDone(w, fate))
  {
    if !Refuses(w.provider, w.pc.key, w.pc.plan.expected) {
      var log := CarriedOut(w).log;
      var l := log[|w.log|];
      assert Warranted(l);
      assert forall x :: x in w.log + [l] ==> x in w.log || x == l;
    }
  }

  lemma StepKeepsWriteInv(w: World, e: Event)
    requires WriteInv(w) && Enabled(w, e)
    ensures WriteInv(Next(w, e))
  {
    match e {
      case Inspect(key, now, _) => InspectPlans(w, key, now);
      case Write(fate) => WriteIsWarranted(w, fate);
      case _ =>
    }
  }

  /** Over every run, with crashes, lost answers and external edits between any two steps, and with any
      number of other reconcilers at the same provider and state file, with or without a lease: every write
      the provider carried out for this one was warranted; in particular a record that is not managed is
      never deleted, and no write follows an entry whose change is not in sync. */
  lemma {:induction false} EveryWriteIsWarranted(w: World, es: seq<Event>)
    requires WriteInv(w) && Allowed(w, es)
    ensures WriteInv(Run(w, es))
    ensures forall l :: l in Run(w, es).log ==> Warranted(l)
    decreases |es|
  {
    if es != [] {
      StepKeepsWriteInv(w, es[0]);
      EveryWriteIsWarranted(Next(w, es[0]), es[1..]);
    }
  }

  /** What a write is about to put in place: nothing for a record that is to be absent, otherwise exactly the
      configured values and TTL, with the configured flag or else the one that was read. */
  ghost predicate AsksFor(target: Option<RecordSet>, desired: DesiredRecord, expected: Option<RecordSet>) {
    if desired.absent then target.None?
    else
      && target.Some? && target.value.name == desired.set_.name && target.value.rtype == desired.set_.rtype
      && target.value.ttl == desired.set_.ttl && target.value.values == desired.set_.values
      && (desired.set_.proxied.Some? ==> target.value.proxied == desired.set_.proxied)
      && (desired.set_.proxied.None? && expected.Some? ==> target.value.proxied == expected.value.proxied)
  }

  /** The same over every run, in terms of values: a write that follows an unfinished change replaces only values
      of that change, one that follows a finished change replaces exactly the values and TTL last applied, one
      without an entry replaces nothing unless it imports; and each puts in place what is configured. */
  lemma WritesInPlainTerms(w: World, es: seq<Event>, l: LogEntry)
    requires WriteInv(w) && Allowed(w, es) && l in Run(w, es).log
    ensures !AsConfigured(l.desired, l.plan.expected) && AsksFor(l.plan.target, l.desired, l.plan.expected)
    ensures l.plan.basis.None? ==> l.replaced.None? || (l.desired.import_ && !l.desired.absent)
    ensures l.plan.basis.Some? && l.plan.basis.value.pending.Some? ==>
              OnlyOwnValues(l.replaced, l.plan.basis.value.pending.value)
    ensures l.plan.basis.Some? && l.plan.basis.value.pending.None? ==>
              var applied := l.plan.basis.value.applied;
              && (l.replaced.Some? <==> applied.Some?) && ValuesOf(l.replaced) == ValuesOf(applied)
              && (l.replaced.Some? ==> l.replaced.value.ttl == applied.value.ttl)
  {
    EveryWriteIsWarranted(w, es);
    assert Warranted(l);
    ReachedIsAsConfigured(l.desired, l.plan.expected);
    if l.plan.basis.Some? && l.plan.basis.value.pending.Some? {
      BetweenMeansOwnValues(l.replaced, l.plan.basis.value.pending.value);
    }
  }

  /** A set with a value of neither end of the unfinished change is not planned for a write, in any state. */
  lemma StrangeValueIsNotPlanned(w: World, key: Key, now: int, v: string)
    requires key in w.config && w.pc.Ready? && !AsConfigured(w.config[key], SetAt(w.provider, key))
    requires var basis := Basis(w.provider, Lookup(w.mem, key), SetAt(w.provider, key), w.generation, now);
             && basis.Some? && basis.value.pending.Some? && v in ValuesOf(SetAt(w.provider, key))
             && v !in ValuesOf(basis.value.pending.value.expected) && v !in ValuesOf(basis.value.pending.value.desired)
    ensures Inspected(w, key, now).pc.Ready?
  {
    var basis := Basis(w.provider, Lookup(w.mem, key), SetAt(w.provider, key), w.generation, now);
    StrangeSetIsLeftAlone(w.config[key], Lookup(w.provider.records, key), basis.value, v, now, w.settleSecs);
  }

  /** "Matches what was last applied" survives the two comparisons exactly unless the provider
      reported no flag when it was read and flags differ around it. */
  lemma ReplacedMatchesApplied(l: LogEntry)
    requires Warranted(l) && l.plan.basis.Some? && l.plan.basis.value.pending.None? && l.replaced.Some?
    ensures var expected, applied := l.plan.expected, l.plan.basis.value.applied;
            && expected.Some? && applied.Some?
            && (SameOptional(l.replaced, applied) <==>
                !(&& expected.value.proxied.None? && l.replaced.value.proxied.Some? && applied.value.proxied.Some?
                  && l.replaced.value.proxied != applied.value.proxied))
            && ((l.replaced.value.proxied.Some? <==> expected.value.proxied.Some?) ==>
                  SameOptional(l.replaced, applied))
  {
    SameDataChains(l.replaced.value, l.plan.expected.value, l.plan.basis.value.applied.value);
  }

  /** A managed record that is to be deleted, read without a flag although one was applied. */
  ghost predicate FlagUnreported(w: World, key: Key, value: string, now: int) {
    var set_ := RecordSet(key.name, key.rtype, 300, {value}, None);
    && key.rtype.A? && w.pc.Idle? && w.log == [] && !w.provider.tracked
    && w.config == map[key := DesiredRecord(set_, false, true)]
    && w.provider.records == map[key := Observed(set_, false)]
    && w.disk == map[key := ManagedRecord(Some(set_.(proxied := Some(true))), None, 1, None, now)]
  }

  lemma FlagIsNotSeen(w: World, key: Key, value: string, now: int)
    requires FlagUnreported(w, key, value, now)
    ensures var ready := w.(mem := w.disk, generation := 1, pc := Ready);
            var m := Some(w.disk[key]);
            Inspected(ready, key, now) == ready.(pc := Intending(key, Plan(Some(w.config[key].set_), None, m, m, now)))
  {
    var ready := w.(mem := w.disk, generation := 1, pc := Ready);
    assert WithEntry(ready.mem, key, Some(w.disk[key])) == ready.mem;
  }

  /** The gap is real: the record is read without a flag, edited to an explicit one before the
      write, and the write replaces data that differs from what was applied. */
  lemma EditedFlagSlipsThrough(w: World, key: Key, value: string, now: int)
    requires FlagUnreported(w, key, value, now)
    ensures var edited := RecordSet(key.name, key.rtype, 300, {value}, Some(false));
            var es := UpToIntent(1, key, now) + [Edit(key, Some(Observed(edited, false)))] + [Write(Answered)];
            && Allowed(w, es)
            && var w' := Run(w, es);
               && |w'.log| == 1 && key !in w'.provider.records && w'.log[0].replaced == Some(edited)
               && w'.log[0].plan.basis == Some(w.disk[key]) && !SameOptional(Some(edited), w.disk[key].applied)
  {
    var edited := RecordSet(key.name, key.rtype, 300, {value}, Some(false));
    var es, e := UpToIntent(1, key, now), Edit(key, Some(Observed(edited, false)));
    FlagIsNotSeen(w, key, value, now);
    assert [] + es == es;
    UpToIntentIs(w, [], w, 1, key, now);
    var w1 := IntentSaved(Inspected(w.(mem := w.disk, generation := 1, pc := Ready), key, now));
    ReachesNext(w, es, w1, e);
    ReachesNext(w, es + [e], Next(w1, e), Write(Answered));
  }

  // ----- Nothing is resubmitted while a ticket is pending -----

  predicate Carries(m: Option<ManagedRecord>, id: nat) { TicketOf(m) == Some(Ticket(id)) }

  /** A ticket was lost, its change is in sync, or its record's entry waits for it: in memory while a
      pass runs, and in the state file unless it is still to be saved. */
  ghost predicate Awaited(w: World, key: Key, id: nat) {
    || id in w.lost || InSync(w.provider.tickets, id)
    || (&& (w.pc.Idle? || Carries(Lookup(w.mem, key), id))
        && (id in w.unsaved || Carries(Lookup(w.disk, key), id)))
  }

  /** The write `l` came when no earlier change of its record was under way, lost tickets aside. */
  ghost predicate AfterSync(earlier: LogEntry, l: LogEntry) {
    earlier.key == l.key && earlier.ticket.Some? ==>
      earlier.ticket.value in l.lost || InSync(l.tickets, earlier.ticket.value)
  }

  ghost predicate TicketInv(w: World) {
    && (forall id :: id in w.provider.tickets ==> id <= w.provider.writes)
    && (w.pc.Idle? ==> w.unsaved == {})
    && (forall l :: l in w.log && l.ticket.Some? ==> Awaited(w, l.key, l.ticket.value))
    && (w.pc.Intending? || w.pc.Writing? ==>
          forall l :: l in w.log && l.key == w.pc.key && l.ticket.Some? ==>
            l.ticket.value in w.lost || InSync(w.provider.tickets, l.ticket.value))
    && (forall l :: l in w.log && l.ticket.Some? ==> l.ticket.value <= w.provider.writes)
    && (w.pc.Writing? ==> Lookup(w.mem, w.pc.key) == Some(Intent(w)))
    && (forall i, j :: 0 <= i < j < |w.log| ==> AfterSync(w.log[i], w.log[j]))
  }

  lemma InspectKeepsTickets(w: World, key: Key, now: int)
    requires TicketInv(w) && w.pc.Ready? && key in w.config
    ensures TicketInv(Inspected(w, key, now))
  {
    var w' := Inspected(w, key, now);
    InspectTouches(w, key, now);
    forall l | l in w.log && l.ticket.Some?
      ensures Awaited(w', l.key, l.ticket.value)
      ensures w'.pc.Intending? && l.key == key ==>
                l.ticket.value in w.lost || InSync(w.provider.tickets, l.ticket.value)
    {
      assert Awaited(w, l.key, l.ticket.value);
    }
  }

  lemma SavesKeepTickets(w: World, e: Event)
    requires TicketInv(w) && w.pc.Intending? && (e.SaveIntent? || e.SaveFails?)
    ensures TicketInv(Next(w, e))
  {
    forall l | l in w.log && l.ticket.Some? ensures Awaited(Next(w, e), l.key, l.ticket.value) {
      assert Awaited(w, l.key, l.ticket.value);
    }
  }

  lemma WriteKeepsTickets(w: World, fate: Fate)
    requires TicketInv(w) && w.pc.Writing? && w.pc.key in w.config
    ensures TicketInv(WriteDone(w, fate))
  {
    var w' := WriteDone(w, fate);
    forall l | l in w'.log && l.ticket.Some? ensures Awaited(w', l.key, l.ticket.value) {
      if l in w.log { assert Awaited(w, l.key, l.ticket.value); }
    }
    forall i, j | 0 <= i < j < |w'.log| ensures AfterSync(w'.log[i], w'.log[j]) {
      assert w'.log[i] == w.log[i] && w.log[i] in w.log;
    }
  }

  /** A step with no other reconciler at work. */
  predicate Alone(e: Event) { !e.OtherWriter? }

  lemma StepKeepsTickets(w: World, e: Event)
    requires TicketInv(w) && Enabled(w, e) && Alone(e)
    ensures TicketInv(Next(w, e))
  {
    if e.Inspect? {
      if e.answers { InspectKeepsTickets(w, e.key, e.now); }
    } else if e.SaveIntent? || e.SaveFails? {
      SavesKeepTickets(w, e);
    } else if e.Write? {
      if w.pc.key in w.config { WriteKeepsTickets(w, e.fate); }
    } else {
      forall l | l in w.log && l.ticket.Some? ensures Awaited(Next(w, e), l.key, l.ticket.value) {
        assert Awaited(w, l.key, l.ticket.value);
      }
    }
  }

  /** Over every run, also with external edits: a record is written again only after every earlier
      change of it is in sync, except for changes whose ticket was lost, because the answer was lost or
      the process ended before the ticket was saved. */
  lemma {:induction false} NothingIsResubmitted(w: World, es: seq<Event>)
    requires TicketInv(w) && Allowed(w, es) && forall e :: e in es ==> Alone(e)
    ensures TicketInv(Run(w, es))
    ensures forall i, j :: 0 <= i < j < |Run(w, es).log| ==> AfterSync(Run(w, es).log[i], Run(w, es).log[j])
    decreases |es|
  {
    if es != [] {
      StepKeepsTickets(w, es[0]);
      NothingIsResubmitted(Next(w, es[0]), es[1..]);
    }
  }

  /** Once its change is in sync, a record that shows it is not waited for any longer: it is written again exactly
      when it is not as configured. */
  lemma SyncedIsNotAwaited(w: World, key: Key, now: int)
    requires key in w.config && key in w.mem && w.mem[key].pending.Some?
    requires var p := w.mem[key].pending.value;
             && p.ticket.Some? && InSync(w.provider.tickets, p.ticket.value.changeId)
             && SameOptional(SetAt(w.provider, key), p.desired)
             && (key in w.provider.records ==> !w.provider.records[key].unsupported)
    ensures var action := ActionFor(w, key, now);
            && !action.Wait? && !action.Conflict?
            && (action.Apply? <==> !AsConfigured(w.config[key], SetAt(w.provider, key)))
    ensures TicketOf(Lookup(Inspected(w, key, now).mem, key)).None?
  {
    var basis := Basis(w.provider, Lookup(w.mem, key), SetAt(w.provider, key), w.generation, now);
    assert basis.Some? && basis.value.pending.None? && SameOptional(SetAt(w.provider, key), basis.value.applied);
    ReachedIsAsConfigured(w.config[key], SetAt(w.provider, key));
    InspectClosesTicket(w, key, now);
  }

  /** At a provider without tickets there is nothing to wait for, to lose or to save. */
  ghost predicate NoTickets(w: World) {
    !w.provider.tracked && w.lost == {} && w.unsaved == {} && forall l :: l in w.log ==> l.ticket.None?
  }

  lemma {:induction false} UntrackedHasNoTickets(w: World, es: seq<Event>)
    requires NoTickets(w) && Allowed(w, es)
    ensures NoTickets(Run(w, es))
    decreases |es|
  {
    if es != [] {
      var w' := Next(w, es[0]);
      if es[0].Inspect? && es[0].key in w.config { InspectTouches(w, es[0].key, es[0].now); }
      assert NoTickets(w');
      UntrackedHasNoTickets(w', es[1..]);
    }
  }

  /** The entry waits for no ticket, or for one that was given out and is not in `banned`. */
  predicate WaitsFor(m: Option<ManagedRecord>, writes: nat, banned: set<nat>) {
    TicketOf(m).Some? ==> TicketOf(m).value.changeId <= writes && TicketOf(m).value.changeId !in banned
  }

  /** No entry waits for a lost ticket, and none in the state file for an unsaved one. */
  ghost predicate LostInv(w: World) {
    && (forall id :: id in w.lost || id in w.unsaved ==> id <= w.provider.writes)
    && (forall k: Key :: WaitsFor(Lookup(w.disk, k), w.provider.writes, w.lost + w.unsaved))
    && (!w.pc.Idle? ==> forall k: Key :: WaitsFor(Lookup(w.mem, k), w.provider.writes, w.lost))
  }

  lemma WriteKeepsLost(w: World, fate: Fate)
    requires LostInv(w) && w.pc.Writing? && w.pc.key in w.config
    ensures LostInv(WriteDone(w, fate))
  {
    var w' := WriteDone(w, fate);
    forall k: Key ensures WaitsFor(Lookup(w'.mem, k), w'.provider.writes, w'.lost) {
      assert WaitsFor(Lookup(w.mem, k), w.provider.writes, w.lost);
    }
    forall k: Key ensures WaitsFor(Lookup(w'.disk, k), w'.provider.writes, w'.lost + w'.unsaved) {
      assert WaitsFor(Lookup(w.disk, k), w.provider.writes, w.lost + w.unsaved);
    }
  }

  lemma StepKeepsLost(w: World, e: Event)
    requires LostInv(w) && Enabled(w, e) && Alone(e)
    ensures LostInv(Next(w, e))
  {
    var w' := Next(w, e);
    if e.Write? {
      if w.pc.key in w.config { WriteKeepsLost(w, e.fate); }
    } else {
      if e.Inspect? {
        InspectTouches(w, e.key, e.now);
        if !TicketPending(w.provider, Lookup(w.mem, e.key)) { InspectClosesTicket(w, e.key, e.now); }
      }
      forall k: Key ensures WaitsFor(Lookup(w'.disk, k), w'.provider.writes, w'.lost + w'.unsaved) {
        assert WaitsFor(Lookup(w.disk, k), w.provider.writes, w.lost + w.unsaved);
        if !w.pc.Idle? { assert WaitsFor(Lookup(w.mem, k), w.provider.writes, w.lost); }
      }
      forall k: Key | !w'.pc.Idle? ensures WaitsFor(Lookup(w'.mem, k), w'.provider.writes, w'.lost) {
        assert WaitsFor(Lookup(w.disk, k), w.provider.writes, w.lost + w.unsaved);
        if !w.pc.Idle? { assert WaitsFor(Lookup(w.mem, k), w.provider.writes, w.lost); }
      }
    }
  }

  lemma {:induction false} RunKeepsLost(w: World, es: seq<Event>)
    requires LostInv(w) && Allowed(w, es) && forall e :: e in es ==> Alone(e)
    ensures LostInv(Run(w, es))
    decreases |es|
  {
    if es != [] {
      StepKeepsLost(w, es[0]);
      RunKeepsLost(Next(w, es[0]), es[1..]);
    }
  }

  /** Over every run, a pass waits for a submitted change that is not in sync exactly unless its ticket
      was lost. */
  lemma WaitsUnlessLost(w: World, es: seq<Event>, l: LogEntry, now: int)
    requires TicketInv(w) && LostInv(w) && Allowed(w, es) && forall e :: e in es ==> Alone(e)
    requires l in Run(w, es).log && l.ticket.Some? && !InSync(Run(w, es).provider.tickets, l.ticket.value)
    requires Run(w, es).pc.Ready? && l.key in Run(w, es).config
    ensures var w' := Run(w, es);
            && (Carries(Lookup(w'.mem, l.key), l.ticket.value) <==> l.ticket.value !in w'.lost)
            && (l.ticket.value !in w'.lost ==> ActionFor(w', l.key, now).Wait?)
  {
    NothingIsResubmitted(w, es);
    RunKeepsLost(w, es);
    assert Awaited(Run(w, es), l.key, l.ticket.value);
  }

  function Wanted(key: Key, value: string): RecordSet { RecordSet(key.name, key.rtype, 300, {value}, Some(false)) }

  function Wants(key: Key, value: string): map<Key, DesiredRecord> {
    map[key := DesiredRecord(Wanted(key, value), false, false)]
  }

  /** The first change of a record, whose answer is lost, and a new configuration. */
  function AnswerLost(key: Key, b: string, now: int): seq<Event> {
    UpToIntent(1, key, now) + [Write(LostAfter)] + [FinalSave] + [Reconfigure(Wants(key, b))]
  }

  lemma FirstIntent(w: World, key: Key, a: string, now: int)
    requires w.disk == map[] && w.config == Wants(key, a) && w.provider == Provider(map[], map[], true, 0)
    ensures var ready := w.(mem := w.disk, generation := 1, pc := Ready);
            var plan := Plan(None, Some(Wanted(key, a)), None, None, now);
            Inspected(ready, key, now) == ready.(pc := Intending(key, plan))
  {
    var ready := w.(mem := w.disk, generation := 1, pc := Ready);
    assert WithEntry(ready.mem, key, None) == ready.mem;
  }

  lemma AnswerLostIs(w: World, key: Key, a: string, b: string, now: int)
    requires w.pc.Idle? && w.disk == map[] && w.log == [] && w.lost == {} && w.config == Wants(key, a)
    requires w.provider == Provider(map[], map[], true, 0)
    ensures Allowed(w, AnswerLost(key, b, now))
    ensures var w' := Run(w, AnswerLost(key, b, now));
            var pending := PendingChange(None, Some(Wanted(key, a)), None, now);
            && w'.pc.Idle? && w'.lost == {1} && |w'.log| == 1 && w'.log[0].key == key && w'.log[0].ticket == Some(1)
            && w'.disk == map[key := ManagedRecord(None, None, 1, Some(pending), now)] && w'.config == Wants(key, b)
            && w'.provider == Provider(map[key := Observed(Wanted(key, a), false)], map[1 := false], true, 1)
  {
    var es := UpToIntent(1, key, now);
    FirstIntent(w, key, a, now);
    assert [] + es == es;
    UpToIntentIs(w, [], w, 1, key, now);
    var w1 := Run(w, es);
    var w2 := Next(w1, Write(LostAfter));
    ReachesNext(w, es, w1, Write(LostAfter));
    ReachesNext(w, es + [Write(LostAfter)], w2, FinalSave);
    ReachesNext(w, es + [Write(LostAfter)] + [FinalSave], Next(w2, FinalSave), Reconfigure(Wants(key, b)));
  }

  /** The next pass closes the change, because the record is as requested, and plans the new one. */
  lemma SecondIntent(w: World, key: Key, a: string, b: string, now: int)
    requires a != b && w.config == Wants(key, b) && SetAt(w.provider, key) == Some(Wanted(key, a))
    requires !w.provider.records[key].unsupported && w.pc.Ready?
    requires var pending := PendingChange(None, Some(Wanted(key, a)), None, now);
             w.mem == map[key := ManagedRecord(None, None, 1, Some(pending), now)]
    ensures var w' := Inspected(w, key, now);
            && w'.pc.Intending? && w'.pc.key == key && w'.pc.plan.expected == Some(Wanted(key, a))
            && w'.provider == w.provider && w'.log == w.log && w'.lost == w.lost && w'.config == w.config
  {
    assert {b} != {a} by { assert b in {b}; }
    var basis := Basis(w.provider, Some(w.mem[key]), SetAt(w.provider, key), w.generation, now);
    assert basis == Some(CompleteChange(w.mem[key], None, Some(Wanted(key, a)), w.generation, now));
    ApplyExactly(w.config[key], Lookup(w.provider.records, key), basis, now, w.settleSecs);
  }

  /** The exception is real: the answer to the first write is lost, the next pass finds the record as
      requested and closes the change, and a new configuration is written before the first one is in
      sync. */
  lemma LostTicketIsNotAwaited(w: World, key: Key, a: string, b: string, now: int)
    requires w.pc.Idle? && w.disk == map[] && w.log == [] && w.lost == {} && w.config == Wants(key, a) && a != b
    requires w.provider == Provider(map[], map[], true, 0)
    ensures var es := AnswerLost(key, b, now) + UpToIntent(2, key, now) + [Write(Answered)];
            && Allowed(w, es)
            && var log := Run(w, es).log;
               && |log| == 2 && log[0].key == log[1].key == key && log[0].ticket == Some(1)
               && log[1].lost == {1} && !InSync(log[1].tickets, 1)
  {
    AnswerLostIs(w, key, a, b, now);
    var w1 := Run(w, AnswerLost(key, b, now));
    var ready := w1.(mem := w1.disk, generation := 2, pc := Ready);
    SecondIntent(ready, key, a, b, now);
    UpToIntentIs(w, AnswerLost(key, b, now), w1, 2, key, now);
    ReachesNext(w, AnswerLost(key, b, now) + UpToIntent(2, key, now), IntentSaved(Inspected(ready, key, now)),
                Write(Answered));
  }

  // ----- Without external edits -----

  /** The saved entry explains the record: nothing recorded and nothing there, what was applied, or
      one of the two ends of the unfinished change. */
  predicate Explains(m: Option<ManagedRecord>, observed: Option<Observed>) {
    && (observed.Some? ==> !observed.value.unsupported)
    && (match m
        case None => observed.None?
        case Some(entry) =>
          match entry.pending
          case None => SameOptional(SetOf(observed), entry.applied)
          case Some(p) =>
            || SameOptional(SetOf(observed), p.desired)
            || (p.ticket.None? && SameOptional(SetOf(observed), p.expected)))
  }

  /** A record that somebody else made. */
  predicate Foreign(m: Option<ManagedRecord>, observed: Option<Observed>) { m.None? && observed.Some? }

  /** A foreign record that the configuration does not let Sieve Tube take over. */
  predicate Barred(desired: DesiredRecord, m: Option<ManagedRecord>, observed: Option<Observed>) {
    Foreign(m, observed) && (observed.value.unsupported || desired.absent || !desired.import_)
  }

  /** Every record is explained or foreign; those in `ours` are explained. */
  ghost predicate AllExplained(entries: map<Key, ManagedRecord>, p: Provider, ours: set<Key>) {
    forall k: Key ::
      || Explains(Lookup(entries, k), Lookup(p.records, k))
      || (k !in ours && Foreign(Lookup(entries, k), Lookup(p.records, k)))
  }

  ghost predicate AtWrite(w: World) {
    var pc := w.pc;
    && (pc.Intending? || pc.Writing?)
    && SetAt(w.provider, pc.key) == pc.plan.expected
    && !(pc.key in w.provider.records && w.provider.records[pc.key].unsupported)
    && Planned(w, pc.key, pc.plan)
    && (pc.Writing? ==> Lookup(w.mem, pc.key) == Some(Intent(w)) && Lookup(w.disk, pc.key) == Some(Intent(w)))
  }

  ghost predicate Consistent(w: World) {
    && ValidConfig(w.config)
    && AllExplained(w.disk, w.provider, w.ours)
    && (!w.pc.Idle? ==> AllExplained(w.mem, w.provider, w.ours))
    && (w.pc.Intending? || w.pc.Writing? ==> AtWrite(w))
    && (forall l :: l in w.log ==> l.key in w.ours)
  }

  predicate Internal(e: Event) { !e.Edit? && !e.OtherWriter? }

  lemma BasisExplains(p: Provider, m: Option<ManagedRecord>, observed: Option<Observed>, generation: nat, now: int)
    requires Explains(m, observed)
    ensures var basis := Basis(p, m, SetOf(observed), generation, now);
            Explains(basis, observed) && TicketOf(basis).None? && (basis.Some? <==> m.Some?)
  {
  }

  lemma EndpointIsBetween(actual: Option<RecordSet>, from: Option<RecordSet>, to: Option<RecordSet>)
    requires SameOptional(actual, from) || SameOptional(actual, to)
    ensures IsBetween(actual, from, to)
  {
  }

  /** An explained record is never a conflict and never has to settle. */
  lemma ExplainedProceeds(desired: DesiredRecord, observed: Option<Observed>, basis: Option<ManagedRecord>,
                          now: int, settleSecs: int)
    requires Explains(basis, observed)
    ensures var action := Decide(desired, observed, basis, now, settleSecs);
            && (action.Apply? <==> !Reached(desired, SetOf(observed)))
            && (action.Apply? || action.NoChange? || action.Forget?)
            && (action.Forget? ==> observed.None?)
  {
    var actual := SetOf(observed);
    if basis.Some? && basis.value.pending.Some? {
      EndpointIsBetween(actual, basis.value.pending.value.expected, basis.value.pending.value.desired);
    }
    ApplyExactly(desired, observed, basis, now, settleSecs);
  }

  /** A foreign record is a conflict exactly when it is barred; otherwise it is adopted as it is, or
      replaced by what the configuration asks for. */
  lemma ForeignIsImported(desired: DesiredRecord, observed: Option<Observed>, now: int, settleSecs: int)
    requires Foreign(None, observed)
    ensures var action := Decide(desired, observed, None, now, settleSecs);
            && (action.Conflict? <==> Barred(desired, None, observed))
            && (action.Adopt? ==> action.current == observed.value.set_ && Reached(desired, SetOf(observed)))
            && (action.Apply? ==> !Reached(desired, SetOf(observed)))
            && (action.Conflict? || action.Adopt? || action.Apply?)
  {
    ApplyExactly(desired, observed, None, now, settleSecs);
  }

  lemma EntryKeepsExplained(entries: map<Key, ManagedRecord>, p: Provider, ours: set<Key>, key: Key,
                            m: Option<ManagedRecord>)
    requires AllExplained(entries, p, ours) && Explains(m, Lookup(p.records, key))
    ensures AllExplained(WithEntry(entries, key, m), p, ours)
  {
    var entries' := WithEntry(entries, key, m);
    forall k: Key
      ensures || Explains(Lookup(entries', k), Lookup(p.records, k))
              || (k !in ours && Foreign(Lookup(entries', k), Lookup(p.records, k)))
    {
      if k != key { assert Lookup(entries', k) == Lookup(entries, k); }
    }
  }

  /** The part of an inspection that concerns an explained record. */
  lemma InspectExplained(w: World, key: Key, now: int)
    requires Consistent(w) && w.pc.Ready? && key in w.config && !TicketPending(w.provider, Lookup(w.mem, key))
    requires Explains(Lookup(w.mem, key), Lookup(w.provider.records, key))
    ensures AllExplained(Inspected(w, key, now).mem, w.provider, w.ours)
    ensures var action := ActionFor(w, key, now);
            && (action.Apply? <==> !Reached(w.config[key], SetAt(w.provider, key)))
            && (action.Apply? || action.NoChange? || action.Forget?)
  {
    var m, observed := Lookup(w.mem, key), Lookup(w.provider.records, key);
    var basis := Basis(w.provider, m, SetOf(observed), w.generation, now);
    BasisExplains(w.provider, m, observed, w.generation, now);
    ExplainedProceeds(w.config[key], observed, basis, now, w.settleSecs);
    EntryKeepsExplained(w.mem, w.provider, w.ours, key, basis);
    EntryKeepsExplained(w.mem, w.provider, w.ours, key,
                        if basis.Some? then Some(NoteConverged(basis.value, SetOf(observed), now)) else None);
    if observed.None? { EntryKeepsExplained(w.mem, w.provider, w.ours, key, None); }
  }

  /** The part that concerns a foreign one. */
  lemma InspectForeign(w: World, key: Key, now: int)
    requires Consistent(w) && w.pc.Ready? && key in w.config
    requires Foreign(Lookup(w.mem, key), Lookup(w.provider.records, key))
    ensures AllExplained(Inspected(w, key, now).mem, w.provider, w.ours)
    ensures var action := ActionFor(w, key, now);
            && (action.Conflict? <==> Barred(w.config[key], None, Lookup(w.provider.records, key)))
            && (action.Apply? ==> !Reached(w.config[key], SetAt(w.provider, key)))
            && (action.Adopt? ==> Reached(w.config[key], SetAt(w.provider, key)))
            && (action.Conflict? || action.Adopt? || action.Apply?)
  {
    var observed := Lookup(w.provider.records, key);
    ForeignIsImported(w.config[key], observed, now, w.settleSecs);
    if ActionFor(w, key, now).Adopt? {
      EntryKeepsExplained(w.mem, w.provider, w.ours, key,
                          Some(ManagedRecord(Some(observed.value.set_), None, w.generation, None, now)));
    } else {
      assert w.mem - {key} == w.mem;
    }
  }

  /** An inspection reports a conflict exactly for a foreign record the configuration does not import,
      and waits only for a submitted change that is not in sync. */
  lemma InspectStaysConsistent(w: World, key: Key, now: int)
    requires Consistent(w) && w.pc.Ready? && key in w.config
    ensures Consistent(Inspected(w, key, now))
    ensures var action := ActionFor(w, key, now);
            && (action.Conflict? <==> Barred(w.config[key], Lookup(w.mem, key), Lookup(w.provider.records, key)))
            && (action.Wait? ==> TicketPending(w.provider, Lookup(w.mem, key)))
            && (action.Apply? ==> !Reached(w.config[key], SetAt(w.provider, key)))
  {
    var m, observed := Lookup(w.mem, key), Lookup(w.provider.records, key);
    if !TicketPending(w.provider, m) {
      if Foreign(m, observed) {
        InspectForeign(w, key, now);
      } else {
        InspectExplained(w, key, now);
      }
      InspectPlans(w, key, now);
      ApplyExactly(w.config[key], observed, Basis(w.provider, m, SetOf(observed), w.generation, now), now,
        w.settleSecs);
    }
  }

  lemma IntentStaysConsistent(w: World, e: Event)
    requires Consistent(w) && w.pc.Intending? && (e.SaveIntent? || e.SaveFails?)
    ensures Consistent(Next(w, e))
  {
    assert AtWrite(w);
    EntryKeepsExplained(w.mem, w.provider, w.ours, w.pc.key, Some(Intent(w)));
  }

  /** What the provider holds after the write counts as the requested set and as done. */
  lemma WriteReaches(w: World)
    requires Consistent(w) && w.pc.Writing?
    ensures !Refuses(w.provider, w.pc.key, w.pc.plan.expected)
    ensures var p := Written(w.provider, w.pc.key, w.pc.plan.target);
            && SameOptional(SetAt(p, w.pc.key), w.pc.plan.target)
            && Reached(w.config[w.pc.key], SetAt(p, w.pc.key))
            && (forall k :: k != w.pc.key ==> Lookup(p.records, k) == Lookup(w.provider.records, k))
            && (w.pc.key in p.records ==> !p.records[w.pc.key].unsupported)
  {
    assert AtWrite(w);
  }

  lemma OthersStayExplained(entries: map<Key, ManagedRecord>, p: Provider, p': Provider, ours: set<Key>, key: Key)
    requires AllExplained(entries, p, ours) && forall k :: k != key ==> Lookup(p'.records, k) == Lookup(p.records, k)
    requires Explains(Lookup(entries, key), Lookup(p'.records, key))
    ensures AllExplained(entries, p', ours + {key})
  {
    forall k: Key
      ensures || Explains(Lookup(entries, k), Lookup(p'.records, k))
              || (k !in ours + {key} && Foreign(Lookup(entries, k), Lookup(p'.records, k)))
    {
      if k != key { assert Lookup(p'.records, k) == Lookup(p.records, k); }
    }
  }

  lemma WriteStaysConsistent(w: World, fate: Fate)
    requires Consistent(w) && w.pc.Writing?
    ensures w.pc.key in w.config && Consistent(WriteDone(w, fate))
  {
    var key := w.pc.key;
    assert AtWrite(w);
    if !fate.LostBefore? {
      WriteReaches(w);
      var (p, answer) := Replace(w.provider, key, w.pc.plan.expected, w.pc.plan.target);
      OthersStayExplained(w.disk, w.provider, p, w.ours, key);
      OthersStayExplained(w.mem, w.provider, p, w.ours, key);
      if fate.Answered? {
        EntryKeepsExplained(w.mem, p, w.ours + {key}, key, EntryAfter(w, w.mem[key], answer));
      }
    }
  }

  lemma StepStaysConsistent(w: World, e: Event)
    requires Consistent(w) && Enabled(w, e) && Internal(e)
    ensures Consistent(Next(w, e)) && w.ours <= Next(w, e).ours
  {
    match e {
      case Inspect(key, now, answers) => if answers { InspectStaysConsistent(w, key, now); }
      case SaveIntent => IntentStaysConsistent(w, e);
      case SaveFails => IntentStaysConsistent(w, e);
      case Write(fate) => WriteStaysConsistent(w, fate);
      case Sync(id) => assert Next(w, e).provider.records == w.provider.records;
      case _ =>
    }
  }

  /** Without external edits, and whatever crashes, lost answers, failed saves and configuration changes
      happen, next to any records of others: a conflict is reported exactly for a record Sieve Tube has no
      entry for and may not import, never for one it wrote or accounted for at the start; no write is
      refused, and a pass waits only for a submitted change that is not in sync. */
  lemma {:induction false} NeverConflicts(w: World, es: seq<Event>)
    requires Consistent(w) && Allowed(w, es) && forall e :: e in es ==> Internal(e)
    ensures var w' := Run(w, es);
            && Consistent(w') && w.ours <= w'.ours && (forall l :: l in w'.log ==> l.key in w'.ours)
            && (w'.pc.Writing? ==> !Refuses(w'.provider, w'.pc.key, w'.pc.plan.expected))
            && forall key, now :: w'.pc.Ready? && key in w'.config ==> ReportsExactly(w', key, now)
    decreases |es|
  {
    if es == [] {
      if w.pc.Writing? { WriteReaches(w); }
      forall key, now | w.pc.Ready? && key in w.config ensures ReportsExactly(w, key, now) {
        InspectStaysConsistent(w, key, now);
      }
    } else {
      StepStaysConsistent(w, es[0]);
      NeverConflicts(Next(w, es[0]), es[1..]);
    }
  }

  ghost predicate ReportsExactly(w: World, key: Key, now: int)
    requires key in w.config
  {
    var action := ActionFor(w, key, now);
    && (action.Conflict? <==> Barred(w.config[key], Lookup(w.mem, key), Lookup(w.provider.records, key)))
    && (key in w.ours ==> !action.Conflict?)
    && (action.Wait? ==> TicketPending(w.provider, Lookup(w.mem, key)))
  }

  // ----- A settled configuration is left alone -----

  function WritesOf(log: seq<LogEntry>, key: Key): nat {
    if log == [] then 0 else (if log[|log| - 1].key == key then 1 else 0) + WritesOf(log[..|log| - 1], key)
  }

  function Outstanding(w: World, key: Key): nat
    requires key in w.config
  {
    if Reached(w.config[key], SetAt(w.provider, key)) then 0 else 1
  }

  lemma OtherStepsWriteNothing(w: World, e: Event)
    requires Internal(e) && !e.Reconfigure? && (e.Write? ==> e.fate.LostBefore?)
    ensures Next(w, e).log == w.log && Next(w, e).config == w.config &&
            Next(w, e).provider.records == w.provider.records
  {
  }

  lemma CarriedOutSpends(w: World, fate: Fate, key: Key)
    requires Consistent(w) && w.pc.Writing? && w.pc.key in w.config && !fate.LostBefore? && key in w.config
    ensures var w' := WriteDone(w, fate);
            && w'.config == w.config
            && WritesOf(w'.log, key) + Outstanding(w', key) == WritesOf(w.log, key) + Outstanding(w, key)
  {
    WriteReaches(w);
    var log := WriteDone(w, fate).log;
    assert |log| == |w.log| + 1 && log[..|log| - 1] == w.log && log[|w.log|].key == w.pc.key;
  }

  lemma StepSpendsOutstanding(w: World, e: Event, key: Key)
    requires Consistent(w) && Enabled(w, e) && Internal(e) && !e.Reconfigure? && key in w.config
    ensures key in Next(w, e).config
    ensures WritesOf(Next(w, e).log, key) + Outstanding(Next(w, e), key) == WritesOf(w.log, key) + Outstanding(w, key)
  {
    if e.Write? && !e.fate.LostBefore? {
      assert AtWrite(w);
      CarriedOutSpends(w, e.fate, key);
    } else {
      OtherStepsWriteNothing(w, e);
    }
  }

  /** With a fixed configuration and no external edits, a record is written at most once, however
      often the process crashes or answers are lost, and not at all once it is as configured. */
  lemma {:induction false} WritesAtMostOnce(w: World, es: seq<Event>, key: Key)
    requires Consistent(w) && Allowed(w, es) && key in w.config
    requires forall e :: e in es ==> Internal(e) && !e.Reconfigure?
    ensures key in Run(w, es).config
    ensures WritesOf(Run(w, es).log, key) + Outstanding(Run(w, es), key) == WritesOf(w.log, key) + Outstanding(w, key)
    decreases |es|
  {
    if es != [] {
      StepSpendsOutstanding(w, es[0], key);
      StepStaysConsistent(w, es[0]);
      WritesAtMostOnce(Next(w, es[0]), es[1..], key);
    }
  }

  // ----- An uninterrupted pass, as the code runs it -----

  /** One record of a pass that is neither interrupted nor left unanswered. */
  function RecordPass(w: World, key: Key, now: int): World
    requires key in w.config
  {
    var inspected := Inspected(w, key, now);
    if inspected.pc.Intending? && inspected.pc.key in w.config then WriteDone(IntentSaved(inspected), Answered)
    else inspected
  }

  /** Done, or submitted and waiting for the provider. */
  ghost predicate DoneOrSubmitted(w: World, key: Key) {
    && key in w.config
    && (Reached(w.config[key], SetAt(w.provider, key)) || TicketPending(w.provider, Lookup(w.mem, key)))
  }

  ghost predicate BarredAt(w: World, key: Key) {
    key in w.config && Barred(w.config[key], Lookup(w.mem, key), Lookup(w.provider.records, key))
  }

  /** A pass leaves a record done or submitted, or, exactly if it is barred, as it was. */
  lemma RecordPassConverges(w: World, key: Key, now: int)
    requires Consistent(w) && w.pc.Ready? && key in w.config
    ensures var w' := RecordPass(w, key, now);
            && Consistent(w') && w'.pc.Ready? && w'.config == w.config
            && (BarredAt(w', key) <==> BarredAt(w, key))
            && (if BarredAt(w, key) then w'.provider == w.provider else DoneOrSubmitted(w', key))
  {
    InspectStaysConsistent(w, key, now);
    var w1 := Inspected(w, key, now);
    InspectOutcome(w, key, now);
    if w1.pc.Intending? {
      IntentStaysConsistent(w1, SaveIntent);
      WriteReaches(IntentSaved(w1));
      WriteStaysConsistent(IntentSaved(w1), Answered);
    }
  }

  /** An inspection that plans nothing leaves a record that is barred, done or submitted. */
  lemma InspectOutcome(w: World, key: Key, now: int)
    requires Consistent(w) && w.pc.Ready? && key in w.config
    ensures var w' := Inspected(w, key, now);
            && w'.config == w.config && w'.provider == w.provider && w'.disk == w.disk && w'.log == w.log
            && (w'.pc.Intending? ==> w'.pc.key == key && !BarredAt(w, key))
            && (w'.pc.Ready? ==>
              (BarredAt(w', key) <==> BarredAt(w, key)) && (BarredAt(w, key) || DoneOrSubmitted(w', key)))
            && (w'.pc.Intending? || w'.pc.Ready?)
  {
    var m, observed := Lookup(w.mem, key), Lookup(w.provider.records, key);
    if !TicketPending(w.provider, m) {
      if Foreign(m, observed) {
        InspectForeign(w, key, now);
      } else {
        InspectExplained(w, key, now);
      }
    }
  }

  /** A process that has written nothing starts in the states the theorems are about, whatever records
      of others it finds. */
  lemma FirstStart(w: World)
    requires ValidConfig(w.config) && w.pc.Idle? && w.disk == map[] && w.log == []
    requires w.ours == {} && w.unsaved == {} && w.lost == {}
    requires forall id :: id in w.provider.tickets ==> id <= w.provider.writes
    ensures Consistent(w) && WriteInv(w) && TicketInv(w) && LostInv(w)
  {
  }

  /** A pass that sees no external edit is never refused by the provider. */
  lemma PassIsNotRefused(w: World, key: Key, now: int)
    requires Consistent(w) && w.pc.Ready? && key in w.config
    ensures var action := ActionFor(w, key, now);
            && (action.Conflict? <==> BarredAt(w, key))
            && (action.Apply? ==> !Refuses(w.provider, key, action.expected))
  {
    InspectStaysConsistent(w, key, now);
    if ActionFor(w, key, now).Apply? {
      ApplyExactly(w.config[key], Lookup(w.provider.records, key),
                   Basis(w.provider, Lookup(w.mem, key), SetAt(w.provider, key), w.generation, now), now, w.settleSecs);
    }
  }

  lemma RecordPassSparesOthers(w: World, key: Key, now: int, other: Key)
    requires key in w.config && other != key && w.pc.Ready?
    ensures var w' := RecordPass(w, key, now);
            && Lookup(w'.provider.records, other) == Lookup(w.provider.records, other)
            && Lookup(w'.mem, other) == Lookup(w.mem, other)
            && (TicketPending(w.provider, Lookup(w.mem, other)) ==> TicketPending(w'.provider, Lookup(w'.mem, other)))
            && (BarredAt(w, other) <==> BarredAt(w', other))
  {
    InspectTouches(w, key, now);
  }

  /** What a pass that started at `start` has achieved after the records `keys`. */
  ghost predicate Progress(start: World, w: World, keys: seq<Key>, actions: seq<Action>) {
    && |actions| == |keys| && Consistent(w) && w.pc.Ready? && w.config == start.config
    && (forall k: Key :: BarredAt(w, k) <==> BarredAt(start, k))
    && (forall i :: 0 <= i < |keys| ==> Handled(start, w, keys[i], actions[i]))
    && (forall k: Key :: k !in keys || BarredAt(start, k) ==>
          Lookup(w.provider.records, k) == Lookup(start.provider.records, k))
  }

  ghost predicate Handled(start: World, w: World, key: Key, action: Action) {
    (action.Conflict? <==> BarredAt(start, key)) && (action.Conflict? || DoneOrSubmitted(w, key))
  }

  lemma ProgressStep(start: World, w: World, keys: seq<Key>, actions: seq<Action>, key: Key, now: int, action: Action)
    requires Progress(start, w, keys, actions) && key in w.config && (action.Conflict? <==> BarredAt(w, key))
    ensures Progress(start, RecordPass(w, key, now), keys + [key], actions + [action])
  {
    var w' := RecordPass(w, key, now);
    RecordPassConverges(w, key, now);
    forall k: Key | k != key
      ensures Lookup(w'.provider.records, k) == Lookup(w.provider.records, k)
      ensures DoneOrSubmitted(w, k) ==> DoneOrSubmitted(w', k)
      ensures BarredAt(w, k) <==> BarredAt(w', k)
    {
      RecordPassSparesOthers(w, key, now, k);
    }
    forall i | 0 <= i <= |keys| ensures Handled(start, w', (keys + [key])[i], (actions + [action])[i]) {
      if i < |keys| { assert Handled(start, w, keys[i], actions[i]); }
    }
  }

  class DnsReconciler {
    const config: map<Key, DesiredRecord>
    const settleSecs: int
    var generation: nat
    /** The state file. */
    var disk: map<Key, ManagedRecord>
    /** The state a pass works on. */
    var records: map<Key, ManagedRecord>
    var provider: Provider
    ghost var log: seq<LogEntry>
    ghost var ours: set<Key>
    ghost var unsaved: set<nat>
    ghost var lost: set<nat>

    ghost function At(pc: Pc): World
      reads this
    {
      World(config, settleSecs, generation, disk, records, provider, pc, log, ours, unsaved, lost)
    }

    method SaveState()
      modifies this`disk, this`unsaved
      ensures disk == records && unsaved == {}
    {
      disk, unsaved := records, {};
    }

    method FinishTracked(key: Key, now: int) returns (waiting: bool)
      modifies this`records
      ensures waiting == TicketPending(provider, Lookup(old(records), key))
      ensures var m := Lookup(old(records), key);
              records == if !waiting && m.Some? && m.value.pending.Some? && m.value.pending.value.ticket.Some?
                         then old(records)[key := FinishPending(m.value, generation, now)] else old(records)
    {
      waiting := false;
      if key in records && records[key].pending.Some? && records[key].pending.value.ticket.Some? {
        if Synced(provider, records[key].pending.value.ticket.value) {
          records := records[key := FinishPending(records[key], generation, now)];
        } else {
          waiting := true;
        }
      }
    }

    /** The changes of the state for an action that leaves the provider alone. */
    method RecordQuietAction(key: Key, action: Action, observed: Option<RecordSet>, now: int)
      requires !action.Apply?
      modifies this`records
      ensures records == match action
                         case NoChange =>
                           if key !in old(records) then old(records)
                           else old(records)[key := NoteConverged(old(records)[key], observed, now)]
                         case Adopt(current) =>
                           old(records)[key := ManagedRecord(Some(current), None, generation, None, now)]
                         case Forget => old(records) - {key}
                         case _ => old(records)
    {
      match action
      case NoChange =>
        if key in records {
          records := records[key := NoteConverged(records[key], observed, now)];
        }
      case Adopt(current) => records := records[key := ManagedRecord(Some(current), None, generation, None, now)];
      case Forget => records := records - {key};
      case _ =>
    }

    /** Persist the intent, then touch the provider, then record the answer. */
    method ApplyChange(key: Key, expected: Option<RecordSet>, target: Option<RecordSet>, now: int,
                       ghost was: Option<ManagedRecord>) returns (refused: bool)
      requires key in config
      modifies this
      ensures refused <==> Refuses(old(provider), key, expected)
      ensures var planned := old(At(Intending(key, Plan(expected, target, was, Lookup(records, key), now))));
              At(Ready) == WriteDone(IntentSaved(planned), Answered)
    {
      ghost var planned := At(Intending(key, Plan(expected, target, was, Lookup(records, key), now)));
      var entry := if key in records then records[key] else ManagedRecord(None, None, generation, None, now);
      records := records[key := entry.(pending := Some(PendingChange(expected, target, None, now)))];
      SaveState();
      ghost var saved := IntentSaved(planned);
      assert records == saved.mem && disk == saved.disk;
      var (changed, answer) := Replace(provider, key, expected, target);
      refused := answer.Refused?;
      if !refused {
        ghost var done := CarriedOut(saved);
        log, ours, unsaved := done.log, done.ours, unsaved + TicketSet(saved);
      }
      provider := changed;
      match answer {
        case Immediate =>
          records := records[key := CompleteChange(records[key], expected, target, generation, now)];
        case Submitted(ticket) =>
          var pending := records[key].pending.value;
          records := records[key := records[key].(pending := Some(pending.(ticket := Some(ticket))))];
        case Refused =>
          var left := AfterConflict(records[key]);
          records := if left.Some? then records[key := left.value] else records - {key};
      }
    }

    method ReconcileRecord(key: Key, now: int) returns (action: Action)
      requires key in config
      modifies this
      ensures At(Ready) == RecordPass(old(At(Ready)), key, now)
      ensures var planned := ActionFor(old(At(Ready)), key, now);
              action == if planned.Apply? && Refuses(old(provider), key, planned.expected)
                        then Conflict(ProviderRefused) else planned
    {
      ghost var w := At(Ready);
      var waiting := FinishTracked(key, now);
      if waiting {
        return Wait;
      }
      var observed := Lookup(provider.records, key);
      var settled := Settle(Lookup(records, key), SetOf(observed), generation, now);
      if settled.Some? {
        records := records[key := settled.value];
      }
      assert settled == Basis(w.provider, Lookup(w.mem, key), SetOf(observed), generation, now);
      assert records == WithEntry(w.mem, key, settled);
      action := Decide(config[key], observed, settled, now, settleSecs);
      if action.Apply? {
        var refused := ApplyChange(key, action.expected, action.target, now, Lookup(w.mem, key));
        if refused {
          action := Conflict(ProviderRefused);
        }
      } else {
        RecordQuietAction(key, action, SetOf(observed), now);
        assert records == Inspected(w, key, now).mem;
      }
    }

    /** A record of others that the configuration does not import, judged from the state file. */
    ghost predicate BarredOnDisk(k: Key)
      reads this
    {
      k in config && Barred(config[k], Lookup(disk, k), Lookup(provider.records, k))
    }

    /** A whole pass. Without external edits it leaves every configured record done or submitted, except
        the barred ones, which are exactly those it reports as conflicts; they and all records nobody
        configured stay as they are, and the next pass resumes from the state file. */
    method ReconcileProvider(keys: seq<Key>, generation: nat, now: int) returns (actions: seq<Action>)
      requires Consistent(At(Idle)) && forall k :: k in keys ==> k in config
      modifies this
      ensures Consistent(At(Idle)) && disk == records && |actions| == |keys|
      ensures forall i :: 0 <= i < |keys| ==>
                && (actions[i].Conflict? <==> old(BarredOnDisk(keys[i])))
                && (actions[i].Conflict? || DoneOrSubmitted(At(Idle), keys[i]))
      ensures forall k: Key :: k !in keys || old(BarredOnDisk(k)) ==>
                Lookup(provider.records, k) == old(Lookup(provider.records, k))
    {
      records := disk;
      this.generation := generation;
      actions := [];
      ghost var start := At(Ready);
      for i := 0 to |keys|
        invariant |actions| == i && Progress(start, At(Ready), keys[..i], actions)
      {
        ghost var w := At(Ready);
        var action := ReconcileRecord(keys[i], now);
        PassIsNotRefused(w, keys[i], now);
        ProgressStep(start, w, keys[..i], actions, keys[i], now, action);
        assert keys[..i + 1] == keys[..i] + [keys[i]];
        actions := actions + [action];
      }
      assert keys[..|keys|] == keys;
      forall k ensures old(BarredOnDisk(k)) <==> BarredAt(start, k) { }
      SaveState();
    }
  }
}
