/** The Cloudflare adapter: one API record per value, changed one call at a time
    (dns/cloudflare.rs). */
module Cloudflare {
  import opened Wrappers
  import opened DnsPlan

  /** `value` is the normalized content, `None` when it cannot be parsed. */
  datatype CfRecord = CfRecord(id: nat, value: Option<string>, ttl: nat, proxied: Option<bool>)

  datatype Call =
    | Post(value: string, ttl: nat, proxied: bool)
    | Patch(id: nat, ttl: nat, proxied: bool)
    | Delete(id: nat)

  /** The records of one (name, type). `plain` is the proxy flag the API reports for types that
      cannot be proxied. */
  datatype Zone = Zone(name: string, rtype: RecordType, plain: Option<bool>, records: seq<CfRecord>, nextId: nat)

  predicate Proxiable(rtype: RecordType) { !rtype.Txt? }

  function Reported(z: Zone, proxied: bool): Option<bool> {
    if Proxiable(z.rtype) then Some(proxied) else z.plain
  }

  // ----- Effect of API calls -----

  function Without(rs: seq<CfRecord>, id: nat): (out: seq<CfRecord>)
    ensures forall r :: r in out <==> r in rs && r.id != id
  {
    if rs == [] then []
    else if rs[0].id == id then Without(rs[1..], id)
    else [rs[0]] + Without(rs[1..], id)
  }

  function Patched(rs: seq<CfRecord>, id: nat, ttl: nat, proxied: Option<bool>): seq<CfRecord> {
    seq(|rs|, i requires 0 <= i < |rs| => if rs[i].id == id then rs[i].(ttl := ttl, proxied := proxied) else rs[i])
  }

  function Effect(z: Zone, c: Call): Zone {
    match c
    case Post(v, ttl, proxied) =>
      z.(records := z.records + [CfRecord(z.nextId, Some(v), ttl, Reported(z, proxied))], nextId := z.nextId + 1)
    case Patch(id, ttl, proxied) => z.(records := Patched(z.records, id, ttl, Reported(z, proxied)))
    case Delete(id) => z.(records := Without(z.records, id))
  }

  function Effects(z: Zone, cs: seq<Call>): Zone
    decreases |cs|
  {
    if cs == [] then z else Effects(Effect(z, cs[0]), cs[1..])
  }

  // ----- Reading -----

  function ValueSet(rs: seq<CfRecord>): set<string> {
    if rs == [] then {}
    else (if rs[0].value.Some? then {rs[0].value.value} else {}) + ValueSet(rs[1..])
  }

  predicate Unsupported(rs: seq<CfRecord>)
    requires rs != []
  {
    || |ValueSet(rs)| != |rs|
    || (exists r :: r in rs && r.ttl != rs[0].ttl)
    || (exists r :: r in rs && r.proxied != rs[0].proxied)
  }

  function ObservedIn(z: Zone): Option<Observed> {
    if z.records == [] then None
    else
      var first := z.records[0];
      Some(Observed(
             RecordSet(z.name, z.rtype, first.ttl, ValueSet(z.records),
                       if Proxiable(z.rtype) then first.proxied else None),
             Unsupported(z.records)))
  }

  // ----- The calls `replace` issues -----

  function Existing(rs: seq<CfRecord>, v: string): Option<CfRecord> {
    if rs == [] then None
    else if rs[0].value == Some(v) then Some(rs[0])
    else Existing(rs[1..], v)
  }

  function Obsolete(rs: seq<CfRecord>, keep: set<string>): seq<CfRecord> {
    if rs == [] then []
    else (if rs[0].value.Some? && rs[0].value.value in keep then [] else [rs[0]]) + Obsolete(rs[1..], keep)
  }

  function Deletes(rs: seq<CfRecord>): seq<Call> {
    if rs == [] then [] else [Delete(rs[0].id)] + Deletes(rs[1..])
  }

  /** The call, if any, that gives `v` the target's settings. */
  function WriteOne(rs: seq<CfRecord>, rtype: RecordType, ttl: nat, flag: bool, v: string): seq<Call> {
    match Existing(rs, v)
    case Some(r) =>
      if r.ttl != ttl || (Proxiable(rtype) && r.proxied != Some(flag)) then [Patch(r.id, ttl, flag)] else []
    case None => [Post(v, ttl, flag)]
  }

  function Writes(rs: seq<CfRecord>, rtype: RecordType, ttl: nat, flag: bool, order: seq<string>): seq<Call> {
    if order == [] then []
    else WriteOne(rs, rtype, ttl, flag, order[0]) + Writes(rs, rtype, ttl, flag, order[1..])
  }

  function Flag(z: Zone, target: RecordSet): bool {
    if target.proxied.Some? then target.proxied.value
    else if z.records != [] && Proxiable(z.rtype) && z.records[0].proxied.Some? then z.records[0].proxied.value
    else false
  }

  function TargetWrites(rs: seq<CfRecord>, rtype: RecordType, target: Option<RecordSet>, flag: bool,
                        order: seq<string>): seq<Call>
  {
    if target.Some? then Writes(rs, rtype, target.value.ttl, flag, order) else []
  }

  /** `order` is the order in which the target's values are visited. */
  function Calls(z: Zone, target: Option<RecordSet>, order: seq<string>): seq<Call> {
    var deletes := Deletes(Obsolete(z.records, ValuesOf(target)));
    var writes := TargetWrites(z.records, z.rtype, target, target.Some? && Flag(z, target.value), order);
    if z.rtype.Cname? then deletes + writes else writes + deletes
  }

  /** The check made before the first write: refused when the records are unsupported or are not
      the expected ones. */
  predicate Refuses(z: Zone, expected: Option<RecordSet>) {
    || (z.records != [] && Unsupported(z.records))
    || !SameOptional(SetOf(ObservedIn(z)), expected)
  }

  // ----- Record lists that `observed` accepts -----

  predicate Listed(rs: seq<CfRecord>) {
    rs == [] || (rs[0].value.Some? && rs[0].value.value !in ValueSet(rs[1..]) && Listed(rs[1..]))
  }

  predicate IdsDistinct(rs: seq<CfRecord>) {
    rs == [] || ((forall r :: r in rs[1..] ==> r.id != rs[0].id) && IdsDistinct(rs[1..]))
  }

  /** The API's own guarantee: ids are unique and new ones are fresh. */
  predicate ValidIds(z: Zone) {
    IdsDistinct(z.records) && forall r :: r in z.records ==> r.id < z.nextId
  }

  predicate Uniform(z: Zone, ttl: nat, proxied: Option<bool>) {
    ValidIds(z) && Listed(z.records) && forall r :: r in z.records ==> r.ttl == ttl && r.proxied == proxied
  }

  lemma {:induction false} InValueSet(rs: seq<CfRecord>, v: string)
    ensures v in ValueSet(rs) <==> exists r :: r in rs && r.value == Some(v)
  {
    if rs != [] {
      InValueSet(rs[1..], v);
      assert rs == [rs[0]] + rs[1..];
    }
  }

  /** Counting the distinct values is how duplicates and unparsable records are found. */
  lemma {:induction false} CountDetectsDuplicates(rs: seq<CfRecord>)
    ensures |ValueSet(rs)| <= |rs|
    ensures |ValueSet(rs)| == |rs| <==> Listed(rs)
  {
    if rs != [] {
      CountDetectsDuplicates(rs[1..]);
      if rs[0].value.Some? && rs[0].value.value in ValueSet(rs[1..]) {
        assert {rs[0].value.value} + ValueSet(rs[1..]) == ValueSet(rs[1..]);
      }
    }
  }

  lemma {:induction false} WithoutKeeps(rs: seq<CfRecord>, gone: CfRecord)
    requires gone in rs && Listed(rs) && IdsDistinct(rs)
    ensures Listed(Without(rs, gone.id)) && IdsDistinct(Without(rs, gone.id))
    ensures gone.value.Some?
    ensures ValueSet(Without(rs, gone.id)) == ValueSet(rs) - {gone.value.value}
  {
    assert rs == [rs[0]] + rs[1..];
    if rs[0].id == gone.id {
      assert gone == rs[0];
      NothingToRemove(rs[1..], gone.id);
    } else {
      WithoutKeeps(rs[1..], gone);
      InValueSet(rs[1..], gone.value.value);
      InValueSet(rs[1..], rs[0].value.value);
    }
  }

  lemma {:induction false} NothingToRemove(rs: seq<CfRecord>, id: nat)
    requires forall r :: r in rs ==> r.id != id
    ensures Without(rs, id) == rs
  {
    if rs != [] {
      NothingToRemove(rs[1..], id);
    }
  }

  lemma {:induction false} AppendKeeps(rs: seq<CfRecord>, r: CfRecord)
    requires Listed(rs) && IdsDistinct(rs) && (forall x :: x in rs ==> x.id < r.id)
    requires r.value.Some? && r.value.value !in ValueSet(rs)
    ensures Listed(rs + [r]) && IdsDistinct(rs + [r])
    ensures ValueSet(rs + [r]) == ValueSet(rs) + {r.value.value}
  {
    if rs != [] {
      AppendKeeps(rs[1..], r);
      assert (rs + [r])[1..] == rs[1..] + [r];
    } else {
      assert rs + [r] == [r];
    }
  }

  lemma UniformIsSupported(z: Zone, ttl: nat, proxied: Option<bool>)
    requires Uniform(z, ttl, proxied)
    ensures ObservedIn(z) ==
            if z.records == [] then None
            else Some(Observed(RecordSet(z.name, z.rtype, ttl, ValueSet(z.records),
                                         if Proxiable(z.rtype) then proxied else None), false))
    ensures z.records == [] <==> ValueSet(z.records) == {}
  {
    CountDetectsDuplicates(z.records);
  }

  lemma SupportedIsUniform(z: Zone)
    requires ValidIds(z) && z.records != [] && !Unsupported(z.records)
    ensures Uniform(z, z.records[0].ttl, z.records[0].proxied)
  {
    CountDetectsDuplicates(z.records);
  }

  // ----- Progress of one call -----

  function SymDiff(a: set<string>, b: set<string>): set<string> { (a - b) + (b - a) }

  /** The call posts a wanted value that is missing or deletes a record whose value is unwanted. */
  ghost predicate Helps(z: Zone, c: Call, ttl: nat, flag: bool, goal: set<string>) {
    match c
    case Post(v, t, p) => v in goal && v !in ValueSet(z.records) && t == ttl && p == flag
    case Delete(id) => exists r :: r in z.records && r.id == id && r.value.Some? && r.value.value !in goal
    case Patch(_, _, _) => false
  }

  /** Every call of `cs` helps at the point where it is made. */
  ghost predicate Advances(z: Zone, cs: seq<Call>, ttl: nat, flag: bool, goal: set<string>)
    decreases |cs|
  {
    cs == [] || (Helps(z, cs[0], ttl, flag, goal) && Advances(Effect(z, cs[0]), cs[1..], ttl, flag, goal))
  }

  /** `v'` lies between `v` and `goal`, `k` values nearer to `goal` than `v`. */
  predicate Nearer(v: set<string>, v': set<string>, goal: set<string>, k: nat) {
    v * goal <= v' <= v + goal && |SymDiff(v', goal)| + k == |SymDiff(v, goal)|
  }

  lemma NearerChains(v: set<string>, v1: set<string>, v2: set<string>, goal: set<string>, j: nat, k: nat)
    requires Nearer(v, v1, goal, j) && Nearer(v1, v2, goal, k)
    ensures Nearer(v, v2, goal, j + k)
  {
  }

  /** Adding a wanted value or dropping an unwanted one removes one element of the difference. */
  lemma DifferenceShrinks(v: set<string>, v': set<string>, goal: set<string>, x: string)
    requires (x in goal && x !in v && v' == v + {x}) || (x !in goal && x in v && v' == v - {x})
    ensures Nearer(v, v', goal, 1)
  {
    if x in goal {
      assert SymDiff(v, goal) == SymDiff(v', goal) + {x};
    } else {
      assert SymDiff(v, goal) == SymDiff(v', goal) + {x};
    }
  }

  lemma OnePost(z: Zone, v: string, ttl: nat, flag: bool)
    requires Uniform(z, ttl, Reported(z, flag)) && v !in ValueSet(z.records)
    ensures var z' := Effect(z, Post(v, ttl, flag));
            Uniform(z', ttl, Reported(z, flag)) && ValueSet(z'.records) == ValueSet(z.records) + {v}
  {
    AppendKeeps(z.records, CfRecord(z.nextId, Some(v), ttl, Reported(z, flag)));
  }

  lemma OneDelete(z: Zone, r: CfRecord, ttl: nat, flag: bool)
    requires Uniform(z, ttl, Reported(z, flag)) && r in z.records
    ensures r.value.Some? && r.value.value in ValueSet(z.records)
    ensures var z' := Effect(z, Delete(r.id));
            Uniform(z', ttl, Reported(z, flag)) && ValueSet(z'.records) == ValueSet(z.records) - {r.value.value}
  {
    WithoutKeeps(z.records, r);
    InValueSet(z.records, r.value.value);
  }

  lemma OneCall(z: Zone, c: Call, ttl: nat, flag: bool, goal: set<string>)
    requires Uniform(z, ttl, Reported(z, flag)) && Helps(z, c, ttl, flag, goal)
    ensures Uniform(Effect(z, c), ttl, Reported(z, flag))
    ensures Nearer(ValueSet(z.records), ValueSet(Effect(z, c).records), goal, 1)
  {
    match c {
      case Post(x, _, _) =>
        OnePost(z, x, ttl, flag);
        DifferenceShrinks(ValueSet(z.records), ValueSet(Effect(z, c).records), goal, x);
      case Delete(id) =>
        var r :| r in z.records && r.id == id && r.value.Some? && r.value.value !in goal;
        OneDelete(z, r, ttl, flag);
        DifferenceShrinks(ValueSet(z.records), ValueSet(Effect(z, c).records), goal, r.value.value);
      case Patch(_, _, _) =>
    }
  }

  lemma {:induction false} PrefixUniform(z: Zone, cs: seq<Call>, k: nat, ttl: nat, flag: bool, goal: set<string>)
    requires Uniform(z, ttl, Reported(z, flag)) && Advances(z, cs, ttl, flag, goal) && k <= |cs|
    ensures var z' := Effects(z, cs[..k]);
            && z'.name == z.name && z'.rtype == z.rtype && z'.plain == z.plain
            && Uniform(z', ttl, Reported(z, flag))
    decreases k
  {
    if k > 0 {
      OneCall(z, cs[0], ttl, flag, goal);
      PrefixUniform(Effect(z, cs[0]), cs[1..], k - 1, ttl, flag, goal);
      PrefixTail(cs, k);
    }
  }

  lemma {:induction false} PrefixNearer(z: Zone, cs: seq<Call>, k: nat, ttl: nat, flag: bool, goal: set<string>)
    requires Uniform(z, ttl, Reported(z, flag)) && Advances(z, cs, ttl, flag, goal) && k <= |cs|
    ensures Nearer(ValueSet(z.records), ValueSet(Effects(z, cs[..k]).records), goal, k)
    decreases k
  {
    if k > 0 {
      var z1 := Effect(z, cs[0]);
      OneCall(z, cs[0], ttl, flag, goal);
      PrefixNearer(z1, cs[1..], k - 1, ttl, flag, goal);
      PrefixTail(cs, k);
      NearerChains(ValueSet(z.records), ValueSet(z1.records), ValueSet(Effects(z, cs[..k]).records), goal, 1, k - 1);
    }
  }

  /** Every prefix of an advancing call list leaves a supported record set between the endpoints. */
  lemma PrefixAdvances(z: Zone, cs: seq<Call>, k: nat, ttl: nat, flag: bool, goal: set<string>)
    requires Uniform(z, ttl, Reported(z, flag)) && Advances(z, cs, ttl, flag, goal) && k <= |cs|
    ensures var z' := Effects(z, cs[..k]);
            && z'.name == z.name && z'.rtype == z.rtype && z'.plain == z.plain
            && Uniform(z', ttl, Reported(z, flag))
            && Nearer(ValueSet(z.records), ValueSet(z'.records), goal, k)
  {
    PrefixUniform(z, cs, k, ttl, flag, goal);
    PrefixNearer(z, cs, k, ttl, flag, goal);
  }

  lemma {:induction false} AdvancesConcat(z: Zone, a: seq<Call>, b: seq<Call>, ttl: nat, flag: bool, goal: set<string>)
    requires Advances(z, a, ttl, flag, goal) && Advances(Effects(z, a), b, ttl, flag, goal)
    ensures Advances(z, a + b, ttl, flag, goal)
    ensures Effects(z, a + b) == Effects(Effects(z, a), b)
    decreases |a|
  {
    if a == [] {
      assert a + b == b;
    } else {
      AdvancesConcat(Effect(z, a[0]), a[1..], b, ttl, flag, goal);
      ConcatTail(a, b);
    }
  }

  // ----- The calls `replace` issues make progress -----

  lemma {:induction false} ObsoleteIs(rs: seq<CfRecord>, keep: set<string>)
    ensures forall r :: r in Obsolete(rs, keep) <==> r in rs && !(r.value.Some? && r.value.value in keep)
    ensures IdsDistinct(rs) ==> IdsDistinct(Obsolete(rs, keep))
  {
    if rs != [] {
      ObsoleteIs(rs[1..], keep);
      assert rs == [rs[0]] + rs[1..];
      var rest := Obsolete(rs[1..], keep);
      assert ([rs[0]] + rest)[1..] == rest;
      assert [] + rest == rest;
    }
  }

  lemma {:induction false} DeletesAdvance(z: Zone, rs: seq<CfRecord>, ttl: nat, flag: bool, goal: set<string>)
    requires Uniform(z, ttl, Reported(z, flag))
    requires IdsDistinct(rs) && forall r :: r in rs ==> r in z.records && r.value.Some? && r.value.value !in goal
    ensures Advances(z, Deletes(rs), ttl, flag, goal)
    ensures ValueSet(Effects(z, Deletes(rs)).records) == ValueSet(z.records) - ValueSet(rs)
    decreases |rs|
  {
    if rs != [] {
      var c := Delete(rs[0].id);
      assert rs[0] in rs;
      OneDelete(z, rs[0], ttl, flag);
      DeletesAdvance(Effect(z, c), rs[1..], ttl, flag, goal);
      assert Deletes(rs)[1..] == Deletes(rs[1..]);
    }
  }

  lemma {:induction false} ExistingIs(rs: seq<CfRecord>, v: string)
    ensures Existing(rs, v).Some? <==> v in ValueSet(rs)
    ensures Existing(rs, v).Some? ==> Existing(rs, v).value in rs && Existing(rs, v).value.value == Some(v)
  {
    if rs != [] {
      ExistingIs(rs[1..], v);
    }
  }

  function Elems(vs: seq<string>): (s: set<string>)
    ensures forall v :: v in s <==> v in vs
  {
    set v | v in vs
  }

  /** The values of `order` that `have` lacks. */
  function Missing(order: seq<string>, have: set<string>): seq<string> {
    if order == [] then []
    else (if order[0] in have then [] else [order[0]]) + Missing(order[1..], have)
  }

  predicate Distinct(vs: seq<string>) {
    vs == [] || (vs[0] !in vs[1..] && Distinct(vs[1..]))
  }

  function Posts(vs: seq<string>, ttl: nat, flag: bool): seq<Call> {
    if vs == [] then [] else [Post(vs[0], ttl, flag)] + Posts(vs[1..], ttl, flag)
  }

  lemma {:induction false} MissingIs(order: seq<string>, have: set<string>)
    requires Distinct(order)
    ensures Distinct(Missing(order, have))
    ensures forall v :: v in Missing(order, have) <==> v in order && v !in have
  {
    if order != [] {
      MissingIs(order[1..], have);
      var rest := Missing(order[1..], have);
      assert ([order[0]] + rest)[1..] == rest;
      assert [] + rest == rest;
    }
  }

  /** When nothing has to be patched, the writes are exactly the posts of the missing values. */
  lemma {:induction false} WritesArePosts(z: Zone, rs: seq<CfRecord>, ttl: nat, flag: bool, order: seq<string>)
    requires forall r :: r in rs ==> r.ttl == ttl && (Proxiable(z.rtype) ==> r.proxied == Some(flag))
    ensures Writes(rs, z.rtype, ttl, flag, order) == Posts(Missing(order, ValueSet(rs)), ttl, flag)
  {
    if order != [] {
      ExistingIs(rs, order[0]);
      WritesArePosts(z, rs, ttl, flag, order[1..]);
      var rest := Missing(order[1..], ValueSet(rs));
      assert ([order[0]] + rest)[1..] == rest;
      assert [] + rest == rest;
    }
  }

  lemma {:induction false} PostsAdvance(z: Zone, vs: seq<string>, ttl: nat, flag: bool, goal: set<string>)
    requires Uniform(z, ttl, Reported(z, flag))
    requires Distinct(vs) && forall v :: v in vs ==> v in goal && v !in ValueSet(z.records)
    ensures Advances(z, Posts(vs, ttl, flag), ttl, flag, goal)
    ensures var z' := Effects(z, Posts(vs, ttl, flag));
            && Uniform(z', ttl, Reported(z, flag)) && z'.rtype == z.rtype && z'.plain == z.plain
            && z.records <= z'.records
            && ValueSet(z'.records) == ValueSet(z.records) + Elems(vs)
    decreases |vs|
  {
    if vs != [] {
      var c := Post(vs[0], ttl, flag);
      OnePost(z, vs[0], ttl, flag);
      PostsAdvance(Effect(z, c), vs[1..], ttl, flag, goal);
      assert Posts(vs, ttl, flag)[1..] == Posts(vs[1..], ttl, flag);
      assert Elems(vs) == {vs[0]} + Elems(vs[1..]);
    }
  }

  lemma {:induction false} EnumerationIsDistinct(order: seq<string>, s: set<string>)
    requires Enumerates(order, s)
    ensures Distinct(order)
  {
    if order != [] {
      EnumerationIsDistinct(order[1..], Elems(order[1..]));
    }
  }

  lemma {:induction false} ValueSetOfObsolete(rs: seq<CfRecord>, keep: set<string>)
    requires Listed(rs)
    ensures ValueSet(Obsolete(rs, keep)) == ValueSet(rs) - keep
  {
    if rs != [] {
      ValueSetOfObsolete(rs[1..], keep);
      var rest := Obsolete(rs[1..], keep);
      assert ([rs[0]] + rest)[1..] == rest;
      assert [] + rest == rest;
    }
  }

  lemma ObsoleteAdvance(z: Zone, rs: seq<CfRecord>, ttl: nat, flag: bool, goal: set<string>)
    requires Uniform(z, ttl, Reported(z, flag)) && Listed(rs) && IdsDistinct(rs) && rs <= z.records
    ensures var deletes := Deletes(Obsolete(rs, goal));
            && Advances(z, deletes, ttl, flag, goal)
            && ValueSet(Effects(z, deletes).records) == ValueSet(z.records) - (ValueSet(rs) - goal)
  {
    ObsoleteIs(rs, goal);
    ValueSetOfObsolete(rs, goal);
    forall r | r in Obsolete(rs, goal) ensures r.value.Some? { ListedHasValues(rs, r); }
    DeletesAdvance(z, Obsolete(rs, goal), ttl, flag, goal);
  }

  /** A change that keeps TTL and proxy setting consists of POST and DELETE calls only, one for each
      value in the symmetric difference, and ends at exactly the target values. */
  lemma CallsAdvance(z: Zone, target: Option<RecordSet>, order: seq<string>, ttl: nat, flag: bool)
    requires Uniform(z, ttl, Reported(z, flag)) && Enumerates(order, ValuesOf(target))
    requires target.Some? ==> target.value.ttl == ttl && Flag(z, target.value) == flag
    ensures Advances(z, Calls(z, target, order), ttl, flag, ValuesOf(target))
    ensures ValueSet(Effects(z, Calls(z, target, order)).records) == ValuesOf(target)
    ensures |Calls(z, target, order)| == |SymDiff(ValueSet(z.records), ValuesOf(target))|
  {
    var goal := ValuesOf(target);
    var have := ValueSet(z.records);
    var deletes := Deletes(Obsolete(z.records, goal));
    var missing := Missing(order, have);
    var writes := Posts(missing, ttl, flag);
    EnumerationIsDistinct(order, goal);
    MissingIs(order, have);
    WritesArePosts(z, z.records, ttl, flag, order);
    assert target.None? ==> order == [];
    assert Elems(missing) == goal - have;
    if z.rtype.Cname? {
      DeleteFirst(z, deletes, missing, ttl, flag, goal);
    } else {
      PostsAdvance(z, missing, ttl, flag, goal);
      ObsoletePrefix(z, Effects(z, writes), ttl, flag, goal);
      AdvancesConcat(z, writes, deletes, ttl, flag, goal);
    }
    CallCount(z, Calls(z, target, order), ttl, flag, goal);
  }

  lemma ObsoletePrefix(z: Zone, z': Zone, ttl: nat, flag: bool, goal: set<string>)
    requires Uniform(z, ttl, Reported(z, flag)) && Uniform(z', ttl, Reported(z, flag))
    requires z'.rtype == z.rtype && z'.plain == z.plain && z.records <= z'.records
    requires ValueSet(z'.records) == ValueSet(z.records) + goal
    ensures var deletes := Deletes(Obsolete(z.records, goal));
            Advances(z', deletes, ttl, flag, goal) && ValueSet(Effects(z', deletes).records) == goal
  {
    ObsoleteAdvance(z', z.records, ttl, flag, goal);
  }

  lemma DeleteFirst(z: Zone, deletes: seq<Call>, missing: seq<string>, ttl: nat, flag: bool, goal: set<string>)
    requires Uniform(z, ttl, Reported(z, flag)) && deletes == Deletes(Obsolete(z.records, goal))
    requires Distinct(missing) && Elems(missing) == goal - ValueSet(z.records)
    ensures var calls := deletes + Posts(missing, ttl, flag);
            Advances(z, calls, ttl, flag, goal) && ValueSet(Effects(z, calls).records) == goal
  {
    var z1 := Effects(z, deletes);
    ObsoleteAdvance(z, z.records, ttl, flag, goal);
    assert deletes[..|deletes|] == deletes;
    PrefixAdvances(z, deletes, |deletes|, ttl, flag, goal);
    assert Reported(z1, flag) == Reported(z, flag);
    PostMissing(z1, ValueSet(z.records), missing, ttl, flag, goal);
    AdvancesConcat(z, deletes, Posts(missing, ttl, flag), ttl, flag, goal);
  }

  lemma PostMissing(z: Zone, have: set<string>, missing: seq<string>, ttl: nat, flag: bool, goal: set<string>)
    requires Uniform(z, ttl, Reported(z, flag)) && ValueSet(z.records) == have - (have - goal)
    requires Distinct(missing) && Elems(missing) == goal - have
    ensures var posts := Posts(missing, ttl, flag);
            Advances(z, posts, ttl, flag, goal) && ValueSet(Effects(z, posts).records) == goal
  {
    assert forall v :: v in missing ==> v in Elems(missing);
    PostsAdvance(z, missing, ttl, flag, goal);
  }

  lemma CallCount(z: Zone, calls: seq<Call>, ttl: nat, flag: bool, goal: set<string>)
    requires Uniform(z, ttl, Reported(z, flag)) && Advances(z, calls, ttl, flag, goal)
    requires ValueSet(Effects(z, calls).records) == goal
    ensures |calls| == |SymDiff(ValueSet(z.records), goal)|
  {
    PrefixAdvances(z, calls, |calls|, ttl, flag, goal);
    assert calls[..|calls|] == calls;
  }

  /** "Add new values first to avoid an empty answer": except for a CNAME, no prefix of a change
      between two non-empty sets ever leaves the name without a record. */
  lemma NeverEmptyAnswer(z: Zone, target: RecordSet, order: seq<string>, ttl: nat, flag: bool, k: nat)
    requires !z.rtype.Cname? && z.records != [] && target.values != {} && Enumerates(order, target.values)
    requires Uniform(z, ttl, Reported(z, flag)) && target.ttl == ttl && Flag(z, target) == flag
    requires k <= |Calls(z, Some(target), order)|
    ensures Effects(z, Calls(z, Some(target), order)[..k]).records != []
  {
    var missing := Missing(order, ValueSet(z.records));
    EnumerationIsDistinct(order, target.values);
    MissingIs(order, ValueSet(z.records));
    WritesArePosts(z, z.records, ttl, flag, order);
    PostsThenDeletes(z, missing, ttl, flag, target.values, k);
  }

  lemma PostsThenDeletes(z: Zone, missing: seq<string>, ttl: nat, flag: bool, goal: set<string>, k: nat)
    requires Uniform(z, ttl, Reported(z, flag)) && z.records != [] && goal != {}
    requires Distinct(missing) && Elems(missing) == goal - ValueSet(z.records)
    requires k <= |Posts(missing, ttl, flag) + Deletes(Obsolete(z.records, goal))|
    ensures Effects(z, (Posts(missing, ttl, flag) + Deletes(Obsolete(z.records, goal)))[..k]).records != []
  {
    var posts, deletes := Posts(missing, ttl, flag), Deletes(Obsolete(z.records, goal));
    if k <= |posts| {
      assert (posts + deletes)[..k] == posts[..k];
      PostsAppend(z, missing, ttl, flag, k);
    } else {
      assert forall v :: v in missing ==> v in Elems(missing);
      PostsAdvance(z, missing, ttl, flag, goal);
      DeletesLeaveGoal(z, Effects(z, posts), ttl, flag, goal, k - |posts|);
      assert (posts + deletes)[..k] == posts + deletes[..k - |posts|];
      EffectsConcat(z, posts, deletes[..k - |posts|]);
    }
  }

  lemma DeletesLeaveGoal(z: Zone, z1: Zone, ttl: nat, flag: bool, goal: set<string>, k: nat)
    requires Uniform(z, ttl, Reported(z, flag)) && Uniform(z1, ttl, Reported(z, flag)) && goal != {}
    requires z1.rtype == z.rtype && z1.plain == z.plain && z.records <= z1.records
    requires ValueSet(z1.records) == ValueSet(z.records) + goal
    requires k <= |Deletes(Obsolete(z.records, goal))|
    ensures Effects(z1, Deletes(Obsolete(z.records, goal))[..k]).records != []
  {
    ObsoletePrefix(z, z1, ttl, flag, goal);
    PrefixAdvances(z1, Deletes(Obsolete(z.records, goal)), k, ttl, flag, goal);
  }

  lemma {:induction false} PostsAppend(z: Zone, vs: seq<string>, ttl: nat, flag: bool, k: nat)
    requires k <= |Posts(vs, ttl, flag)|
    ensures z.records <= Effects(z, Posts(vs, ttl, flag)[..k]).records
    decreases k
  {
    if k > 0 {
      PostsAppend(Effect(z, Post(vs[0], ttl, flag)), vs[1..], ttl, flag, k - 1);
      PrefixTail(Posts(vs, ttl, flag), k);
    }
  }

  lemma {:induction false} ListedHasValues(rs: seq<CfRecord>, r: CfRecord)
    requires Listed(rs) && r in rs
    ensures r.value.Some?
  {
    if r != rs[0] {
      assert rs == [rs[0]] + rs[1..];
      ListedHasValues(rs[1..], r);
    }
  }

  // ----- The adapter as it runs: calls are sent one at a time -----

  lemma {:induction false} EffectsConcat(z: Zone, a: seq<Call>, b: seq<Call>)
    ensures Effects(z, a + b) == Effects(Effects(z, a), b)
    decreases |a|
  {
    if a == [] {
      assert a + b == b;
    } else {
      EffectsConcat(Effect(z, a[0]), a[1..], b);
      ConcatTail(a, b);
    }
  }

  /** One more call of a list is sent. */
  lemma EffectsNext(z: Zone, cs: seq<Call>, i: nat)
    requires i < |cs|
    ensures Effects(z, cs[..i + 1]) == Effect(Effects(z, cs[..i]), cs[i])
  {
    assert cs[..i + 1] == cs[..i] + [cs[i]];
    EffectsConcat(z, cs[..i], [cs[i]]);
    assert [cs[i]][1..] == [];
  }

  function Min(a: nat, b: nat): nat { if a <= b then a else b }

  lemma {:induction false} DeletesAt(rs: seq<CfRecord>, i: nat)
    requires i < |rs|
    ensures |Deletes(rs)| == |rs| && Deletes(rs)[i] == Delete(rs[i].id)
  {
    if |rs| > 1 {
      DeletesAt(rs[1..], if i == 0 then 0 else i - 1);
    }
  }

  lemma {:induction false} WritesConcat(rs: seq<CfRecord>, rtype: RecordType, ttl: nat, flag: bool, a: seq<string>,
      b: seq<string>)
    ensures Writes(rs, rtype, ttl, flag, a + b) == Writes(rs, rtype, ttl, flag, a) + Writes(rs, rtype, ttl, flag, b)
  {
    if a == [] {
      assert a + b == b;
    } else {
      WritesConcat(rs, rtype, ttl, flag, a[1..], b);
      ConcatTail(a, b);
      var head, mid, tail :=
        WriteOne(rs, rtype, ttl, flag, a[0]), Writes(rs, rtype, ttl, flag, a[1..]), Writes(rs, rtype, ttl, flag, b);
      calc {
        Writes(rs, rtype, ttl, flag, a + b);
        head + Writes(rs, rtype, ttl, flag, a[1..] + b);
        head + (mid + tail);
        (head + mid) + tail;
      }
    }
  }

  // ----- All the calls of a change together reach the target, whatever TTL and flag it asks for -----

  /** What the provider keeps true of its records: unique ids, and the one flag it reports for types
      that cannot be proxied. */
  predicate Kept(z: Zone) {
    ValidIds(z) && (!Proxiable(z.rtype) ==> forall r :: r in z.records ==> r.proxied == z.plain)
  }

  lemma {:induction false} IdIdentifies(rs: seq<CfRecord>, a: CfRecord, b: CfRecord)
    requires IdsDistinct(rs) && a in rs && b in rs && a.id == b.id
    ensures a == b
  {
    assert rs == [rs[0]] + rs[1..];
    if a != rs[0] && b != rs[0] {
      IdIdentifies(rs[1..], a, b);
    }
  }

  lemma {:induction false} ValueIdentifies(rs: seq<CfRecord>, a: CfRecord, b: CfRecord)
    requires Listed(rs) && a in rs && b in rs && a.value == b.value
    ensures a == b
  {
    assert rs == [rs[0]] + rs[1..];
    if a != rs[0] && b != rs[0] {
      ValueIdentifies(rs[1..], a, b);
    } else {
      InValueSet(rs[1..], rs[0].value.value);
    }
  }

  /** A PATCH exchanges one record for itself with the new settings. */
  lemma {:induction false} PatchedIs(rs: seq<CfRecord>, x: CfRecord, ttl: nat, proxied: Option<bool>)
    requires IdsDistinct(rs) && x in rs
    ensures var out := Patched(rs, x.id, ttl, proxied);
            && IdsDistinct(out) && ValueSet(out) == ValueSet(rs) && (Listed(rs) ==> Listed(out))
            && forall r :: r in out <==> (r in rs && r.id != x.id) || r == x.(ttl := ttl, proxied := proxied)
  {
    var out := Patched(rs, x.id, ttl, proxied);
    assert rs == [rs[0]] + rs[1..] && out == [out[0]] + out[1..];
    assert out[1..] == Patched(rs[1..], x.id, ttl, proxied);
    if rs[0].id == x.id {
      IdIdentifies(rs, rs[0], x);
      assert out[1..] == rs[1..];
    } else {
      PatchedIs(rs[1..], x, ttl, proxied);
    }
  }

  /** The record that held `v` when the records were listed is still there as it was; no other has appeared. */
  ghost predicate Untouched(z: Zone, listed: seq<CfRecord>, v: string) {
    match Existing(listed, v)
    case Some(r) => r in z.records && r.value == Some(v)
    case None => v !in ValueSet(z.records)
  }

  /** From `z` to `z'` exactly the values of `vs` were given the settings, and nothing else changed. */
  ghost predicate Settles(z: Zone, z': Zone, vs: set<string>, ttl: nat, flag: bool) {
    && Kept(z') && Listed(z'.records) && z'.name == z.name && z'.rtype == z.rtype && z'.plain == z.plain
    && ValueSet(z'.records) == ValueSet(z.records) + vs
    && (forall r :: r in z'.records && r.value.Some? && r.value.value in vs ==>
          r.ttl == ttl && r.proxied == Reported(z, flag))
    && (forall r: CfRecord :: r.value.Some? && r.value.value !in vs ==> (r in z'.records <==> r in z.records))
  }

  lemma PatchSettles(z: Zone, x: CfRecord, ttl: nat, flag: bool, v: string)
    requires Kept(z) && Listed(z.records) && x in z.records && x.value == Some(v)
    ensures Settles(z, Effect(z, Patch(x.id, ttl, flag)), {v}, ttl, flag)
    ensures x.ttl == ttl && x.proxied == Reported(z, flag) ==> Settles(z, z, {v}, ttl, flag)
  {
    InValueSet(z.records, v);
    PatchedIs(z.records, x, ttl, Reported(z, flag));
    forall r | r in z.records && r.value == Some(v) ensures r == x { ValueIdentifies(z.records, r, x); }
    forall r | r in z.records && r.id == x.id ensures r == x { IdIdentifies(z.records, r, x); }
  }

  lemma PostSettles(z: Zone, ttl: nat, flag: bool, v: string)
    requires Kept(z) && Listed(z.records) && v !in ValueSet(z.records)
    ensures Settles(z, Effect(z, Post(v, ttl, flag)), {v}, ttl, flag)
  {
    InValueSet(z.records, v);
    AppendKeeps(z.records, CfRecord(z.nextId, Some(v), ttl, Reported(z, flag)));
  }

  /** Writing one value leaves one record of it with the settings asked for; the other records stay as they are. */
  lemma WriteOneSettles(z: Zone, listed: seq<CfRecord>, ttl: nat, flag: bool, v: string)
    requires Kept(z) && Listed(z.records) && Untouched(z, listed, v)
    ensures Settles(z, Effects(z, WriteOne(listed, z.rtype, ttl, flag, v)), {v}, ttl, flag)
  {
    match Existing(listed, v) {
      case Some(x) => PatchSettles(z, x, ttl, flag, v);
      case None => PostSettles(z, ttl, flag, v);
    }
  }

  /** The values to write are all different, and their records are still as they were listed. */
  ghost predicate Writable(z: Zone, listed: seq<CfRecord>, order: seq<string>) {
    Kept(z) && Listed(z.records) && Distinct(order) && forall v :: v in order ==> Untouched(z, listed, v)
  }

  lemma {:induction false} WritesSettle(z: Zone, listed: seq<CfRecord>, ttl: nat, flag: bool, order: seq<string>)
    requires Writable(z, listed, order)
    ensures Settles(z, Effects(z, Writes(listed, z.rtype, ttl, flag, order)), Elems(order), ttl, flag)
    decreases |order|
  {
    if order != [] {
      var v, rest := order[0], order[1..];
      var head := WriteOne(listed, z.rtype, ttl, flag, v);
      var z1 := Effects(z, head);
      assert Untouched(z, listed, v);
      WriteOneSettles(z, listed, ttl, flag, v);
      forall u | u in rest ensures Untouched(z1, listed, u) {
        assert Untouched(z, listed, u) && u != v;
      }
      WritesSettle(z1, listed, ttl, flag, rest);
      EffectsConcat(z, head, Writes(listed, z.rtype, ttl, flag, rest));
      assert Elems(order) == {v} + Elems(rest);
      SettlesChain(z, z1, Effects(z1, Writes(listed, z.rtype, ttl, flag, rest)), v, Elems(rest), ttl, flag);
    }
  }

  lemma SettlesChain(z: Zone, z1: Zone, z2: Zone, v: string, vs: set<string>, ttl: nat, flag: bool)
    requires Settles(z, z1, {v}, ttl, flag) && Settles(z1, z2, vs, ttl, flag) && v !in vs
    ensures Settles(z, z2, {v} + vs, ttl, flag)
  {
  }

  /** Deleting by id removes exactly the records with one of the ids. */
  lemma {:induction false} DeletesRemove(z: Zone, rs: seq<CfRecord>)
    requires Kept(z) && Listed(z.records)
    ensures var z' := Effects(z, Deletes(rs));
            && Kept(z') && Listed(z'.records) && z'.name == z.name && z'.rtype == z.rtype && z'.plain == z.plain
            && forall r :: r in z'.records <==> r in z.records && forall q :: q in rs ==> q.id != r.id
    decreases |rs|
  {
    if rs != [] {
      var z1 := Effect(z, Delete(rs[0].id));
      if x :| x in z.records && x.id == rs[0].id {
        WithoutKeeps(z.records, x);
      } else {
        NothingToRemove(z.records, rs[0].id);
      }
      DeletesRemove(z1, rs[1..]);
      assert Deletes(rs)[1..] == Deletes(rs[1..]);
      assert rs == [rs[0]] + rs[1..];
    }
  }

  /** After its obsolete records are gone a zone holds only records whose value is kept. */
  lemma ObsoleteRemoved(z: Zone, listed: seq<CfRecord>, keep: set<string>)
    requires Kept(z) && Listed(z.records)
    requires forall r :: r in listed && !(r.value.Some? && r.value.value in keep) ==> r in z.records
    requires forall r :: r in z.records ==> (r.value.Some? && r.value.value in keep) || r in listed
    ensures var z' := Effects(z, Deletes(Obsolete(listed, keep)));
            && Kept(z') && Listed(z'.records) && z'.name == z.name && z'.rtype == z.rtype && z'.plain == z.plain
            && forall r :: r in z'.records <==> r in z.records && r.value.Some? && r.value.value in keep
  {
    var gone := Obsolete(listed, keep);
    ObsoleteIs(listed, keep);
    DeletesRemove(z, gone);
    forall r, q | r in z.records && q in gone && q.id == r.id ensures r == q {
      IdIdentifies(z.records, r, q);
    }
  }

  lemma {:induction false} ExistingOfListed(rs: seq<CfRecord>, v: string, r: CfRecord)
    requires Listed(rs) && r in rs && r.value == Some(v)
    ensures Existing(rs, v) == Some(r)
  {
    InValueSet(rs, v);
    ExistingIs(rs, v);
    ValueIdentifies(rs, r, Existing(rs, v).value);
  }

  lemma WriteFirstReaches(z: Zone, ttl: nat, flag: bool, order: seq<string>)
    requires Kept(z) && Listed(z.records) && Distinct(order)
    ensures var z' := Effects(z, Writes(z.records, z.rtype, ttl, flag, order)
                                 + Deletes(Obsolete(z.records, Elems(order))));
            && z'.name == z.name && z'.rtype == z.rtype
            && Uniform(z', ttl, Reported(z, flag)) && ValueSet(z'.records) == Elems(order)
  {
    var writes, keep := Writes(z.records, z.rtype, ttl, flag, order), Elems(order);
    forall v | v in order ensures Untouched(z, z.records, v) { ExistingIs(z.records, v); }
    WritesSettle(z, z.records, ttl, flag, order);
    var z1 := Effects(z, writes);
    forall r | r in z.records || r in z1.records ensures r.value.Some? {
      if r in z.records { ListedHasValues(z.records, r); } else { ListedHasValues(z1.records, r); }
    }
    ObsoleteRemoved(z1, z.records, keep);
    EffectsConcat(z, writes, Deletes(Obsolete(z.records, keep)));
    KeptValues(z1, Effects(z1, Deletes(Obsolete(z.records, keep))), keep);
  }

  lemma DeleteFirstReaches(z: Zone, ttl: nat, flag: bool, order: seq<string>)
    requires Kept(z) && Listed(z.records) && Distinct(order)
    ensures var z' := Effects(z, Deletes(Obsolete(z.records, Elems(order)))
                                 + Writes(z.records, z.rtype, ttl, flag, order));
            && z'.name == z.name && z'.rtype == z.rtype
            && Uniform(z', ttl, Reported(z, flag)) && ValueSet(z'.records) == Elems(order)
  {
    var deletes, keep := Deletes(Obsolete(z.records, Elems(order))), Elems(order);
    ObsoleteRemoved(z, z.records, keep);
    var z1 := Effects(z, deletes);
    forall v | v in order ensures Untouched(z1, z.records, v) {
      ExistingIs(z.records, v);
      InValueSet(z.records, v);
      InValueSet(z1.records, v);
    }
    WritesSettle(z1, z.records, ttl, flag, order);
    EffectsConcat(z, deletes, Writes(z.records, z.rtype, ttl, flag, order));
    var z2 := Effects(z1, Writes(z.records, z.rtype, ttl, flag, order));
    forall v | v in ValueSet(z1.records) ensures v in keep { InValueSet(z1.records, v); }
    forall r | r in z2.records ensures r.value.Some? && r.value.value in keep {
      ListedHasValues(z2.records, r);
      InValueSet(z2.records, r.value.value);
    }
  }

  lemma KeptValues(z: Zone, z': Zone, keep: set<string>)
    requires keep <= ValueSet(z.records)
    requires forall r :: r in z'.records <==> r in z.records && r.value.Some? && r.value.value in keep
    ensures ValueSet(z'.records) == keep
  {
    forall v ensures v in ValueSet(z'.records) <==> v in keep {
      InValueSet(z.records, v);
      InValueSet(z'.records, v);
    }
  }

  /** The configured flag; without one the flag the records had, and unproxied when they had none. */
  ghost predicate HasFlag(flag: bool, target: RecordSet, before: seq<CfRecord>) {
    && (target.proxied.Some? ==> Some(flag) == target.proxied)
    && (target.proxied.None? ==>
          && (forall r :: r in before && r.proxied.Some? ==> Some(flag) == r.proxied)
          && ((forall r :: r in before ==> r.proxied.None?) ==> !flag))
  }

  lemma FlagIs(z: Zone, target: RecordSet)
    requires Proxiable(z.rtype) && (z.records != [] ==> !Unsupported(z.records))
    ensures HasFlag(Flag(z, target), target, z.records)
  {
    if z.records != [] {
      assert z.records[0] in z.records;
      assert forall r :: r in z.records ==> r.proxied == z.records[0].proxied;
    }
  }

  lemma CallsMakeUniform(z: Zone, target: RecordSet, order: seq<string>)
    requires Kept(z) && Listed(z.records) && Enumerates(order, target.values)
    ensures var z' := Effects(z, Calls(z, Some(target), order));
            && z'.name == z.name && z'.rtype == z.rtype && ValueSet(z'.records) == target.values
            && Uniform(z', target.ttl, Reported(z, Flag(z, target)))
  {
    EnumerationIsDistinct(order, target.values);
    assert Elems(order) == target.values;
    if z.rtype.Cname? {
      DeleteFirstReaches(z, target.ttl, Flag(z, target), order);
    } else {
      WriteFirstReaches(z, target.ttl, Flag(z, target), order);
    }
  }

  lemma CallsRemoveAll(z: Zone)
    requires Kept(z) && Listed(z.records)
    ensures var z' := Effects(z, Calls(z, None, []));
            z'.name == z.name && z'.rtype == z.rtype && z'.records == []
  {
    var deletes := Deletes(Obsolete(z.records, {}));
    ObsoleteRemoved(z, z.records, {});
    assert deletes + [] == deletes && [] + deletes == deletes;
    var z' := Effects(z, deletes);
    if z'.records != [] { HasElement(z'.records); }
  }

  /** `r` holds one of the target's values with the target's TTL and, where the type has one, its flag. */
  ghost predicate AsTargeted(r: CfRecord, rtype: RecordType, target: RecordSet, before: seq<CfRecord>) {
    && r.value.Some? && r.value.value in target.values && r.ttl == target.ttl
    && (Proxiable(rtype) ==> r.proxied.Some? && HasFlag(r.proxied.value, target, before))
  }

  /** After all the calls of a change, whatever TTL and proxy flag it asks for, the records hold exactly the
      target's values, each with the target's TTL and, where the type has one, its proxy flag. */
  lemma AllCallsReachTarget(z: Zone, target: Option<RecordSet>, order: seq<string>)
    requires Kept(z) && (z.records != [] ==> !Unsupported(z.records)) && Enumerates(order, ValuesOf(target))
    ensures var z' := Effects(z, Calls(z, target, order));
            && z'.name == z.name && z'.rtype == z.rtype && ValueSet(z'.records) == ValuesOf(target)
            && (z'.records != [] ==> !Unsupported(z'.records))
            && (forall r :: r in z'.records ==>
                  target.Some? && AsTargeted(r, z.rtype, target.value, z.records))
  {
    CountDetectsDuplicates(z.records);
    if target.None? {
      if order != [] { HasElement(order); }
      CallsRemoveAll(z);
    } else {
      CallsMakeUniform(z, target.value, order);
      var z' := Effects(z, Calls(z, target, order));
      CountDetectsDuplicates(z'.records);
      if Proxiable(z.rtype) { FlagIs(z, target.value); }
      forall r | r in z'.records ensures r.value.Some? && r.value.value in target.value.values {
        ListedHasValues(z'.records, r);
        InValueSet(z'.records, r.value.value);
      }
    }
  }

  /** Read back, the records are the target. */
  lemma TargetIsObserved(z: Zone, target: Option<RecordSet>, order: seq<string>)
    requires Kept(z) && (z.records != [] ==> !Unsupported(z.records)) && Enumerates(order, ValuesOf(target))
    requires target.Some? ==> target.value.name == z.name && target.value.rtype == z.rtype && target.value.values != {}
    ensures var after := ObservedIn(Effects(z, Calls(z, target, order)));
            (after.Some? ==> !after.value.unsupported) && SameOptional(SetOf(after), target)
  {
    AllCallsReachTarget(z, target, order);
    var z' := Effects(z, Calls(z, target, order));
    if z'.records != [] {
      assert z'.records[0] in z'.records;
    } else {
      assert ValueSet(z'.records) == {};
    }
  }

  datatype Outcome = Changed | Refused | Interrupted

  /** The provider's records for one (name, type), and the adapter that changes them. */
  class Adapter {
    const name: string
    const rtype: RecordType
    const plain: Option<bool>
    var records: seq<CfRecord>
    var nextId: nat

    ghost function Contents(): Zone
      reads this
    {
      Zone(name, rtype, plain, records, nextId)
    }

    constructor (name: string, rtype: RecordType, plain: Option<bool>)
      ensures Contents() == Zone(name, rtype, plain, [], 0)
    {
      this.name, this.rtype, this.plain := name, rtype, plain;
      records, nextId := [], 0;
    }

    /** One API call, as the provider applies it. */
    method Send(c: Call)
      modifies this
      ensures Contents() == Effect(old(Contents()), c)
    {
      match c
      case Post(v, ttl, proxied) =>
        records := records + [CfRecord(nextId, Some(v), ttl, if Proxiable(rtype) then Some(proxied) else plain)];
        nextId := nextId + 1;
      case Patch(id, ttl, proxied) =>
        records := Patched(records, id, ttl, if Proxiable(rtype) then Some(proxied) else plain);
      case Delete(id) =>
        records := Without(records, id);
    }

    /** Stops after `budget` calls, as an interrupted exchange does. */
    method DeleteRecords(rs: seq<CfRecord>, budget: nat) returns (used: nat)
      modifies this
      ensures used == Min(budget, |Deletes(rs)|)
      ensures Contents() == Effects(old(Contents()), Deletes(rs)[..used])
    {
      ghost var calls := Deletes(rs);
      if rs != [] { DeletesAt(rs, 0); }
      used := 0;
      while used < |rs| && used < budget
        invariant used <= |rs| == |calls| && used <= budget
        invariant Contents() == Effects(old(Contents()), calls[..used])
      {
        DeletesAt(rs, used);
        EffectsNext(old(Contents()), calls, used);
        Send(Delete(rs[used].id));
        used := used + 1;
      }
    }

    /** Gives every value of `order` the target's TTL and proxy flag; `listed` was read before. */
    method WriteValues(listed: seq<CfRecord>, ttl: nat, flag: bool, order: seq<string>, budget: nat) returns (used: nat)
      modifies this
      ensures used == Min(budget, |Writes(listed, rtype, ttl, flag, order)|)
      ensures Contents() == Effects(old(Contents()), Writes(listed, rtype, ttl, flag, order)[..used])
    {
      used := 0;
      ghost var z := Contents();
      ghost var all := Writes(listed, rtype, ttl, flag, order);
      for i := 0 to |order|
        invariant used == |Writes(listed, rtype, ttl, flag, order[..i])| <= budget
        invariant Contents() == Effects(z, Writes(listed, rtype, ttl, flag, order[..i]))
      {
        ghost var before := Writes(listed, rtype, ttl, flag, order[..i]);
        ghost var call := WriteOne(listed, rtype, ttl, flag, order[i]);
        assert order[..i + 1] == order[..i] + [order[i]];
        WritesConcat(listed, rtype, ttl, flag, order[..i], [order[i]]);
        assert Writes(listed, rtype, ttl, flag, [order[i]]) == call;
        assert order == order[..i + 1] + order[i + 1..];
        WritesConcat(listed, rtype, ttl, flag, order[..i + 1], order[i + 1..]);
        assert all[..used] == before && |all| >= used + |call|;
        EffectsConcat(z, before, call);
        match Existing(listed, order[i]) {
          case Some(r) =>
            if r.ttl != ttl || (Proxiable(rtype) && r.proxied != Some(flag)) {
              if used == budget { return; }
              Send(Patch(r.id, ttl, flag));
              used := used + 1;
            }
          case None =>
            if used == budget { return; }
            Send(Post(order[i], ttl, flag));
            used := used + 1;
        }
      }
      assert order[..|order|] == order;
      assert all[..used] == all;
    }

    /** Write the target's values, if there is a target. */
    method WriteTarget(listed: seq<CfRecord>, target: Option<RecordSet>, flag: bool, order: seq<string>, budget: nat)
      returns (used: nat, finished: bool)
      modifies this
      ensures var writes := TargetWrites(listed, rtype, target, flag, order);
              && used == Min(budget, |writes|) && finished == (|writes| <= budget)
              && Contents() == Effects(old(Contents()), writes[..used])
      ensures finished && target.Some? && old(Writable(Contents(), listed, order)) ==>
                Settles(old(Contents()), Contents(), Elems(order), target.value.ttl, flag)
    {
      if target.None? {
        return 0, true;
      }
      ghost var z, writes := Contents(), Writes(listed, rtype, target.value.ttl, flag, order);
      if Writable(z, listed, order) { WritesSettle(z, listed, target.value.ttl, flag, order); }
      used := WriteValues(listed, target.value.ttl, flag, order, budget);
      finished := |Writes(listed, rtype, target.value.ttl, flag, order)| <= budget;
      assert finished ==> writes[..used] == writes;
    }

    /** A name can hold only one CNAME, so the old target goes first. */
    method DeleteThenWrite(obsolete: seq<CfRecord>, listed: seq<CfRecord>, target: Option<RecordSet>, flag: bool,
                           order: seq<string>, budget: nat) returns (finished: bool)
      modifies this
      ensures var calls := Deletes(obsolete) + TargetWrites(listed, rtype, target, flag, order);
              finished == (|calls| <= budget) && Contents() == Effects(old(Contents()), calls[..Min(budget, |calls|)])
    {
      ghost var z, deletes, writes := Contents(), Deletes(obsolete), TargetWrites(listed, rtype, target, flag, order);
      if obsolete != [] { DeletesAt(obsolete, 0); }
      var removed := DeleteRecords(obsolete, budget);
      if removed < |obsolete| {
        assert (deletes + writes)[..removed] == deletes[..removed];
        return false;
      }
      var used;
      used, finished := WriteTarget(listed, target, flag, order, budget - removed);
      EffectsConcat(z, deletes, writes[..used]);
      assert deletes[..removed] == deletes;
      assert (deletes + writes)[..removed + used] == deletes + writes[..used];
    }

    /** Other types get new values first, to avoid an empty answer during the change. */
    method WriteThenDelete(obsolete: seq<CfRecord>, listed: seq<CfRecord>, target: Option<RecordSet>, flag: bool,
                           order: seq<string>, budget: nat) returns (finished: bool)
      modifies this
      ensures var calls := TargetWrites(listed, rtype, target, flag, order) + Deletes(obsolete);
              finished == (|calls| <= budget) && Contents() == Effects(old(Contents()), calls[..Min(budget, |calls|)])
    {
      ghost var z, deletes, writes := Contents(), Deletes(obsolete), TargetWrites(listed, rtype, target, flag, order);
      if obsolete != [] { DeletesAt(obsolete, 0); }
      var used;
      used, finished := WriteTarget(listed, target, flag, order, budget);
      if !finished {
        assert (writes + deletes)[..used] == writes[..used];
        return;
      }
      var removed := DeleteRecords(obsolete, budget - used);
      EffectsConcat(z, writes, deletes[..removed]);
      assert writes[..used] == writes;
      assert (writes + deletes)[..used + removed] == writes + deletes[..removed];
      finished := removed == |obsolete|;
    }

    /** The conditional change of the whole record set, stopped after `budget` calls by an interruption or,
        if `refusing`, because the provider refuses the next one. Only the check before the first call
        is sure to leave the records as they were. */
    method Replace(expected: Option<RecordSet>, target: Option<RecordSet>, order: seq<string>, budget: nat,
        refusing: bool)
      returns (outcome: Outcome)
      modifies this
      ensures var calls := Calls(old(Contents()), target, order);
              var checked := !Refuses(old(Contents()), expected);
              && (outcome.Changed? <==> checked && |calls| <= budget)
              && (outcome.Refused? <==> !checked || (refusing && budget < |calls|))
              && Contents() == if checked then Effects(old(Contents()), calls[..Min(budget, |calls|)])
                               else old(Contents())
      ensures outcome.Changed? && old(Kept(Contents())) && Enumerates(order, ValuesOf(target)) ==>
                && ValueSet(records) == ValuesOf(target) && (records != [] ==> !Unsupported(records))
                && forall r :: r in records ==> target.Some? && AsTargeted(r, rtype, target.value, old(records))
    {
      var current := Zone(name, rtype, plain, records, nextId);
      if Refuses(current, expected) {
        return Refused;
      }
      var obsolete := Obsolete(records, ValuesOf(target));
      var flag := target.Some? && Flag(current, target.value);
      var finished;
      if rtype.Cname? {
        finished := DeleteThenWrite(obsolete, records, target, flag, order, budget);
      } else {
        finished := WriteThenDelete(obsolete, records, target, flag, order, budget);
      }
      if finished && Kept(current) && Enumerates(order, ValuesOf(target)) {
        AllCallsReachTarget(current, target, order);
        assert Calls(current, target, order)[..|Calls(current, target, order)|] == Calls(current, target, order);
      }
      return if finished then Changed else if refusing then Refused else Interrupted;
    }
  }
}
