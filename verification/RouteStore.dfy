/** Advertised mesh routes in Valkey: one sorted set shared by all Edges and one member set for each
    Edge, replaced and withdrawn by scripts, with expiry (valkey.rs). */
module RouteStore {
  import opened Wrappers
  import Registry

  datatype RouteAd = RouteAd(hostname: string, protocol: Registry.Protocol, tenant: string, edge: string,
    generation: nat)

  datatype Members = Members(ads: set<RouteAd>, deadline: nat)

  /** Scores are expiry times. A member set is gone once the clock passes its deadline. `last` is what
      each Edge remembers of its last publish that was answered; a withdrawal makes it forget. */
  datatype Routes = Routes(clock: nat, zset: map<RouteAd, nat>, own: map<string, Members>,
                           last: map<string, set<RouteAd>>)

  function OwnAds(s: Routes, edge: string): set<RouteAd> {
    if edge in s.own && s.clock <= s.own[edge].deadline then s.own[edge].ads else {}
  }

  /** What a reader gets for an Edge: the routes whose score has not passed. */
  function Visible(s: Routes, edge: string): set<RouteAd> {
    set ad | ad in s.zset && ad.edge == edge && s.zset[ad] >= s.clock
  }

  function AdSet(ads: seq<RouteAd>): (r: set<RouteAd>)
    ensures forall ad :: ad in r <==> ad in ads
  {
    set ad | ad in ads
  }

  /** `sent` is the publisher's clock when it built the command, `s.clock` the time it runs. */
  function ReplacedScores(s: Routes, edge: string, sent: nat, ttl: nat, ads: seq<RouteAd>): map<RouteAd, nat> {
    var gone := OwnAds(s, edge) - AdSet(ads);
    map ad | ad in s.zset.Keys + AdSet(ads) && (ad in ads || (ad !in gone && s.zset[ad] > sent)) ::
      if ad in ads then sent + ttl else s.zset[ad]
  }

  function Replaced(s: Routes, edge: string, sent: nat, ttl: nat, ads: seq<RouteAd>): Routes {
    s.(zset := ReplacedScores(s, edge, sent, ttl, ads),
       own := if ads == [] then s.own - {edge} else s.own[edge := Members(AdSet(ads), s.clock + ttl)])
  }

  /** How many of the Edge's former routes the script removed. */
  function RemovedAds(s: Routes, edge: string, ads: seq<RouteAd>): set<RouteAd> {
    (OwnAds(s, edge) - AdSet(ads)) * s.zset.Keys
  }

  function Withdrawn(s: Routes, edge: string, ads: seq<RouteAd>): Routes {
    var left := OwnAds(s, edge) - AdSet(ads);
    s.(zset := s.zset - AdSet(ads),
       own := if left == {} then s.own - {edge} else s.own[edge := Members(left, s.own[edge].deadline)])
  }

  datatype Event =
    | Publish(edge: string, sent: nat, ttl: nat, ads: seq<RouteAd>, answered: bool)
    | Withdraw(edge: string, ads: seq<RouteAd>, answered: bool)
    | Restart(edge: string)
    | Tick(now: nat)

  /** A publish of the Edge's own routes that was sent before it runs. */
  predicate Arrives(s: Routes, edge: string, sent: nat, ads: seq<RouteAd>) {
    sent <= s.clock && forall ad :: ad in ads ==> ad.edge == edge
  }

  predicate Enabled(s: Routes, e: Event) {
    match e
    case Publish(edge, sent, _, ads, _) => Arrives(s, edge, sent, ads)
    case Withdraw(edge, ads, _) => ads != [] && forall ad :: ad in ads ==> ad.edge == edge
    case Restart(_) => true
    case Tick(now) => s.clock <= now
  }

  function Next(s: Routes, e: Event): Routes {
    match e
    case Publish(edge, sent, ttl, ads, answered) =>
      Replaced(s, edge, sent, ttl, ads).(last := if answered then s.last[edge := AdSet(ads)] else s.last)
    case Withdraw(edge, ads, answered) =>
      Withdrawn(s, edge, ads).(last := if answered then s.last - {edge} else s.last)
    case Restart(edge) => s.(last := s.last - {edge})
    case Tick(now) => s.(clock := now)
  }

  // ----- What every command keeps -----

  /** Every unexpired route is in its Edge's own member set, which outlives it. */
  ghost predicate Inv(s: Routes) {
    && (forall e, ad :: e in s.own && ad in s.own[e].ads ==> ad.edge == e)
    && (forall ad :: ad in s.zset && s.zset[ad] >= s.clock ==>
          ad in OwnAds(s, ad.edge) && s.zset[ad] <= s.own[ad.edge].deadline)
  }

  lemma PublishKeepsInv(s: Routes, edge: string, sent: nat, ttl: nat, ads: seq<RouteAd>)
    requires Inv(s) && Arrives(s, edge, sent, ads)
    ensures Inv(Replaced(s, edge, sent, ttl, ads))
  {
    var s' := Replaced(s, edge, sent, ttl, ads);
    forall ad | ad in s'.zset && s'.zset[ad] >= s'.clock
      ensures ad in OwnAds(s', ad.edge) && s'.zset[ad] <= s'.own[ad.edge].deadline
    {
      if ad !in ads {
        assert ad in OwnAds(s, ad.edge);
        assert ad.edge != edge;
      }
    }
  }

  lemma StepKeepsInv(s: Routes, e: Event)
    requires Inv(s) && Enabled(s, e)
    ensures Inv(Next(s, e))
  {
    match e {
      case Publish(edge, sent, ttl, ads, _) =>
        PublishKeepsInv(s, edge, sent, ttl, ads);
        MemoryIsIrrelevant(Replaced(s, edge, sent, ttl, ads), Next(s, e).last);
      case Withdraw(edge, ads, _) =>
        WithdrawKeepsInv(s, edge, ads);
        MemoryIsIrrelevant(Withdrawn(s, edge, ads), Next(s, e).last);
      case Restart(_) => MemoryIsIrrelevant(s, Next(s, e).last);
      case Tick(_) =>
    }
  }

  lemma WithdrawKeepsInv(s: Routes, edge: string, ads: seq<RouteAd>)
    requires Inv(s) && forall ad :: ad in ads ==> ad.edge == edge
    ensures Inv(Withdrawn(s, edge, ads))
  {
    var s' := Withdrawn(s, edge, ads);
    forall ad | ad in s'.zset && s'.zset[ad] >= s'.clock
      ensures ad in OwnAds(s', ad.edge) && s'.zset[ad] <= s'.own[ad.edge].deadline
    {
      assert ad in OwnAds(s, ad.edge) && ad !in ads;
    }
  }

  lemma MemoryIsIrrelevant(s: Routes, last: map<string, set<RouteAd>>)
    requires Inv(s)
    ensures Inv(s.(last := last))
  {
    assert forall edge :: OwnAds(s.(last := last), edge) == OwnAds(s, edge);
  }

  /** After a publish, and whatever came before it, the Edge's visible routes are exactly the
      published ones, unless the command took longer to arrive than the routes live. */
  lemma PublishIsExact(s: Routes, edge: string, sent: nat, ttl: nat, ads: seq<RouteAd>)
    requires Inv(s) && Arrives(s, edge, sent, ads)
    ensures Visible(Replaced(s, edge, sent, ttl, ads), edge) == if s.clock <= sent + ttl then AdSet(ads) else {}
  {
    var s' := Replaced(s, edge, sent, ttl, ads);
    forall ad | ad in Visible(s', edge) ensures ad in ads && s.clock <= sent + ttl {
    }
  }

  /** A publish leaves another Edge's route in place, with its expiry, exactly if that expiry is after
      the publisher's clock. So a visible route is lost exactly if it expires at this very instant and
      the publish was sent at it. */
  lemma PublishSparesOthers(s: Routes, edge: string, sent: nat, ttl: nat, ads: seq<RouteAd>, ad: RouteAd)
    requires Inv(s) && Arrives(s, edge, sent, ads) && ad.edge != edge && ad in s.zset
    ensures Lookup(Replaced(s, edge, sent, ttl, ads).zset, ad) == Some(s.zset[ad]) <==> s.zset[ad] > sent
    ensures s.zset[ad] >= s.clock ==> (ad in Visible(Replaced(s, edge, sent, ttl, ads), ad.edge) <==> s.zset[ad] > sent)
  {
  }

  /** A withdrawal removes exactly the named routes; newer generations stay visible. */
  lemma WithdrawIsExact(s: Routes, edge: string, ads: seq<RouteAd>, any: string)
    requires Inv(s) && forall ad :: ad in ads ==> ad.edge == edge
    ensures Visible(Withdrawn(s, edge, ads), any) == Visible(s, any) - AdSet(ads)
  {
  }

  ghost predicate Allowed(s: Routes, es: seq<Event>)
    decreases |es|
  {
    es == [] || (Enabled(s, es[0]) && Allowed(Next(s, es[0]), es[1..]))
  }

  function Run(s: Routes, es: seq<Event>): Routes
    decreases |es|
  {
    if es == [] then s else Run(Next(s, es[0]), es[1..])
  }

  /** Routes that live beyond this instant; peers use a route only that long. */
  function Alive(s: Routes, edge: string): set<RouteAd> {
    set ad | ad in s.zset && ad.edge == edge && s.zset[ad] > s.clock
  }

  /** The expiry and the set an Edge's own commands amount to. */
  datatype Advertised = Advertised(expiry: nat, ads: set<RouteAd>)

  function Advertise(a: Advertised, e: Event, edge: string): Advertised {
    match e
    case Publish(from, sent, ttl, ads, _) => if from == edge then Advertised(sent + ttl, AdSet(ads)) else a
    case Withdraw(from, ads, _) => if from == edge then a.(ads := a.ads - AdSet(ads)) else a
    case _ => a
  }

  function LastAdvertised(a: Advertised, es: seq<Event>, edge: string): Advertised
    decreases |es|
  {
    if es == [] then a else LastAdvertised(Advertise(a, es[0], edge), es[1..], edge)
  }

  ghost predicate Follows(s: Routes, edge: string, a: Advertised) {
    && Alive(s, edge) == (if s.clock < a.expiry then a.ads else {})
    && forall ad :: ad in Alive(s, edge) ==> s.zset[ad] == a.expiry
  }

  lemma OthersStayAlive(s: Routes, from: string, sent: nat, ttl: nat, ads: seq<RouteAd>, edge: string)
    requires Inv(s) && Arrives(s, from, sent, ads) && edge != from
    ensures Alive(Replaced(s, from, sent, ttl, ads), edge) == Alive(s, edge)
    ensures forall ad :: ad in Alive(s, edge) ==> Replaced(s, from, sent, ttl, ads).zset[ad] == s.zset[ad]
  {
    var s' := Replaced(s, from, sent, ttl, ads);
    forall ad: RouteAd | ad.edge == edge && ad in s.zset && s.zset[ad] > s.clock
      ensures ad in s'.zset && s'.zset[ad] == s.zset[ad]
    {
      PublishSparesOthers(s, from, sent, ttl, ads, ad);
    }
  }

  lemma OwnPublishFollows(s: Routes, edge: string, sent: nat, ttl: nat, ads: seq<RouteAd>)
    requires Inv(s) && Arrives(s, edge, sent, ads)
    ensures Follows(Replaced(s, edge, sent, ttl, ads), edge, Advertised(sent + ttl, AdSet(ads)))
  {
    var s' := Replaced(s, edge, sent, ttl, ads);
    PublishIsExact(s, edge, sent, ttl, ads);
    assert Alive(s', edge) <= Visible(s', edge);
  }

  lemma StepFollows(s: Routes, e: Event, edge: string, a: Advertised)
    requires Inv(s) && Enabled(s, e) && Follows(s, edge, a)
    ensures Follows(Next(s, e), edge, Advertise(a, e, edge))
  {
    var s', a' := Next(s, e), Advertise(a, e, edge);
    match e {
      case Publish(from, sent, ttl, ads, _) =>
        if from == edge {
          OwnPublishFollows(s, edge, sent, ttl, ads);
          assert Alive(s', edge) == Alive(Replaced(s, from, sent, ttl, ads), edge);
        } else {
          OthersStayAlive(s, from, sent, ttl, ads, edge);
          assert Alive(s', edge) == Alive(Replaced(s, from, sent, ttl, ads), edge);
        }
      case Withdraw(from, ads, _) =>
        assert Alive(s', edge) == Alive(s, edge) - AdSet(ads);
      case Restart(_) =>
        assert Alive(s', edge) == Alive(s, edge);
      case Tick(now) =>
        assert Alive(s', edge) <= Alive(s, edge);
    }
  }

  /** Over every run of publishes, withdrawals and passing time by any number of Edges: the live
      routes of an Edge are the last set it published, minus what it withdrew since, for exactly as
      long as that set lives; no other Edge's command adds, removes or extends any of them. */
  lemma {:induction false} RoutesFollowLastPublish(s: Routes, es: seq<Event>, edge: string, a: Advertised)
    requires Inv(s) && Allowed(s, es) && Follows(s, edge, a)
    ensures Inv(Run(s, es)) && Follows(Run(s, es), edge, LastAdvertised(a, es, edge))
    decreases |es|
  {
    if es != [] {
      StepFollows(s, es[0], edge, a);
      StepKeepsInv(s, es[0]);
      RoutesFollowLastPublish(Next(s, es[0]), es[1..], edge, Advertise(a, es[0], edge));
    }
  }

  // ----- Change notifications -----

  predicate Notifies(s: Routes, edge: string, ads: seq<RouteAd>) {
    RemovedAds(s, edge, ads) != {} || (Lookup(s.last, edge) != Some(AdSet(ads)) && ads != [])
  }

  /** Peers are told exactly when the script took a route of the Edge away, or when it publishes something other
      than what the Edge remembers. It remembers the last publish that was answered; an answered withdrawal and a
      restart make it forget. */
  lemma NotifiesExactly(s: Routes, edge: string, ads: seq<RouteAd>)
    ensures Notifies(s, edge, ads) <==>
            || (exists ad :: ad in OwnAds(s, edge) && ad in s.zset && ad !in ads)
            || (ads != [] && (edge in s.last ==> s.last[edge] != AdSet(ads)))
    ensures forall sent: nat, ttl: nat, answered: bool ::
              Next(s, Publish(edge, sent, ttl, ads, answered)).last ==
              if answered then s.last[edge := AdSet(ads)] else s.last
    ensures forall answered: bool ::
              Next(s, Withdraw(edge, ads, answered)).last == if answered then s.last - {edge} else s.last
    ensures Next(s, Restart(edge)).last == s.last - {edge}
  {
    if Notifies(s, edge, ads) && RemovedAds(s, edge, ads) != {} {
      var ad :| ad in RemovedAds(s, edge, ads);
      assert ad in OwnAds(s, edge) && ad in s.zset && ad !in ads;
    }
    if ad :| ad in OwnAds(s, edge) && ad in s.zset && ad !in ads {
      assert ad in RemovedAds(s, edge, ads);
    }
  }

  /** The publish changes the Edge's live routes and no peer is told. */
  ghost predicate ChangesSilently(s: Routes, edge: string, sent: nat, ttl: nat, ads: seq<RouteAd>) {
    Alive(Replaced(s, edge, sent, ttl, ads), edge) != Alive(s, edge) && !Notifies(s, edge, ads)
  }

  /** A change goes unannounced exactly when the set is the one last answered, nothing of the Edge's is
      removed, and part of the set is not alive: it has expired, or an unanswered command since then took
      it away. */
  lemma UnannouncedChangeExactly(s: Routes, edge: string, sent: nat, ttl: nat, ads: seq<RouteAd>)
    requires Inv(s) && Arrives(s, edge, sent, ads) && s.clock < sent + ttl
    ensures ChangesSilently(s, edge, sent, ttl, ads) <==>
            RemovedAds(s, edge, ads) == {} && Lookup(s.last, edge) == Some(AdSet(ads)) && Alive(s, edge) < AdSet(ads)
  {
    AliveAfterPublish(s, edge, sent, ttl, ads);
    if RemovedAds(s, edge, ads) == {} {
      forall ad | ad in Alive(s, edge) ensures ad in AdSet(ads) {
        assert ad in OwnAds(s, edge) && ad !in RemovedAds(s, edge, ads);
      }
      assert ads == [] ==> AdSet(ads) == {};
    }
  }

  lemma AliveAfterPublish(s: Routes, edge: string, sent: nat, ttl: nat, ads: seq<RouteAd>)
    requires Inv(s) && Arrives(s, edge, sent, ads) && s.clock < sent + ttl
    ensures Alive(Replaced(s, edge, sent, ttl, ads), edge) == AdSet(ads)
  {
    PublishIsExact(s, edge, sent, ttl, ads);
    assert Alive(Replaced(s, edge, sent, ttl, ads), edge) <= Visible(Replaced(s, edge, sent, ttl, ads), edge);
  }

  predicate Answered(e: Event, edge: string) { (e.Publish? || e.Withdraw?) && e.edge == edge ==> e.answered }

  /** What the Edge remembers, and its member set, agree with what its commands amount to. */
  ghost predicate Remembers(s: Routes, edge: string, a: Advertised) {
    && (edge in s.last ==> s.last[edge] == a.ads)
    && (edge in s.own ==> s.own[edge].ads <= a.ads)
  }

  lemma {:induction false} AnsweredRunRemembers(s: Routes, es: seq<Event>, edge: string, a: Advertised)
    requires Remembers(s, edge, a) && forall e :: e in es ==> Answered(e, edge)
    ensures Remembers(Run(s, es), edge, LastAdvertised(a, es, edge))
    decreases |es|
  {
    if es != [] {
      assert Answered(es[0], edge);
      AnsweredRunRemembers(Next(s, es[0]), es[1..], edge, Advertise(a, es[0], edge));
    }
  }

  /** Over every run in which the Edge's commands are answered: its live routes change unannounced
      exactly when it publishes the set it remembers again, not empty, after that set has expired. */
  lemma SilentReturnExactly(s: Routes, es: seq<Event>, edge: string, a: Advertised, sent: nat, ttl: nat,
      ads: seq<RouteAd>)
    requires Inv(s) && Allowed(s, es) && Follows(s, edge, a) && Remembers(s, edge, a)
    requires forall e :: e in es ==> Answered(e, edge)
    requires Arrives(Run(s, es), edge, sent, ads) && Run(s, es).clock < sent + ttl
    ensures var s', a' := Run(s, es), LastAdvertised(a, es, edge);
            ChangesSilently(s', edge, sent, ttl, ads) <==>
            ads != [] && Lookup(s'.last, edge) == Some(AdSet(ads)) && s'.clock >= a'.expiry
  {
    var s', a' := Run(s, es), LastAdvertised(a, es, edge);
    RoutesFollowLastPublish(s, es, edge, a);
    AnsweredRunRemembers(s, es, edge, a);
    UnannouncedChangeExactly(s', edge, sent, ttl, ads);
    assert ads != [] ==> ads[0] in AdSet(ads);
    assert ads == [] ==> AdSet(ads) == {};
  }

  /** Such a run from empty keys: a route is published, expires, and is published again. */
  lemma ExpiredRouteReturnsSilently(ad: RouteAd, ttl: nat)
    requires ttl > 0
    ensures var es := [Publish(ad.edge, 0, ttl, [ad], true), Tick(ttl)];
            var s := Routes(0, map[], map[], map[]);
            Inv(s) && Allowed(s, es) && ChangesSilently(Run(s, es), ad.edge, ttl, ttl, [ad])
  {
    var es := [Publish(ad.edge, 0, ttl, [ad], true), Tick(ttl)];
    var s := Routes(0, map[], map[], map[]);
    assert es[1..] == [Tick(ttl)] && [Tick(ttl)][1..] == [];
    var s1 := Next(s, es[0]);
    assert Run(s, es) == Run(s1, [Tick(ttl)]) == s1.(clock := ttl);
    assert Allowed(s1, [Tick(ttl)]);
    RoutesFollowLastPublish(s, es, ad.edge, Advertised(0, {}));
    assert LastAdvertised(Advertised(0, {}), es, ad.edge) == Advertised(ttl, AdSet([ad])) by {
      assert LastAdvertised(Advertised(ttl, AdSet([ad])), [Tick(ttl)], ad.edge) == Advertised(ttl, AdSet([ad]));
    }
    AnsweredRunRemembers(s, es, ad.edge, Advertised(0, {}));
    SilentReturnExactly(s, es, ad.edge, Advertised(0, {}), ttl, ttl, [ad]);
  }

  /** And one with a lost answer: a smaller set is published without an answer, then the larger one. */
  lemma LostAnswerReturnsSilently(ad: RouteAd, ttl: nat)
    requires ttl > 0
    ensures var es := [Publish(ad.edge, 0, ttl, [ad], true), Publish(ad.edge, 0, ttl, [], false)];
            var s := Routes(0, map[], map[], map[]);
            Inv(s) && Allowed(s, es) && ChangesSilently(Run(s, es), ad.edge, 0, ttl, [ad])
  {
    var es := [Publish(ad.edge, 0, ttl, [ad], true), Publish(ad.edge, 0, ttl, [], false)];
    var s := Routes(0, map[], map[], map[]);
    assert es[1..] == [es[1]] && [es[1]][1..] == [];
    var s1 := Next(s, es[0]);
    var s2 := Next(s1, es[1]);
    assert Run(s, es) == Run(s1, [es[1]]) == s2;
    assert Allowed(s1, [es[1]]);
    StepKeepsInv(s, es[0]);
    StepKeepsInv(s1, es[1]);
    AliveAfterPublish(s1, ad.edge, 0, ttl, []);
    assert Alive(s2, ad.edge) == Alive(Replaced(s1, ad.edge, 0, ttl, []), ad.edge) == AdSet([]);
    assert Alive(s2, ad.edge) < AdSet([ad]) by { assert ad in AdSet([ad]); }
    UnannouncedChangeExactly(s2, ad.edge, 0, ttl, [ad]);
  }

  // ----- The keys the scripts work on -----

  class RouteKeys {
    var clock: nat
    var zset: map<RouteAd, nat>
    var own: map<string, Members>
    var last: map<string, set<RouteAd>>

    ghost function Contents(): Routes
      reads this
    {
      Routes(clock, zset, own, last)
    }

    method DropExpired(now: nat)
      modifies this`zset
      ensures zset == Lasting(old(zset), now)
    {
      zset := map ad | ad in zset && zset[ad] > now :: zset[ad];
    }

    /** Remove the listed members that are not wanted any more, counting those in the sorted set. */
    method RemoveUnwanted(listed: seq<RouteAd>, wanted: set<RouteAd>) returns (removed: nat)
      modifies this`zset
      ensures zset == Dropped(old(zset), listed, wanted)
      ensures removed > 0 <==> exists ad :: ad in listed && ad !in wanted && ad in old(zset)
    {
      removed := 0;
      for i := 0 to |listed|
        invariant zset == Dropped(old(zset), listed[..i], wanted)
        invariant removed > 0 <==> exists k :: 0 <= k < i && listed[k] !in wanted && listed[k] in old(zset)
      {
        assert listed[..i + 1][..i] == listed[..i];
        DroppedIs(old(zset), listed[..i], wanted, listed[i]);
        if listed[i] !in wanted {
          if listed[i] in zset {
            removed := removed + 1;
          }
          zset := zset - {listed[i]};
        }
      }
      assert listed[..|listed|] == listed;
    }

    method AddAll(ads: seq<RouteAd>, score: nat)
      modifies this`zset
      ensures zset == Added(old(zset), ads, score)
    {
      for i := 0 to |ads|
        invariant zset == Added(old(zset), ads[..i], score)
      {
        assert ads[..i + 1][..i] == ads[..i];
        zset := zset[ads[i] := score];
      }
      assert ads[..|ads|] == ads;
    }

    /** `listed` is the reply to SMEMBERS, in some order. The kept members and the new ones are the
        wanted ones. */
    method ReplaceScript(edge: string, sent: nat, ttl: nat, ads: seq<RouteAd>, changed: bool, listed: seq<RouteAd>)
      returns (notified: bool)
      requires Enumerates(listed, OwnAds(Contents(), edge))
      modifies this
      ensures Contents() == Replaced(old(Contents()), edge, sent, ttl, ads)
      ensures notified == (RemovedAds(old(Contents()), edge, ads) != {} || changed)
    {
      ghost var s := Contents();
      var removed := RemoveUnwanted(listed, AdSet(ads));
      DropExpired(sent);
      AddAll(ads, sent + ttl);
      StepsMakeReplacement(s, edge, sent, ttl, ads, listed);
      own := if ads == [] then own - {edge} else own[edge := Members(AdSet(ads), clock + ttl)];
      notified := removed > 0 || changed;
    }

    /** What an Edge does around the script: it asks for a notification when the set differs from the
        remembered one, and remembers the set once it is answered. */
    method PublishRoutes(edge: string, sent: nat, ttl: nat, ads: seq<RouteAd>, listed: seq<RouteAd>, answered: bool)
      returns (notified: bool)
      requires Enumerates(listed, OwnAds(Contents(), edge))
      modifies this
      ensures Contents() == Next(old(Contents()), Publish(edge, sent, ttl, ads, answered))
      ensures notified == Notifies(old(Contents()), edge, ads)
    {
      var changed := Lookup(last, edge) != Some(AdSet(ads));
      notified := ReplaceScript(edge, sent, ttl, ads, changed && ads != [], listed);
      if answered {
        last := last[edge := AdSet(ads)];
      }
    }
  }

  function Lasting(m: map<RouteAd, nat>, now: nat): map<RouteAd, nat> {
    map ad | ad in m && m[ad] > now :: m[ad]
  }

  function Dropped(m: map<RouteAd, nat>, listed: seq<RouteAd>, wanted: set<RouteAd>): map<RouteAd, nat> {
    if listed == [] then m
    else
      var rest := Dropped(m, listed[..|listed| - 1], wanted);
      if listed[|listed| - 1] in wanted then rest else rest - {listed[|listed| - 1]}
  }

  lemma {:induction false} DroppedIs(m: map<RouteAd, nat>, listed: seq<RouteAd>, wanted: set<RouteAd>, ad: RouteAd)
    ensures Lookup(Dropped(m, listed, wanted), ad) == if ad in listed && ad !in wanted then None else Lookup(m, ad)
  {
    if listed != [] {
      DroppedIs(m, listed[..|listed| - 1], wanted, ad);
      assert listed == listed[..|listed| - 1] + [listed[|listed| - 1]];
    }
  }

  function Added(m: map<RouteAd, nat>, ads: seq<RouteAd>, score: nat): map<RouteAd, nat> {
    if ads == [] then m else Added(m, ads[..|ads| - 1], score)[ads[|ads| - 1] := score]
  }

  lemma {:induction false} AddedIs(m: map<RouteAd, nat>, ads: seq<RouteAd>, score: nat, ad: RouteAd)
    ensures Lookup(Added(m, ads, score), ad) == if ad in ads then Some(score) else Lookup(m, ad)
  {
    if ads != [] {
      AddedIs(m, ads[..|ads| - 1], score, ad);
      assert ads == ads[..|ads| - 1] + [ads[|ads| - 1]];
    }
  }

  lemma StepsMakeReplacement(s: Routes, edge: string, sent: nat, ttl: nat, ads: seq<RouteAd>, listed: seq<RouteAd>)
    requires Enumerates(listed, OwnAds(s, edge))
    ensures Added(Lasting(Dropped(s.zset, listed, AdSet(ads)), sent), ads, sent + ttl) ==
            ReplacedScores(s, edge, sent, ttl, ads)
    ensures RemovedAds(s, edge, ads) != {} <==> exists ad :: ad in listed && ad !in AdSet(ads) && ad in s.zset
  {
    var kept := Dropped(s.zset, listed, AdSet(ads));
    var made, scores := Added(Lasting(kept, sent), ads, sent + ttl), ReplacedScores(s, edge, sent, ttl, ads);
    forall ad ensures (ad in made <==> ad in scores) && (ad in made && ad in scores ==> made[ad] == scores[ad]) {
      AddedIs(Lasting(kept, sent), ads, sent + ttl, ad);
      DroppedIs(s.zset, listed, AdSet(ads), ad);
    }
    if ad :| ad in listed && ad !in AdSet(ads) && ad in s.zset {
      assert ad in RemovedAds(s, edge, ads);
    }
  }

  lemma EmptyIsInv(clock: nat)
    ensures Inv(Routes(clock, map[], map[], map[]))
  {
  }
}
