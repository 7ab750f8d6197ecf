/** Leases with fencing generations: the acquire, check and release scripts of one resource, run
    by any number of Edges (valkey.rs; the renewal is dns/reconciler.rs). */
module Leases {
  import opened Wrappers

  // ----- The stored value `<owner>|<generation>` -----

  const DIGITS: string := "0123456789"

  function Decimal(n: nat): string {
    if n < 10 then [DIGITS[n]] else Decimal(n / 10) + [DIGITS[n % 10]]
  }

  predicate IsDigit(c: char) { '0' <= c <= '9' }

  predicate AllDigits(s: string) { forall i :: 0 <= i < |s| ==> IsDigit(s[i]) }

  function Number(s: string): nat
    requires AllDigits(s)
  {
    if s == [] then 0 else Number(s[..|s| - 1]) * 10 + (s[|s| - 1] as int - '0' as int)
  }

  function Format(owner: string, generation: nat): string { owner + "|" + Decimal(generation) }

  /** The length of the part before the last bar, or -1. */
  function LastBar(s: string): int
    ensures -1 <= LastBar(s) < |s| || (s == [] && LastBar(s) == -1)
  {
    if s == [] then -1 else if s[|s| - 1] == '|' then |s| - 1 else LastBar(s[..|s| - 1])
  }

  /** The pattern `^(.*)|(%d+)$`. */
  function Parse(s: string): Option<(string, nat)> {
    var bar := LastBar(s);
    if bar >= 0 && bar + 1 < |s| && AllDigits(s[bar + 1..]) then Some((s[..bar], Number(s[bar + 1..]))) else None
  }

  lemma {:induction false} DecimalIs(n: nat)
    ensures Decimal(n) != [] && AllDigits(Decimal(n)) && Number(Decimal(n)) == n
  {
    if n >= 10 {
      DecimalIs(n / 10);
      var d := Decimal(n);
      assert d[..|d| - 1] == Decimal(n / 10);
    } else {
      assert Decimal(n)[..0] == [];
    }
  }

  lemma {:induction false} LastBarBeforeDigits(owner: string, digits: string)
    requires AllDigits(digits)
    ensures LastBar(owner + "|" + digits) == |owner|
  {
    var s := owner + "|" + digits;
    if digits != [] {
      assert s[..|s| - 1] == owner + "|" + digits[..|digits| - 1];
      LastBarBeforeDigits(owner, digits[..|digits| - 1]);
      assert s[|s| - 1] == digits[|digits| - 1];
    }
  }

  /** The pattern recovers owner and generation, even from an owner that contains bars; so equal
      values name the same holding. */
  lemma ParseFormat(owner: string, generation: nat)
    ensures Parse(Format(owner, generation)) == Some((owner, generation))
  {
    DecimalIs(generation);
    LastBarBeforeDigits(owner, Decimal(generation));
    var s := Format(owner, generation);
    assert s[..|owner|] == owner && s[|owner| + 1..] == Decimal(generation);
  }

  /** The pattern matches exactly the values that end in a bar and at least one digit. */
  lemma ParseExactly(s: string)
    ensures Parse(s).Some? <==>
            exists owner, digits :: digits != [] && AllDigits(digits) && s == owner + "|" + digits
    ensures Parse(s).Some? ==> s[..|Parse(s).value.0|] == Parse(s).value.0
  {
    var bar := LastBar(s);
    if Parse(s).Some? {
      LastBarIs(s);
      assert s == s[..bar] + "|" + s[bar + 1..];
    }
    if owner, digits :| digits != [] && AllDigits(digits) && s == owner + "|" + digits {
      LastBarBeforeDigits(owner, digits);
      assert s[|owner| + 1..] == digits;
    }
  }

  lemma {:induction false} LastBarIs(s: string)
    requires LastBar(s) >= 0
    ensures s[LastBar(s)] == '|'
  {
    if s[|s| - 1] != '|' {
      LastBarIs(s[..|s| - 1]);
    }
  }

  lemma FormatInjective(o1: string, g1: nat, o2: string, g2: nat)
    requires Format(o1, g1) == Format(o2, g2)
    ensures o1 == o2 && g1 == g2
  {
    ParseFormat(o1, g1);
    ParseFormat(o2, g2);
  }

  // ----- The scripts -----

  /** The lease key and the generation counter of one resource. */
  datatype Keys = Keys(lease: Option<string>, counter: nat)

  function Max(a: nat, b: nat): nat { if a >= b then a else b }

  function Acquire(k: Keys, owner: string, min: nat): (Keys, Option<nat>) {
    if k.lease.Some? then
      var parsed := Parse(k.lease.value);
      if parsed.Some? && parsed.value.0 == owner then (k, Some(parsed.value.1)) else (k, None)
    else
      var generation := Max(k.counter + 1, min);
      (Keys(Some(Format(owner, generation)), generation), Some(generation))
  }

  predicate Check(k: Keys, owner: string, generation: nat) { k.lease == Some(Format(owner, generation)) }

  function Release(k: Keys, owner: string, generation: nat): Keys {
    if Check(k, owner, generation) then k.(lease := None) else k
  }

  /** The renewal before and after every provider change: extend, and compare the generation. */
  predicate Renews(k: Keys, owner: string, generation: nat) {
    Acquire(k, owner, generation).1 == Some(generation)
  }

  datatype Event = AcquireLease(owner: string, min: nat) | ReleaseLease(owner: string, generation: nat) | Expire

  function Next(k: Keys, e: Event): Keys {
    match e
    case AcquireLease(owner, min) => Acquire(k, owner, min).0
    case ReleaseLease(owner, generation) => Release(k, owner, generation)
    case Expire => k.(lease := None)
  }

  function Run(k: Keys, es: seq<Event>): Keys
    decreases |es|
  {
    if es == [] then k else Run(Next(k, es[0]), es[1..])
  }

  /** A live lease carries the counter's value as its generation. */
  ghost predicate Inv(k: Keys) {
    k.lease.Some? ==> exists owner :: k.lease.value == Format(owner, k.counter)
  }

  lemma StepKeepsInv(k: Keys, e: Event)
    requires Inv(k)
    ensures Inv(Next(k, e)) && Next(k, e).counter >= k.counter
  {
  }

  lemma {:induction false} RunKeepsInv(k: Keys, es: seq<Event>)
    requires Inv(k)
    ensures Inv(Run(k, es)) && Run(k, es).counter >= k.counter
    decreases |es|
  {
    if es != [] {
      StepKeepsInv(k, es[0]);
      RunKeepsInv(Next(k, es[0]), es[1..]);
    }
  }

  /** Whoever acquires gets the counter's new value; a new holding is above everything granted
      before and at least the requested minimum, an extension keeps its generation. */
  lemma AcquireGrants(k: Keys, owner: string, min: nat)
    requires Inv(k)
    ensures var (k', granted) := Acquire(k, owner, min);
            && (granted.Some? <==> k.lease.None? || Check(k, owner, k.counter))
            && (granted.Some? ==> granted.value == k'.counter && Check(k', owner, granted.value))
            && (k.lease.None? ==> granted.value > k.counter && granted.value >= min)
            && (k.lease.Some? ==> k' == k)
  {
    if k.lease.Some? {
      var holder :| k.lease.value == Format(holder, k.counter);
      ParseFormat(holder, k.counter);
      if Check(k, owner, k.counter) { FormatInjective(holder, k.counter, owner, k.counter); }
    }
  }

  /** At most one Edge passes a check, with one generation, in any state. */
  lemma OneHolder(k: Keys, o1: string, g1: nat, o2: string, g2: nat)
    requires Inv(k) && Check(k, o1, g1) && Check(k, o2, g2)
    ensures o1 == o2 && g1 == g2 == k.counter
  {
    var holder :| k.lease.value == Format(holder, k.counter);
    FormatInjective(o1, g1, o2, g2);
    FormatInjective(o1, g1, holder, k.counter);
  }

  /** A release by the holder leaves no lease and the same counter, so the next Edge to ask is granted a generation
      above the released one and at least its minimum; the released generation never passes a check again. */
  lemma ReleaseFrees(k: Keys, owner: string, generation: nat, other: string, min: nat, es: seq<Event>)
    requires Inv(k) && k.lease == Some(Format(owner, generation))
    ensures var freed := Release(k, owner, generation);
            var (k', granted) := Acquire(freed, other, min);
            && freed == Next(k, ReleaseLease(owner, generation)) == Next(k, Expire) == Keys(None, k.counter)
            && granted.Some? && granted.value > generation && granted.value >= min
            && k'.lease == Some(Format(other, granted.value))
            && !Check(Run(freed, es), owner, generation)
  {
    OneHolder(k, owner, generation, owner, generation);
    AcquireGrants(Keys(None, k.counter), other, min);
    GoneStaysGone(Keys(None, k.counter), es, owner, generation);
  }

  /** A release under any other name or number leaves the lease where it is. */
  lemma OthersCannotRelease(k: Keys, holder: string, held: nat, owner: string, generation: nat)
    requires k.lease == Some(Format(holder, held)) && (owner, generation) != (holder, held)
    ensures Release(k, owner, generation) == k
  {
    if Format(owner, generation) == Format(holder, held) {
      FormatInjective(owner, generation, holder, held);
    }
  }

  /** Releasing an older generation never takes a newer holding away. */
  lemma StaleReleaseIsHarmless(k: Keys, es: seq<Event>, owner: string, generation: nat)
    requires Inv(k) && generation <= k.counter && !Check(k, owner, generation)
    ensures Release(Run(k, es), owner, generation) == Run(k, es)
  {
    GoneStaysGone(k, es, owner, generation);
  }

  /** A holding that ended never comes back under its generation. */
  lemma {:induction false} GoneStaysGone(k: Keys, es: seq<Event>, owner: string, generation: nat)
    requires Inv(k) && generation <= k.counter && !Check(k, owner, generation)
    ensures !Check(Run(k, es), owner, generation)
    decreases |es|
  {
    if es != [] {
      var k' := Next(k, es[0]);
      StepKeepsInv(k, es[0]);
      match es[0] {
        case AcquireLease(o, min) =>
          if k.lease.None? && Check(k', owner, generation) {
            FormatInjective(o, k'.counter, owner, generation);
          }
        case _ =>
      }
      GoneStaysGone(k', es[1..], owner, generation);
    }
  }

  lemma {:induction false} RunConcat(k: Keys, a: seq<Event>, b: seq<Event>)
    ensures Run(k, a + b) == Run(Run(k, a), b)
    decreases |a|
  {
    if a == [] {
      assert a + b == b;
    } else {
      ConcatTail(a, b);
      RunConcat(Next(k, a[0]), a[1..], b);
    }
  }

  /** Renewing generation `generation` succeeds exactly when the holding it was granted for was
      never interrupted since, at no point of the run. */
  lemma RenewsIffUnbroken(k: Keys, es: seq<Event>, owner: string, generation: nat)
    requires Inv(k) && Check(k, owner, generation)
    ensures Renews(Run(k, es), owner, generation) <==>
            forall n: nat :: n <= |es| ==> Check(Run(k, es[..n]), owner, generation)
  {
    OneHolder(k, owner, generation, owner, generation);
    RunKeepsInv(k, es);
    var last := Run(k, es);
    assert es[..|es|] == es;
    if Renews(last, owner, generation) {
      AcquireGrants(last, owner, generation);
      forall n: nat | n <= |es| ensures Check(Run(k, es[..n]), owner, generation) {
        RunKeepsInv(k, es[..n]);
        assert es == es[..n] + es[n..];
        RunConcat(k, es[..n], es[n..]);
        if !Check(Run(k, es[..n]), owner, generation) {
          GoneStaysGone(Run(k, es[..n]), es[n..], owner, generation);
        }
      }
    } else if forall n: nat :: n <= |es| ==> Check(Run(k, es[..n]), owner, generation) {
      assert Check(Run(k, es[..|es|]), owner, generation);
      OneHolder(last, owner, generation, owner, generation);
      AcquireGrants(last, owner, generation);
    }
  }

  /** Two holdings of a run: the later one has the larger generation. */
  lemma LaterHoldingIsLarger(k: Keys, o1: string, min1: nat, es: seq<Event>, o2: string, min2: nat)
    requires Inv(k) && k.lease.None?
    ensures var (k1, g1) := Acquire(k, o1, min1);
            var k2 := Run(k1, es);
            k2.lease.None? ==> g1.Some? && Acquire(k2, o2, min2).1.Some? && Acquire(k2, o2, min2).1.value > g1.value
  {
    AcquireGrants(k, o1, min1);
    StepKeepsInv(k, AcquireLease(o1, min1));
    RunKeepsInv(Acquire(k, o1, min1).0, es);
    AcquireGrants(Run(Acquire(k, o1, min1).0, es), o2, min2);
  }

  /** The minimum binds new holdings only: an owner that still holds the lease is answered with the
      old generation, so the answer is below the minimum exactly when that generation is. */
  lemma MinimumBindsNewHoldings(k: Keys, owner: string, min: nat)
    requires Inv(k) && Acquire(k, owner, min).1.Some?
    ensures Acquire(k, owner, min).1.value < min <==> k.lease.Some? && k.counter < min
  {
    AcquireGrants(k, owner, min);
  }

  // ----- The store the scripts run in -----

  class LeaseStore {
    var lease: Option<string>
    var counter: nat

    ghost function Contents(): Keys
      reads this
    {
      Keys(lease, counter)
    }

    constructor ()
      ensures Contents() == Keys(None, 0)
    {
      lease, counter := None, 0;
    }

    method AcquireScript(owner: string, min: nat) returns (generation: int)
      modifies this
      ensures Contents() == Acquire(old(Contents()), owner, min).0
      ensures generation == match Acquire(old(Contents()), owner, min).1 case Some(g) => g case None => -1
    {
      if lease.Some? {
        var parsed := Parse(lease.value);
        if parsed.Some? && parsed.value.0 == owner {
          return parsed.value.1;
        }
        return -1;
      }
      counter := counter + 1;
      if counter < min {
        counter := min;
      }
      lease := Some(Format(owner, counter));
      generation := counter;
    }

    method CheckScript(value: string) returns (held: bool)
      ensures forall owner, generation: nat :: value == Format(owner, generation) ==>
              held == Check(Contents(), owner, generation)
    {
      held := lease == Some(value);
    }

    method ReleaseScript(owner: string, generation: nat)
      modifies this`lease
      ensures Contents() == Release(old(Contents()), owner, generation)
      ensures lease == if old(lease) == Some(Format(owner, generation)) then None else old(lease)
    {
      if lease == Some(Format(owner, generation)) {
        lease := None;
      }
    }
  }

  lemma FreeIsInv(counter: nat)
    ensures Inv(Keys(None, counter))
  {
  }
}
