/** Interface traffic: rates from successive octet counters, and what they add up to. */
module Traffic {
  import opened Wrappers

  datatype Direction = In | Out

  datatype Counters = Counters(inOctets: Option<int>, outOctets: Option<int>) {
    function Of(direction: Direction): Option<int> {
      match direction
      case In => inOctets
      case Out => outOctets
    }
  }

  datatype Sample = Sample(sampledAt: real, counters: map<string, Counters>)

  datatype InterfaceTraffic = InterfaceTraffic(
    inOctets: Option<int>, outOctets: Option<int>, inBps: Option<real>, outBps: Option<real>)

  // ── One rate ───────────────────────────────────────────────────────────────

  /** `round(x, 1)`: the nearest tenth, ties to the even one. */
  function Round1(x: real): (r: real)
    ensures -0.05 <= r - x <= 0.05
    ensures x >= 0.0 ==> r >= 0.0
  {
    var tenths := (x * 10.0).Floor;
    var rest := x * 10.0 - tenths as real;
    var rounded := if rest < 0.5 || (rest == 0.5 && tenths % 2 == 0) then tenths else tenths + 1;
    rounded as real / 10.0
  }

  function Rate(previous: Option<int>, current: Option<int>, seconds: Option<real>): Option<real> {
    if previous.None? || current.None? || seconds.None? || seconds.value < 1.0 then None
    else if current.value < previous.value then None
    else Some(Round1((current.value - previous.value) as real * 8.0 / seconds.value))
  }

  // ── All interfaces of a sample ─────────────────────────────────────────────

  function CounterIn(sample: Option<Sample>, name: string, direction: Direction): Option<int> {
    if sample.Some? && name in sample.value.counters then sample.value.counters[name].Of(direction) else None
  }

  function SecondsSince(previous: Option<Sample>, current: Sample): Option<real> {
    if previous.None? then None else Some(current.sampledAt - previous.value.sampledAt)
  }

  function TrafficOf(previous: Option<Sample>, current: Sample, name: string): InterfaceTraffic
    requires name in current.counters
  {
    var now := current.counters[name];
    var seconds := SecondsSince(previous, current);
    InterfaceTraffic(now.inOctets, now.outOctets,
                     Rate(CounterIn(previous, name, In), now.inOctets, seconds),
                     Rate(CounterIn(previous, name, Out), now.outOctets, seconds))
  }

  function RatesOf(previous: Option<Sample>, current: Sample): map<string, InterfaceTraffic> {
    map name | name in current.counters :: TrafficOf(previous, current, name)
  }

  method TrafficRates(previous: Option<Sample>, current: Sample) returns (result: map<string, InterfaceTraffic>)
    ensures result == RatesOf(previous, current)
  {
    var seconds := SecondsSince(previous, current);
    result := map[];
    var todo := current.counters.Keys;
    while todo != {}
      invariant todo <= current.counters.Keys
      invariant result == map name | name in current.counters && name !in todo :: TrafficOf(previous, current, name)
    {
      var name :| name in todo;
      var now := current.counters[name];
      var before := if previous.Some? then Lookup(previous.value.counters, name) else None;
      var inBefore := if before.Some? then before.value.inOctets else None;
      var outBefore := if before.Some? then before.value.outOctets else None;
      result := result[name := InterfaceTraffic(now.inOctets, now.outOctets,
                                                Rate(inBefore, now.inOctets, seconds),
                                                Rate(outBefore, now.outOctets, seconds))];
      todo := todo - {name};
    }
  }

  /** The SNMP coordinator's hook: a new sample becomes rates against the stored one and is
      stored in its place; a cycle without a sample changes nothing. */
  class TrafficPreparer {
    var sample: Option<Sample>

    constructor ()
      ensures sample == None
    {
      sample := None;
    }

    method Prepare(walk: Option<Sample>) returns (rates: Option<map<string, InterfaceTraffic>>)
      modifies this
      ensures sample == StoredAfter([old(sample), walk])
      ensures rates == if walk.Some? then Some(RatesOf(old(sample), walk.value)) else None
    {
      assert [sample, walk][..1] == [sample];
      assert StoredAfter([sample]) == sample;
      if walk.None? {
        return None;
      }
      var result := TrafficRates(sample, walk.value);
      rates := Some(result);
      sample := walk;
    }
  }

  // ── Conservation over a run of walks ───────────────────────────────────────

  /** The stored sample after a run of walks; None is a failed walk. */
  function StoredAfter(walks: seq<Option<Sample>>): Option<Sample> {
    if walks == [] then None
    else if walks[|walks| - 1].Some? then walks[|walks| - 1]
    else StoredAfter(walks[..|walks| - 1])
  }

  /** The rate published for the interface by walk k. */
  function PublishedRate(walks: seq<Option<Sample>>, k: nat, name: string, direction: Direction): Option<real>
    requires k < |walks|
  {
    var before := StoredAfter(walks[..k]);
    if walks[k].None? then None
    else Rate(CounterIn(before, name, direction), CounterIn(walks[k], name, direction), SecondsSince(before, walks[k].value))
  }

  /** It is what the coordinator's hook computes when it is run over the walks, beside the
      counters of the walk itself: each direction from the counters of that direction. */
  lemma PublishedRateIsPrepared(walks: seq<Option<Sample>>, k: nat, name: string)
    requires k < |walks| && walks[k].Some? && name in walks[k].value.counters
    ensures var published, now := RatesOf(StoredAfter(walks[..k]), walks[k].value)[name], walks[k].value.counters[name];
            && published.inBps == PublishedRate(walks, k, name, In) && published.outBps == PublishedRate(walks, k, name, Out)
            && published.inOctets == now.inOctets == CounterIn(walks[k], name, In)
            && published.outOctets == now.outOctets == CounterIn(walks[k], name, Out)
    ensures StoredAfter(walks[..k + 1]) == StoredAfter([StoredAfter(walks[..k]), walks[k]])
  {
  }

  /** A rate is a number of tenths, the nearest one, the even one of two as near. */
  lemma RoundedToTenths(x: real) returns (tenths: int)
    ensures Round1(x) == tenths as real / 10.0
    ensures tenths as real - 0.5 <= 10.0 * x <= tenths as real + 0.5
    ensures 10.0 * x == tenths as real - 0.5 || 10.0 * x == tenths as real + 0.5 ==> tenths % 2 == 0
  {
    var floor := (x * 10.0).Floor;
    var rest := x * 10.0 - floor as real;
    tenths := if rest < 0.5 || (rest == 0.5 && floor % 2 == 0) then floor else floor + 1;
  }

  /** The published rate of walk k times the time since the stored sample. */
  function Amount(walks: seq<Option<Sample>>, k: nat, name: string, direction: Direction): real
    requires k < |walks|
  {
    var rate := PublishedRate(walks, k, name, direction);
    if rate.None? then 0.0
    else rate.value * SecondsSince(StoredAfter(walks[..k]), walks[k].value).value
  }

  /** Rate times elapsed time, added up over the walks i+1 to j that published one. */
  function Transferred(walks: seq<Option<Sample>>, i: nat, j: nat, name: string, direction: Direction): real
    requires i <= j < |walks|
  {
    if i == j then 0.0
    else Transferred(walks, i, j - 1, name, direction) + Amount(walks, j, name, direction)
  }

  lemma NonNegativeProduct(a: real, b: real)
    requires a >= 0.0 && b >= 0.0
    ensures a * b >= 0.0
  {
  }

  lemma RoundedShare(bits: real, seconds: real)
    requires bits >= 0.0 && seconds >= 1.0
    ensures var rate := Round1(bits / seconds);
            rate >= 0.0 && -0.05 * seconds <= rate * seconds - bits <= 0.05 * seconds
  {
    var exact := bits / seconds;
    var rate := Round1(exact);
    assert exact * seconds == bits;
    NonNegativeProduct(rate - exact + 0.05, seconds);
    NonNegativeProduct(exact - rate + 0.05, seconds);
  }

  /** A rate exists exactly when both counters are known, the counter did not go back and a
      second has passed. It is never negative, and times the elapsed seconds it is the grown
      octets in bits, to within a twentieth of a bit per second. */
  lemma RateIsMeasured(previous: Option<int>, current: Option<int>, seconds: Option<real>)
    ensures var rate := Rate(previous, current, seconds);
            && (rate.Some? <==> previous.Some? && current.Some? && previous.value <= current.value
                                && seconds.Some? && seconds.value >= 1.0)
            && (rate.Some? ==>
                  var bits := 8.0 * (current.value - previous.value) as real;
                  && rate.value >= 0.0
                  && -0.05 * seconds.value <= rate.value * seconds.value - bits <= 0.05 * seconds.value)
  {
    if Rate(previous, current, seconds).Some? {
      var octets := (current.value - previous.value) as real;
      assert octets * 8.0 == 8.0 * octets;
      RoundedShare(octets * 8.0, seconds.value);
    }
  }

  /** The total is eight times the growth of the counter, to a twentieth of a bit a second. */
  ghost predicate Conserved(first: Sample, last: Option<Sample>, total: real, name: string, direction: Direction) {
    && last.Some? && CounterIn(Some(first), name, direction).Some? && CounterIn(last, name, direction).Some?
    && var seconds := last.value.sampledAt - first.sampledAt;
    var grown := CounterIn(last, name, direction).value - CounterIn(Some(first), name, direction).value;
    seconds >= 0.0 && -0.05 * seconds <= total - 8.0 * grown as real <= 0.05 * seconds
  }

  lemma ConservedStep(walks: seq<Option<Sample>>, first: Sample, k: nat, total: real, name: string, direction: Direction)
    requires k < |walks| && Conserved(first, StoredAfter(walks[..k]), total, name, direction)
    requires walks[k].Some? ==> PublishedRate(walks, k, name, direction).Some?
    ensures Conserved(first, StoredAfter(walks[..k + 1]), total + Amount(walks, k, name, direction), name, direction)
  {
    hide Rate, StoredAfter;
    StoredStep(walks, k);
    if walks[k].Some? {
      var before := StoredAfter(walks[..k]);
      RateIsMeasured(CounterIn(before, name, direction), CounterIn(walks[k], name, direction),
                     SecondsSince(before, walks[k].value));
    }
  }

  lemma StoredStep(walks: seq<Option<Sample>>, j: nat)
    requires j < |walks|
    ensures StoredAfter(walks[..j + 1]) == if walks[j].Some? then walks[j] else StoredAfter(walks[..j])
  {
    assert walks[..j + 1][..j] == walks[..j];
  }

  /** Conservation. From one successful walk to another, failed walks in between included, the
      published rates times the elapsed times add up to eight times the growth of the counter,
      to within a twentieth of a bit per elapsed second. */
  lemma {:induction false} RatesConserveTraffic(walks: seq<Option<Sample>>, i: nat, j: nat, name: string, direction: Direction)
    requires i <= j < |walks| && walks[i].Some?
    requires CounterIn(walks[i], name, direction).Some?
    requires forall k :: i < k <= j && walks[k].Some? ==> PublishedRate(walks, k, name, direction).Some?
    ensures Conserved(walks[i].value, StoredAfter(walks[..j + 1]), Transferred(walks, i, j, name, direction), name, direction)
  {
    if i == j {
      StoredStep(walks, i);
    } else {
      RatesConserveTraffic(walks, i, j - 1, name, direction);
      assert walks[j].Some? ==> PublishedRate(walks, j, name, direction).Some?;
      ConservedStep(walks, walks[i].value, j, Transferred(walks, i, j - 1, name, direction), name, direction);
    }
  }
}
