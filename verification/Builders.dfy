/** Fits queued applications into offers and reserves ports for them. */
module Builders {
  import opened Protocol

  // ---------- Ranges of ports ----------

  /** The number of ports in a range, in unsigned 64-bit arithmetic. */
  function NumAvail(r: PortRange): Word {
    (r.end - r.begin + 1) % TWO64
  }

  /** Conversion of an unsigned to a signed 64-bit number. */
  function AsInt(u: Word): int {
    if u < TWO64 / 2 then u else u - TWO64
  }

  /** The range is not empty and its ports are 32-bit numbers. */
  predicate WellFormed(r: PortRange) {
    r.begin <= r.end < 0x8000_0000
  }

  function Size(r: PortRange): int {
    r.end - r.begin + 1
  }

  lemma SizeOfWellFormed(r: PortRange)
    requires WellFormed(r)
    ensures NumAvail(r) == Size(r) && AsInt(NumAvail(r)) == Size(r) >= 1
  {
  }

  /** All offered port ranges, in the order of the offer. */
  function PortRanges(rs: seq<Resource>): seq<PortRange> {
    if rs == [] then []
    else OwnRanges(rs[0]) + PortRanges(rs[1..])
  }

  function OwnRanges(r: Resource): seq<PortRange> {
    if r.name == "ports" then r.ranges else []
  }

  predicate WellFormedRanges(ranges: seq<PortRange>) {
    forall i :: 0 <= i < |ranges| ==> WellFormed(ranges[i])
  }

  predicate WellFormedOffer(offer: Offer) {
    WellFormedRanges(PortRanges(offer.resources))
  }

  /** The first range with more than `count` ports; the number of ranges if there is none. */
  function FirstLarger(ranges: seq<PortRange>, count: nat): (k: nat)
    ensures k <= |ranges| && (k < |ranges| ==> Size(ranges[k]) > count)
    ensures forall j :: 0 <= j < k ==> Size(ranges[j]) <= count
  {
    if ranges == [] || Size(ranges[0]) > count then 0
    else
      var k := FirstLarger(ranges[1..], count);
      assert forall j :: 0 < j < k + 1 ==> ranges[j] == ranges[1..][j - 1];
      k + 1
  }

  // ---------- Picking ports ----------

  /** `rand.Intn`: `pick` is the random choice, and every value below `n` is some choice. */
  function Intn(pick: nat, n: nat): (r: nat)
    requires n > 0
    ensures r < n && (pick < n ==> r == pick)
  {
    pick % n
  }

  /** `count` ports at a random place of a range that has more than `count`. */
  function MakePortRange(r: PortRange, count: nat, pick: nat): (p: PortRange)
    requires WellFormed(r) && Size(r) > count
    requires count == 0 ==> r.begin > 0
    ensures r.begin <= p.begin && p.end <= r.end && Size(p) == count
  {
    var begin := Intn(pick, r.end - r.begin - count + 2) + r.begin;
    PortRange(begin, begin + count - 1)
  }

  function Sequence(begin: nat, count: nat): (s: seq<Int32>)
    requires begin + count <= 0x8000_0000
    ensures |s| == count
    ensures forall i :: 0 <= i < count ==> s[i] == begin + i
  {
    seq(count, i requires 0 <= i < count => begin + i)
  }

  /** The ranges taken from an offer and the ports reserved in them. */
  datatype Picked = Picked(ranges: seq<PortRange>, ports: seq<Int32>)

  /**
   * Ranges from which `count` ports can be taken.  The source takes an empty range that
   * starts at port 0 for a huge one.
   */
  predicate Usable(ranges: seq<PortRange>, count: nat) {
    WellFormedRanges(ranges) && (count == 0 ==> forall i :: 0 <= i < |ranges| ==> ranges[i].begin > 0)
  }

  predicate CanPick(offer: Offer, count: nat) {
    Usable(PortRanges(offer.resources), count)
  }

  /** Takes `count` ports from the first range that has more. */
  function PickFrom(ranges: seq<PortRange>, count: nat, pick: nat): Picked
    requires Usable(ranges, count)
  {
    var k := FirstLarger(ranges, count);
    if k == |ranges| then Picked([], [])
    else
      var p := MakePortRange(ranges[k], count, pick);
      Picked([p], Sequence(p.begin, count))
  }

  lemma PickFromSplits(a: seq<PortRange>, b: seq<PortRange>, count: nat, pick: nat)
    requires Usable(a + b, count)
    ensures Usable(a, count) && Usable(b, count)
    ensures PickFrom(a + b, count, pick) ==
            if FirstLarger(a, count) < |a| then PickFrom(a, count, pick) else PickFrom(b, count, pick)
  {
    var s := a + b;
    assert forall i :: 0 <= i < |a| ==> a[i] == s[i];
    assert forall i :: 0 <= i < |b| ==> b[i] == s[|a| + i];
    var k, ka, kb := FirstLarger(s, count), FirstLarger(a, count), FirstLarger(b, count);
    if ka < |a| {
      assert s[ka] == a[ka];
      assert k == ka;
    } else {
      assert kb < |b| ==> s[|a| + kb] == b[kb];
      assert k == |a| + kb;
    }
  }

  /** With no port to take, only the first resource is looked at. */
  function Considered(offer: Offer, count: nat): seq<PortRange> {
    if count > 0 then PortRanges(offer.resources)
    else if offer.resources == [] then []
    else OwnRanges(offer.resources[0])
  }

  lemma ConsideredUsable(offer: Offer, count: nat)
    requires CanPick(offer, count)
    ensures Usable(Considered(offer, count), count)
  {
    var rs := offer.resources;
    if count == 0 && rs != [] {
      var first := Considered(offer, count);
      assert forall i :: 0 <= i < |first| ==> first[i] == PortRanges(rs)[i];
    }
  }

  function PickPorts(offer: Offer, count: nat, pick: nat): Picked
    requires CanPick(offer, count)
  {
    ConsideredUsable(offer, count);
    PickFrom(Considered(offer, count), count, pick)
  }

  /** Ports are found exactly when some offered range has more of them than asked. */
  lemma PicksIffLargerRange(offer: Offer, count: nat, pick: nat)
    requires CanPick(offer, count) && count > 0
    ensures var r := PickPorts(offer, count, pick);
            var ranges := PortRanges(offer.resources);
            && (|r.ports| == count <==> exists i :: 0 <= i < |ranges| && Size(ranges[i]) > count)
            && (|r.ports| != count ==> r == Picked([], []))
  {
    var ranges := PortRanges(offer.resources);
    var k := FirstLarger(ranges, count);
    if k < |ranges| { assert Size(ranges[k]) > count; }
  }

  /** Picked ports are distinct, consecutive, inside the first larger range, and all of the range taken. */
  lemma PickedPorts(offer: Offer, count: nat, pick: nat)
    requires CanPick(offer, count) && count > 0
    ensures var r := PickPorts(offer, count, pick);
            var ranges := PortRanges(offer.resources);
            var k := FirstLarger(ranges, count);
            |r.ports| == count ==>
              && k < |ranges| && |r.ranges| == 1
              && ranges[k].begin <= r.ranges[0].begin && r.ranges[0].end <= ranges[k].end
              && (forall p :: p in r.ports <==> r.ranges[0].begin <= p <= r.ranges[0].end)
              && (forall i, j :: 0 <= i < j < count ==> r.ports[j] == r.ports[i] + (j - i))
  {
    var r := PickPorts(offer, count, pick);
    if |r.ports| == count {
      forall p | r.ranges[0].begin <= p <= r.ranges[0].end
        ensures p in r.ports
      {
        assert r.ports[p - r.ranges[0].begin] == p;
      }
    }
  }

  /** Whatever is taken, also for no ports at all, lies inside an offered range. */
  lemma PickedInsideOffer(offer: Offer, count: nat, pick: nat)
    requires CanPick(offer, count)
    ensures forall r :: r in PickPorts(offer, count, pick).ranges ==>
              exists o :: o in PortRanges(offer.resources) && o.begin <= r.begin && r.end <= o.end && Size(r) == count
  {
    ConsideredUsable(offer, count);
    var ranges := Considered(offer, count);
    var k := FirstLarger(ranges, count);
    if k < |ranges| {
      assert ranges[k] in PortRanges(offer.resources);
    }
  }

  /** Every place in the range is the result of some random choice. */
  lemma EveryPlaceIsPicked(r: PortRange, count: nat, begin: nat)
    requires WellFormed(r) && Size(r) > count && (count == 0 ==> r.begin > 0)
    requires r.begin <= begin && begin + count - 1 <= r.end
    ensures MakePortRange(r, count, begin - r.begin) == PortRange(begin, begin + count - 1)
  {
  }

  /** Asked for no port, it reserves none, but takes an empty range from a first resource that has ranges. */
  lemma PickedForNothing(offer: Offer, pick: nat)
    requires CanPick(offer, 0)
    ensures var r := PickPorts(offer, 0, pick); var rs := offer.resources;
            && r.ports == []
            && (r.ranges != [] <==> rs != [] && rs[0].name == "ports" && rs[0].ranges != [])
            && forall x :: x in r.ranges ==> Size(x) == 0
  {
    ConsideredUsable(offer, 0);
    var ranges := Considered(offer, 0);
    if ranges != [] { assert Size(ranges[0]) > 0; }
  }

  // ---------- The picker ----------

  class RandomPortPicker {
    constructor () {}

    method GetPorts(offer: Offer, count: nat, pick: nat)
      returns (takenRanges: seq<PortRange>, reservedPorts: seq<Int32>)
      requires CanPick(offer, count)
      ensures Picked(takenRanges, reservedPorts) == PickPorts(offer, count, pick)
    {
      takenRanges, reservedPorts := [], [];
      var untaken := count;
      var resources := offer.resources;
      ConsideredUsable(offer, count);
      assert resources[0..] == resources;
      for i := 0 to |resources|
        invariant untaken == count && takenRanges == [] && reservedPorts == []
        invariant count == 0 ==> i == 0
        invariant Usable(PortRanges(resources[i..]), count)
        invariant count > 0 ==> PickFrom(PortRanges(resources[i..]), count, pick) == PickPorts(offer, count, pick)
      {
        SplitFirstResource(offer, i, count, pick);
        if resources[i].name == "ports" {
          takenRanges, reservedPorts, untaken := TakeFrom(resources[i].ranges, untaken, pick);
        }
        if untaken == 0 {
          break;
        }
      }
    }

    /** The loop over the ranges of one resource. */
    method TakeFrom(ranges: seq<PortRange>, count: nat, pick: nat)
      returns (takenRanges: seq<PortRange>, reservedPorts: seq<Int32>, untaken: nat)
      requires Usable(ranges, count)
      ensures Picked(takenRanges, reservedPorts) == PickFrom(ranges, count, pick)
      ensures untaken == if FirstLarger(ranges, count) < |ranges| then 0 else count
    {
      takenRanges, reservedPorts := [], [];
      untaken := count;
      for j := 0 to |ranges|
        invariant untaken == count && takenRanges == [] && reservedPorts == []
        invariant FirstLarger(ranges, count) >= j
      {
        var r := ranges[j];
        SizeOfWellFormed(r);
        var numAvail := AsInt(NumAvail(r));
        if untaken < numAvail {
          var prange := MakePortRange(r, untaken, pick);
          takenRanges := takenRanges + [prange];
          untaken := 0;
          reservedPorts := Enumerate(prange);
        }
        if untaken == 0 {
          break;
        }
      }
    }

    /** Lists the ports of a range. */
    method Enumerate(prange: PortRange) returns (ports: seq<Int32>)
      requires prange.begin <= prange.end + 1 && prange.end < 0x8000_0000
      ensures ports == Sequence(prange.begin, Size(prange))
    {
      ports := [];
      var i: nat := prange.begin;
      while i <= prange.end
        invariant prange.begin <= i <= prange.end + 1
        invariant ports == Sequence(prange.begin, i - prange.begin)
      {
        ports := ports + [i];
        i := i + 1;
      }
    }
  }

  /** The search continues behind a resource whose ranges are all too small. */
  lemma SplitFirstResource(offer: Offer, i: nat, count: nat, pick: nat)
    requires i < |offer.resources| && Usable(PortRanges(offer.resources[i..]), count)
    ensures var rs := offer.resources;
            var own := OwnRanges(rs[i]);
            && Usable(own, count) && Usable(PortRanges(rs[i + 1..]), count)
            && PickFrom(PortRanges(rs[i..]), count, pick) ==
               (if FirstLarger(own, count) < |own| then PickFrom(own, count, pick)
                else PickFrom(PortRanges(rs[i + 1..]), count, pick))
  {
    var rs := offer.resources;
    var own := OwnRanges(rs[i]);
    assert rs[i..][1..] == rs[i + 1..];
    assert PortRanges(rs[i..]) == own + PortRanges(rs[i + 1..]);
    PickFromSplits(own, PortRanges(rs[i + 1..]), count, pick);
  }

  // ---------- Fitting an offer ----------

  /** What an offer holds of a scalar resource, over all its entries of that name. */
  function TotalScalar(rs: seq<Resource>, name: string): real {
    if rs == [] then 0.0
    else
      var last := rs[|rs| - 1];
      TotalScalar(rs[..|rs| - 1], name) + if last.name == name then last.scalar else 0.0
  }

  /** The size of the largest range. */
  function Largest(ranges: seq<PortRange>): Word {
    if ranges == [] then 0
    else
      var n, rest := NumAvail(ranges[|ranges| - 1]), Largest(ranges[..|ranges| - 1]);
      if rest < n then n else rest
  }

  /** The largest range of the last ports entry: each entry overwrites the previous one. */
  function MaxPortsLen(rs: seq<Resource>): Word {
    if rs == [] then 0
    else if rs[|rs| - 1].name == "ports" then Largest(rs[|rs| - 1].ranges)
    else MaxPortsLen(rs[..|rs| - 1])
  }

  predicate HasScalars(offer: Offer, app: Application) {
    TotalScalar(offer.resources, "cpus") >= app.cpus && TotalScalar(offer.resources, "mem") >= app.mem
  }

  predicate Fits(offer: Offer, app: Application) {
    HasScalars(offer, app) && AsInt(MaxPortsLen(offer.resources)) >= |app.ports|
  }

  method MaxAvail(ranges: seq<PortRange>) returns (max: Word)
    ensures max == Largest(ranges)
  {
    max := 0;
    for j := 0 to |ranges|
      invariant max == Largest(ranges[..j])
    {
      assert ranges[..j + 1][..j] == ranges[..j];
      var numAvail := NumAvail(ranges[j]);
      if max < numAvail {
        max := numAvail;
      }
    }
    assert ranges[..|ranges|] == ranges;
  }

  method FitsInOffer(offer: Offer, app: Application) returns (fits: bool)
    ensures fits <==> Fits(offer, app)
  {
    var availCpus, availMem, maxPortsLen: Word := 0.0, 0.0, 0;
    var rs := offer.resources;
    for i := 0 to |rs|
      invariant availCpus == TotalScalar(rs[..i], "cpus")
      invariant availMem == TotalScalar(rs[..i], "mem")
      invariant maxPortsLen == MaxPortsLen(rs[..i])
    {
      assert rs[..i + 1][..i] == rs[..i];
      var resource := rs[i];
      if resource.name == "cpus" {
        availCpus := availCpus + resource.scalar;
      } else if resource.name == "mem" {
        availMem := availMem + resource.scalar;
      } else if resource.name == "ports" {
        maxPortsLen := MaxAvail(resource.ranges);
      }
    }
    assert rs[..|rs|] == rs;
    var hasEnoughCPU := availCpus >= app.cpus;
    var hasEnoughMem := availMem >= app.mem;
    var hasEnoughPorts := AsInt(maxPortsLen) >= |app.ports|;
    return hasEnoughCPU && hasEnoughMem && hasEnoughPorts;
  }

  // ---------- What the totals mean ----------

  /** The offered ranges are those of the ports entries and no others. */
  lemma {:induction false} RangesOffered(rs: seq<Resource>, r: PortRange)
    ensures r in PortRanges(rs) <==> exists i :: 0 <= i < |rs| && rs[i].name == "ports" && r in rs[i].ranges
    decreases |rs|
  {
    if rs != [] {
      RangesOffered(rs[1..], r);
      if r in PortRanges(rs[1..]) {
        var i :| 0 <= i < |rs[1..]| && rs[1..][i].name == "ports" && r in rs[1..][i].ranges;
        assert rs[i + 1].name == "ports" && r in rs[i + 1].ranges;
      }
      if i :| 0 < i < |rs| && rs[i].name == "ports" && r in rs[i].ranges {
        assert rs[1..][i - 1] == rs[i];
      }
    }
  }

  lemma {:induction false} TotalsAdd(a: seq<Resource>, b: seq<Resource>, name: string)
    ensures TotalScalar(a + b, name) == TotalScalar(a, name) + TotalScalar(b, name)
    decreases |b|
  {
    if b == [] {
      assert a + b == a;
    } else {
      var n := |b| - 1;
      assert (a + b)[..|a + b| - 1] == a + b[..n];
      TotalsAdd(a, b[..n], name);
    }
  }

  /** An entry contributes its amount to the total of its own name only. */
  lemma TotalOfOne(r: Resource, name: string)
    ensures TotalScalar([r], name) == if r.name == name then r.scalar else 0.0
  {
    assert [r][..0] == [];
  }

  /** The last ports entry decides, whatever other entries there are. */
  lemma {:induction false} LastPortsDecide(a: seq<Resource>, r: Resource, b: seq<Resource>)
    requires r.name == "ports" && forall i :: 0 <= i < |b| ==> b[i].name != "ports"
    ensures MaxPortsLen(a + [r] + b) == Largest(r.ranges)
    ensures MaxPortsLen(b) == 0
    decreases |b|
  {
    if b == [] {
      assert a + [r] + b == a + [r];
    } else {
      var n := |b| - 1;
      assert (a + [r] + b)[..|a + [r] + b| - 1] == a + [r] + b[..n];
      LastPortsDecide(a, r, b[..n]);
    }
  }
}
