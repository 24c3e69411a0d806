/** Which of the queued applications an offer goes to. */
module ServiceOrder {
  import opened Protocol
  import opened Builders
  import opened Deployments
  import TQ = TaskQueue

  /** No queued application that fits has priority over the one the offer goes to. */
  ghost predicate ServesBest(q: seq<TQ.TaskKey>, offer: Offer) {
    var k := FirstFit(q, offer);
    k < |q| ==> forall j :: 0 <= j < |q| && Fits(offer, q[j].load) ==> !TQ.TaskLess(q[j], q[k])
  }

  function MaxReal(x: real, y: real): real {
    if x < y then y else x
  }

  function MaxNat(x: nat, y: nat): nat {
    if x < y then y else x
  }

  /** Of every resource `a` needs no more than the larger need of `b` and `c`. */
  predicate NeedsNoMore(a: Application, b: Application, c: Application) {
    a.cpus <= MaxReal(b.cpus, c.cpus) && a.mem <= MaxReal(b.mem, c.mem) && |a.ports| <= MaxNat(|b.ports|, |c.ports|)
  }

  /** Some application before slot `i` fits every offer that fits those at `i` and `j`. */
  ghost predicate Shielded(q: seq<TQ.TaskKey>, i: nat, j: nat)
    requires i < |q| && j < |q|
  {
    exists k :: 0 <= k < i && NeedsNoMore(q[k].load, q[i].load, q[j].load)
  }

  /** Two applications that stand in the wrong order are never the first choice. */
  ghost predicate InversionsShielded(q: seq<TQ.TaskKey>) {
    forall i: nat, j: nat :: i < j < |q| && TQ.TaskLess(q[j], q[i]) ==> Shielded(q, i, j)
  }

  // ---------- An offer of exactly the given size ----------

  function Exactly(cpus: real, mem: real, ports: nat): Offer
    requires ports < 0x8000_0000
  {
    Offer("slave", "host", ThreeResources(cpus, mem, if ports == 0 then [] else [PortRange(1, ports)]))
  }

  function ThreeResources(cpus: real, mem: real, ranges: seq<PortRange>): seq<Resource> {
    [Resource("cpus", cpus, []), Resource("mem", mem, []), Resource("ports", 0.0, ranges)]
  }

  lemma Scalars(cpus: real, mem: real, ranges: seq<PortRange>)
    ensures var rs := ThreeResources(cpus, mem, ranges);
            TotalScalar(rs, "cpus") == cpus && TotalScalar(rs, "mem") == mem
  {
    var rs := ThreeResources(cpus, mem, ranges);
    assert |"cpus"| == 4 && |"mem"| == 3 && |"ports"| == 5;
    assert rs[..2][..1] == rs[..1] && rs[..1][..0] == [];
    assert TotalScalar(rs[..1], "cpus") == cpus && TotalScalar(rs[..1], "mem") == 0.0;
    assert TotalScalar(rs[..2], "cpus") == cpus && TotalScalar(rs[..2], "mem") == mem;
  }

  lemma OnlyRanges(cpus: real, mem: real, ranges: seq<PortRange>)
    ensures PortRanges(ThreeResources(cpus, mem, ranges)) == ranges
    ensures MaxPortsLen(ThreeResources(cpus, mem, ranges)) == Largest(ranges)
  {
    var rs := ThreeResources(cpus, mem, ranges);
    assert |"cpus"| == 4 && |"mem"| == 3 && |"ports"| == 5;
    assert rs[1..] == [rs[1], rs[2]] && rs[1..][1..] == [rs[2]] && [rs[2]][1..] == [];
    assert PortRanges([rs[2]]) == ranges && PortRanges(rs[1..]) == ranges;
  }

  lemma ExactlyHolds(cpus: real, mem: real, ports: nat)
    requires ports < 0x8000_0000
    ensures var offer := Exactly(cpus, mem, ports);
            && CanPick(offer, 0)
            && TotalScalar(offer.resources, "cpus") == cpus && TotalScalar(offer.resources, "mem") == mem
            && AsInt(MaxPortsLen(offer.resources)) == ports
            && PortRanges(offer.resources) == if ports == 0 then [] else [PortRange(1, ports)]
  {
    hide TotalScalar, PortRanges, MaxPortsLen, ThreeResources;
    var ranges := if ports == 0 then [] else [PortRange(1, ports)];
    Scalars(cpus, mem, ranges);
    OnlyRanges(cpus, mem, ranges);
    assert ranges != [] ==> ranges[..0] == [] && Largest(ranges) == ports;
  }

  /** An application fits such an offer exactly when it needs no more of anything. */
  lemma ExactlyFits(cpus: real, mem: real, ports: nat, app: Application)
    requires ports < 0x8000_0000
    ensures Fits(Exactly(cpus, mem, ports), app) <==> app.cpus <= cpus && app.mem <= mem && |app.ports| <= ports
  {
    ExactlyHolds(cpus, mem, ports);
  }

  // ---------- When the first fit is a best fit ----------

  /** Nothing that fits stands before the first fit, so the first fit is shielded from nothing. */
  lemma FirstFitIsUnshielded(q: seq<TQ.TaskKey>, offer: Offer, j: nat)
    requires var i := FirstFit(q, offer); i < |q| && j < |q| && Fits(offer, q[j].load)
    ensures FirstFit(q, offer) <= j && !Shielded(q, FirstFit(q, offer), j)
  {
    var i := FirstFit(q, offer);
    assert ThatFits(offer)(q[i]) && ThatFits(offer)(q[j]);
    forall k | 0 <= k < i
      ensures !NeedsNoMore(q[k].load, q[i].load, q[j].load)
    {
      assert !ThatFits(offer)(q[k]);
    }
  }

  lemma ShieldedServesBest(q: seq<TQ.TaskKey>, offer: Offer)
    requires InversionsShielded(q)
    ensures ServesBest(q, offer)
  {
    hide Shielded, Fits;
    var i := FirstFit(q, offer);
    if i < |q| {
      forall j | 0 <= j < |q| && Fits(offer, q[j].load)
        ensures !TQ.TaskLess(q[j], q[i])
      {
        FirstFitIsUnshielded(q, offer, j);
      }
    }
  }

  lemma UnshieldedIsPassedOver(q: seq<TQ.TaskKey>, i: nat, j: nat) returns (offer: Offer)
    requires i < j < |q| && TQ.TaskLess(q[j], q[i]) && !Shielded(q, i, j)
    requires |q[i].load.ports| < 0x8000_0000 && |q[j].load.ports| < 0x8000_0000
    ensures CanPick(offer, 0) && !ServesBest(q, offer)
  {
    hide TQ.TaskLess, Fits, Exactly;
    var a, b := q[i].load, q[j].load;
    var cpus, mem, ports := MaxReal(a.cpus, b.cpus), MaxReal(a.mem, b.mem), MaxNat(|a.ports|, |b.ports|);
    offer := Exactly(cpus, mem, ports);
    ExactlyHolds(cpus, mem, ports);
    ExactlyFits(cpus, mem, ports, a);
    ExactlyFits(cpus, mem, ports, b);
    var k := FirstFit(q, offer);
    assert ThatFits(offer)(q[i]) && ThatFits(offer)(q[k]);
    ExactlyFits(cpus, mem, ports, q[k].load);
    assert k < i ==> NeedsNoMore(q[k].load, a, b);
    assert k == i;
  }

  /**
   * `FulfillOffer` serves the biggest and oldest application that fits, whatever is offered,
   * exactly when every pair of applications in the wrong order stands behind one that needs
   * no more than the two together.
   */
  lemma ServesBestIff(q: seq<TQ.TaskKey>)
    requires forall i :: 0 <= i < |q| ==> |q[i].load.ports| < 0x8000_0000
    ensures (forall offer :: CanPick(offer, 0) ==> ServesBest(q, offer)) <==> InversionsShielded(q)
    ensures InversionsShielded(q) ==> forall offer :: ServesBest(q, offer)
  {
    hide ServesBest, Shielded, TQ.TaskLess, CanPick;
    if InversionsShielded(q) {
      forall offer
        ensures ServesBest(q, offer)
      {
        ShieldedServesBest(q, offer);
      }
    } else {
      var i: nat, j: nat :| i < j < |q| && TQ.TaskLess(q[j], q[i]) && !Shielded(q, i, j);
      var offer := UnshieldedIsPassedOver(q, i, j);
    }
  }
}
