/** When a plan of a storage reservation is granted and what it charges, root by root. Nothing
    here uses the functions that the guard is proved against; that they agree is proved below. */
module CapacityRules {
  import opened Words
  import opened CapacityGuard

  /** The root of probe `i` is on this device. */
  predicate IsOn(probes: seq<Probe>, i: nat, device: Device)
    requires i < |probes|
  {
    probes[i].Usage? && probes[i].device == device
  }

  function If(b: bool, v: int): int { if b then v else 0 }

  /** The first root and the third hold the source, the second and the fourth what it expands
      to, and the fifth, the repository, holds both. */
  function Burden(probes: seq<Probe>, plan: Plan, device: Device): int
    requires |probes| == 5
  {
    var source, expanded := plan.source as int, plan.expanded as int;
    If(IsOn(probes, 0, device), source) + If(IsOn(probes, 1, device), expanded) + If(IsOn(probes, 2, device), source) +
    If(IsOn(probes, 3, device), expanded) + If(IsOn(probes, 4, device), source + expanded)
  }

  lemma BurdenIs(probes: seq<Probe>, plan: Plan, device: Device)
    requires |probes| == 5
    ensures Charge(probes, Needs(plan), 5, device) == Burden(probes, plan, device)
  {
    var needs := Needs(plan);
    assert Charge(probes, needs, 5, device) == Charge(probes, needs, 4, device) + If(IsOn(probes, 4, device), needs[4]);
    assert Charge(probes, needs, 4, device) == Charge(probes, needs, 3, device) + If(IsOn(probes, 3, device), needs[3]);
    assert Charge(probes, needs, 3, device) == Charge(probes, needs, 2, device) + If(IsOn(probes, 2, device), needs[2]);
    assert Charge(probes, needs, 2, device) == Charge(probes, needs, 1, device) + If(IsOn(probes, 1, device), needs[1]);
    assert Charge(probes, needs, 1, device) == Charge(probes, needs, 0, device) + If(IsOn(probes, 0, device), needs[0]);
  }

  /** On five devices of their own: source, expansion, source, expansion, and both. */
  lemma ChargedApart(probes: seq<Probe>, plan: Plan)
    requires |probes| == 5 && forall i | 0 <= i < 5 :: probes[i].Usage?
    requires forall i, j | 0 <= i < j < 5 :: probes[i].device != probes[j].device
    ensures var charge := (i: nat) requires i < 5 => Charge(probes, Needs(plan), 5, probes[i].device);
      && charge(0) == charge(2) == plan.source as int
      && charge(1) == charge(3) == plan.expanded as int
      && charge(4) == plan.source as int + plan.expanded as int
  {
    hide Charge;
    forall i: nat | i < 5 ensures Charge(probes, Needs(plan), 5, probes[i].device) == Burden(probes, plan, probes[i].device) {
      BurdenIs(probes, plan, probes[i].device);
    }
  }

  /** The last probe of its device. */
  predicate LastOf(probes: seq<Probe>, i: nat)
    requires i < |probes| && forall j | 0 <= j < |probes| :: probes[j].Usage?
  {
    forall j | i < j < |probes| :: probes[j].device != probes[i].device
  }

  lemma {:induction false} FreeIsLast(probes: seq<Probe>, n: nat, i: nat)
    requires i < n <= |probes| && forall j | 0 <= j < |probes| :: probes[j].Usage?
    requires forall j | i < j < n :: probes[j].device != probes[i].device
    ensures Free(probes, n, probes[i].device) == probes[i].free as int
  {
    if n > i + 1 { FreeIsLast(probes, n - 1, i); }
  }

  lemma {:induction false} LastExists(probes: seq<Probe>, n: nat, d: Device) returns (i: nat)
    requires n <= |probes| && (forall j | 0 <= j < |probes| :: probes[j].Usage?) && Touched(probes, n, d)
    ensures i < n && probes[i].device == d && forall j | i < j < n :: probes[j].device != d
  {
    if probes[n - 1].device == d {
      i := n - 1;
    } else {
      TouchedNext(probes, n - 1, d);
      i := LastExists(probes, n - 1, d);
    }
  }

  /** A plan is granted exactly if all roots answer, can be written and have a known device, and
      on the device of each root the free space that was told last covers the low-water mark,
      what is reserved, and the burden of this plan. */
  lemma GrantedIff(probes: seq<Probe>, plan: Plan, reserved: map<Device, uint64>, minimum: uint64)
    requires |probes| == 5
    ensures Fits(probes, plan, reserved, minimum) <==>
      && (forall i | 0 <= i < 5 :: probes[i].Usage? && probes[i].writable && probes[i].known)
      && forall i | 0 <= i < 5 && LastOf(probes, i) ::
           var d := probes[i].device;
           probes[i].free as int >=
             minimum as int + (if d in reserved then reserved[d] as int else 0) + Burden(probes, plan, d)
  {
    hide Charge, Free, Burden;
    forall d ensures Charge(probes, Needs(plan), 5, d) == Burden(probes, plan, d) { BurdenIs(probes, plan, d); }
    if forall i | 0 <= i < 5 :: Usable(probes[i]) {
      forall i | 0 <= i < 5 && LastOf(probes, i)
        ensures Free(probes, 5, probes[i].device) == probes[i].free as int && Touched(probes, 5, probes[i].device)
      {
        FreeIsLast(probes, 5, i);
      }
      forall d | Touched(probes, 5, d) ensures exists i | 0 <= i < 5 :: LastOf(probes, i) && probes[i].device == d {
        var i := LastExists(probes, 5, d);
        assert LastOf(probes, i);
      }
    }
  }
}
