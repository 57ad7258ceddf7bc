/** Storage reservations: a plan is charged to the devices its five roots sit on, and
    granted only if every touched device keeps its low-water mark with all outstanding
    reservations on top. The arithmetic is that of unsigned 64-bit words. */
module CapacityGuard {
  import opened Counting
  import opened Words

  type Device = nat

  /** What one probe of a root answers. */
  datatype Probe = Failed | Usage(writable: bool, known: bool, device: Device, free: uint64)

  datatype Plan = Plan(source: int64, expanded: int64)

  // ---------------------------------------------------------------- the plan of a lease

  /** checkedArchiveBytes */
  function CheckedArchiveBytes(value: int64, multiplier: int64): (r: Option<int64>)
    ensures r.Some? <==> value >= 0 && multiplier > 0 && value as int * multiplier as int <= MAX_INT64
    ensures r.Some? ==> r.value as int == value as int * multiplier as int
  {
    if value < 0 || multiplier <= 0 then None
    else
      QuotientBound(value as int, multiplier as int, MAX_INT64);
      if value as int > MAX_INT64 / multiplier as int then None else Some(value * multiplier)
  }

  lemma Multiply(a: int, b: int, m: int)
    requires a <= b && m > 0
    ensures a * m <= b * m
  {}

  /** value > limit / multiplier, with truncating division, is the overflow test. */
  lemma QuotientBound(value: int, multiplier: int, limit: int)
    requires value >= 0 && multiplier > 0 && limit >= 0
    ensures value <= limit / multiplier <==> value * multiplier <= limit
  {
    var q, r := limit / multiplier, limit % multiplier;
    assert limit == q * multiplier + r;
    assert (q + 1) * multiplier == q * multiplier + multiplier;
    if value <= q {
      Multiply(value, q, multiplier);
    } else {
      Multiply(q + 1, value, multiplier);
    }
  }

  function Min(a: int, b: int): int { if a < b then a else b }

  /** archiveStoragePlan: over the integers the planned expansion is the smaller of the
      limit and size times ratio, and the plan is refused exactly when it does not fit. */
  method ArchiveStoragePlan(sourceSize: int64, maxExpanded: int64, maxRatio: int64)
    returns (plan: Option<Plan>)
    ensures plan.Some? ==>
      && plan.value.source == sourceSize >= 0
      && plan.value.expanded as int == Min(maxExpanded as int, sourceSize as int * maxRatio as int)
    ensures plan.None? <==>
      || maxExpanded < 0 || maxRatio <= 0 || sourceSize < 0
      || sourceSize as int + Min(maxExpanded as int, sourceSize as int * maxRatio as int) > MAX_INT64
  {
    if maxExpanded < 0 || maxRatio <= 0 { return None; }
    var expanded := maxExpanded;
    var ratioBytes := CheckedArchiveBytes(sourceSize, maxRatio);
    if ratioBytes.Some? && ratioBytes.value < expanded { expanded := ratioBytes.value; }
    if sourceSize < 0 || expanded < 0 || sourceSize as int > MAX_INT64 - expanded as int { return None; }
    return Some(Plan(sourceSize, expanded));
  }

  // ---------------------------------------------------------------- specification

  /** What each of the five roots has to hold: two input copies, the sandbox output and
      its materialized copy, and the repository. */
  function Needs(plan: Plan): seq<int> {
    var s, e := plan.source as int, plan.expanded as int;
    [s, e, s, e, s + e]
  }

  predicate Usable(p: Probe) { p.Usage? && p.writable && p.known }

  /** The charge of a device after the first `n` probes. */
  function Charge(probes: seq<Probe>, needs: seq<int>, n: nat, device: Device): int
    requires n <= |probes| && n <= |needs|
  {
    if n == 0 then 0
    else Charge(probes, needs, n - 1, device) +
         (if probes[n - 1].Usage? && probes[n - 1].device == device then needs[n - 1] else 0)
  }

  /** The device is the one of a root among the first `n`. */
  predicate Touched(probes: seq<Probe>, n: nat, device: Device)
    requires n <= |probes|
  {
    exists i | 0 <= i < n :: probes[i].Usage? && probes[i].device == device
  }

  /** What the last of the first `n` probes said about a device. */
  function Free(probes: seq<Probe>, n: nat, device: Device): int
    requires n <= |probes|
  {
    if n == 0 then 0
    else if probes[n - 1].Usage? && probes[n - 1].device == device then probes[n - 1].free as int
    else Free(probes, n - 1, device)
  }

  function Amount(charges: map<Device, uint64>, device: Device): nat {
    if device in charges then charges[device] as int else 0
  }

  ghost function On(device: Device): map<Device, uint64> -> nat {
    (charges: map<Device, uint64>) => Amount(charges, device)
  }

  /** Over the integers: every probe answers, and every touched device keeps the
      low-water mark with what is reserved and what this plan adds. */
  ghost predicate Fits(probes: seq<Probe>, plan: Plan, reserved: map<Device, uint64>, minimum: uint64)
    requires |probes| == 5
  {
    && (forall i | 0 <= i < 5 :: Usable(probes[i]))
    && forall d | Touched(probes, 5, d) ::
         minimum as int + Amount(reserved, d) + Charge(probes, Needs(plan), 5, d) <= Free(probes, 5, d)
  }

  datatype Domain = Domain(free: uint64, bytes: uint64)

  /** The table of domains after the first `n` probes. */
  ghost predicate Tallied(domains: map<Device, Domain>, probes: seq<Probe>, needs: seq<int>, n: nat)
    requires n <= |probes| && n <= |needs|
  {
    forall d :: (d in domains <==> Touched(probes, n, d)) &&
                (d in domains ==> domains[d].bytes as int == Charge(probes, needs, n, d) &&
                                  domains[d].free as int == Free(probes, n, d))
  }

  lemma TouchedNext(probes: seq<Probe>, n: nat, d: Device)
    requires n < |probes|
    ensures Touched(probes, n + 1, d) <==>
              Touched(probes, n, d) || (probes[n].Usage? && probes[n].device == d)
  {
    if Touched(probes, n, d) {
      var i :| 0 <= i < n && probes[i].Usage? && probes[i].device == d;
      assert 0 <= i < n + 1;
    }
  }

  lemma ChargeUntouched(probes: seq<Probe>, needs: seq<int>, n: nat, d: Device)
    requires n <= |probes| && n <= |needs| && !Touched(probes, n, d)
    ensures Charge(probes, needs, n, d) == 0
  {
    if n > 0 {
      TouchedNext(probes, n - 1, d);
      ChargeUntouched(probes, needs, n - 1, d);
    }
  }

  lemma ChargeGrows(probes: seq<Probe>, needs: seq<int>, n: nat, m: nat, d: Device)
    requires n <= m <= |probes| && m <= |needs| && forall i | 0 <= i < m :: needs[i] >= 0
    ensures 0 <= Charge(probes, needs, n, d) <= Charge(probes, needs, m, d)
  {
    if m > n {
      ChargeGrows(probes, needs, n, m - 1, d);
    } else if n > 0 {
      ChargeGrows(probes, needs, n - 1, n - 1, d);
    }
  }

  lemma {:induction false} FreeBounded(probes: seq<Probe>, n: nat, d: Device)
    requires n <= |probes|
    ensures 0 <= Free(probes, n, d) <= MAX_UINT64
  {
    if n > 0 { FreeBounded(probes, n - 1, d); }
  }

  lemma TouchedMonotone(probes: seq<Probe>, n: nat, m: nat, d: Device)
    requires n <= m <= |probes| && Touched(probes, n, d)
    ensures Touched(probes, m, d)
  {}

  // ---------------------------------------------------------------- the guard

  /** The release closure of one grant: it gives its charges back at most once. */
  class Reservation {
    ghost const id: nat
    const charges: map<Device, uint64>
    var done: bool

    constructor (ghost id: nat, charges: map<Device, uint64>)
      ensures this.id == id && this.charges == charges && !done
    {
      this.id := id;
      this.charges := charges;
      done := false;
    }
  }

  class Guard {
    const rootCount: nat
    const minimumFree: uint64
    var reserved: map<Device, uint64>
    ghost var outstanding: map<nat, map<Device, uint64>>
    ghost var issued: nat

    /** Each device's reserved value is the sum of the outstanding plans on it. */
    ghost predicate Valid()
      reads this
    {
      && (forall d :: Amount(reserved, d) == Sum(outstanding, On(d)))
      && (forall i | i in outstanding :: i < issued)
    }

    constructor (rootCount: nat, minimumFree: uint64)
      ensures Valid() && outstanding == map[] && reserved == map[]
      ensures this.rootCount == rootCount && this.minimumFree == minimumFree
    {
      this.rootCount := rootCount;
      this.minimumFree := minimumFree;
      reserved := map[];
      outstanding := map[];
      issued := 0;
    }

    /** The calls of `add`, one for each root; no result if one of them fails. */
    method Tally(probes: seq<Probe>, plan: Plan) returns (domains: Option<map<Device, Domain>>)
      requires |probes| == 5 && plan.source >= 0 && plan.expanded >= 0
      ensures domains.Some? ==>
        && (forall i | 0 <= i < 5 :: Usable(probes[i]))
        && Tallied(domains.value, probes, Needs(plan), 5)
      ensures domains.None? ==>
        || (exists i | 0 <= i < 5 :: !Usable(probes[i]))
        || (exists d :: Touched(probes, 5, d) && Charge(probes, Needs(plan), 5, d) > MAX_UINT64)
    {
      var s, e := plan.source as int as uint64, plan.expanded as int as uint64;
      var needs := [s, e, s, e, s + e];
      assert forall i | 0 <= i < 5 :: needs[i] as int == Needs(plan)[i];
      var table: map<Device, Domain> := map[];
      var n := 0;
      while n < 5
        invariant 0 <= n <= 5
        invariant forall i | 0 <= i < n :: Usable(probes[i])
        invariant Tallied(table, probes, Needs(plan), n)
      {
        var probe := probes[n];
        if !(probe.Usage? && probe.writable && probe.known) { return None; }
        var d := probe.device;
        var bytes := if d in table then table[d].bytes else 0;
        forall c ensures Touched(probes, n + 1, c) <==> Touched(probes, n, c) || c == d {
          TouchedNext(probes, n, c);
        }
        if d !in table { ChargeUntouched(probes, Needs(plan), n, d); }
        if bytes as int > MAX_UINT64 - needs[n] as int {
          ChargeGrows(probes, Needs(plan), n + 1, 5, d);
          TouchedMonotone(probes, n + 1, 5, d);
          return None;
        }
        table := table[d := Domain(probe.free, bytes + needs[n])];
        n := n + 1;
      }
      return Some(table);
    }

    /** The low-water check of every touched device; the charges if all of them pass. */
    method CheckDomains(domains: map<Device, Domain>) returns (charges: Option<map<Device, uint64>>)
      ensures charges.Some? ==>
        && charges.value.Keys == domains.Keys
        && forall d | d in domains :: charges.value[d] == domains[d].bytes
      ensures charges.Some? <==> forall d | d in domains :: Room(domains[d], reserved, minimumFree, d)
    {
      var rest := domains.Keys;
      var passed: map<Device, uint64> := map[];
      while rest != {}
        invariant rest <= domains.Keys && passed.Keys == domains.Keys - rest
        invariant forall d | d in passed ::
          passed[d] == domains[d].bytes && Room(domains[d], reserved, minimumFree, d)
        decreases |rest|
      {
        var d :| d in rest;
        rest := rest - {d};
        var existing := if d in reserved then reserved[d] else 0;
        var bytes := domains[d].bytes;
        if existing as int > MAX_UINT64 - bytes as int ||
           (existing + bytes) as int > MAX_UINT64 - minimumFree as int ||
           domains[d].free < minimumFree + existing + bytes {
          assert !Room(domains[d], reserved, minimumFree, d);
          return None;
        }
        passed := passed[d := bytes];
      }
      return Some(passed);
    }

    /** ReservePlan. `probes` are the answers of the five probes it makes. */
    method ReservePlan(probes: seq<Probe>, plan: Plan) returns (r: Reservation?)
      requires Valid() && |probes| == 5
      modifies this
      ensures Valid()
      ensures r == null <==>
        plan.source < 0 || plan.expanded < 0 || rootCount != 4 ||
        !Fits(probes, plan, old(reserved), minimumFree)
      ensures r == null ==> reserved == old(reserved) && outstanding == old(outstanding)
      ensures r != null ==>
        && fresh(r) && !r.done && r.id !in old(outstanding)
        && outstanding == old(outstanding)[r.id := r.charges]
        && (forall d :: Amount(r.charges, d) == Charge(probes, Needs(plan), 5, d))
        && (forall d :: Amount(reserved, d) == Amount(old(reserved), d) + Amount(r.charges, d))
    {
      r := null;
      if plan.source < 0 || plan.expanded < 0 || rootCount != 4 { return; }
      var tallied := Tally(probes, plan);
      if tallied.None? {
        Overflows(probes, plan, reserved, minimumFree);
        return;
      }
      var domains := tallied.value;
      var checked := CheckDomains(domains);
      if checked.None? {
        Refused(probes, plan, reserved, minimumFree, domains);
        return;
      }
      var charges := checked.value;
      Accepted(probes, plan, reserved, minimumFree, charges, domains);
      AddAll(charges);
      r := new Reservation(issued, charges);
      forall d ensures Amount(reserved, d) == Sum(outstanding[r.id := charges], On(d)) {
        SumWrite(outstanding, r.id, charges, On(d));
      }
      outstanding := outstanding[r.id := charges];
      issued := issued + 1;
    }

    /** The loop that adds the charges of a granted plan. */
    method AddAll(charges: map<Device, uint64>)
      requires forall d | d in charges :: Amount(reserved, d) + charges[d] as int <= MAX_UINT64
      modifies this`reserved
      ensures forall d :: Amount(reserved, d) == Amount(old(reserved), d) + Amount(charges, d)
    {
      var rest := charges.Keys;
      while rest != {}
        invariant rest <= charges.Keys
        invariant forall d :: Amount(reserved, d) ==
                    Amount(old(reserved), d) + (if d in rest then 0 else Amount(charges, d))
        decreases |rest|
      {
        var d :| d in rest;
        var existing := if d in reserved then reserved[d] else 0;
        reserved := reserved[d := existing + charges[d]];
        rest := rest - {d};
      }
    }

    /** The loop that takes the charges of a released plan back. */
    method SubtractAll(charges: map<Device, uint64>)
      requires forall d | d in charges :: Amount(reserved, d) >= charges[d] as int
      modifies this`reserved
      ensures forall d :: Amount(reserved, d) == Amount(old(reserved), d) - Amount(charges, d)
    {
      var rest := charges.Keys;
      while rest != {}
        invariant rest <= charges.Keys
        invariant forall d :: Amount(reserved, d) ==
                    Amount(old(reserved), d) - (if d in rest then 0 else Amount(charges, d))
        decreases |rest|
      {
        var d :| d in rest;
        if d in reserved { reserved := reserved[d := reserved[d] - charges[d]]; }
        rest := rest - {d};
      }
    }

    /** The release closure: the first call gives everything back and never goes below
        zero, any later call does nothing. */
    method Release(r: Reservation)
      requires Valid()
      requires !r.done ==> r.id in outstanding && outstanding[r.id] == r.charges
      modifies this, r`done
      ensures Valid() && r.done
      ensures old(r.done) ==> reserved == old(reserved) && outstanding == old(outstanding)
      ensures !old(r.done) ==>
        && outstanding == old(outstanding) - {r.id}
        && forall d :: Amount(reserved, d) == Amount(old(reserved), d) - Amount(r.charges, d)
    {
      if r.done { return; }
      r.done := true;
      forall d ensures Sum(outstanding, On(d)) == Amount(r.charges, d) + Sum(outstanding - {r.id}, On(d)) {
        SumTake(outstanding, r.id, On(d));
      }
      SubtractAll(r.charges);
      outstanding := outstanding - {r.id};
    }
  }

  /** A probe that does not answer, or a charge beyond 64 bits, cannot fit. */
  lemma Overflows(probes: seq<Probe>, plan: Plan, reserved: map<Device, uint64>, minimum: uint64)
    requires |probes| == 5
    requires (exists i | 0 <= i < 5 :: !Usable(probes[i])) ||
             (exists d :: Touched(probes, 5, d) && Charge(probes, Needs(plan), 5, d) > MAX_UINT64)
    ensures !Fits(probes, plan, reserved, minimum)
  {
    if d :| Touched(probes, 5, d) && Charge(probes, Needs(plan), 5, d) > MAX_UINT64 {
      FreeBounded(probes, 5, d);
    }
  }

  /** The device keeps its low-water mark with the reservations and these bytes. */
  predicate Room(domain: Domain, reserved: map<Device, uint64>, minimum: uint64, d: Device) {
    minimum as int + Amount(reserved, d) + domain.bytes as int <= domain.free as int
  }

  lemma Accepted(
    probes: seq<Probe>, plan: Plan, reserved: map<Device, uint64>, minimum: uint64,
    charges: map<Device, uint64>, domains: map<Device, Domain>)
    requires |probes| == 5 && forall i | 0 <= i < 5 :: Usable(probes[i])
    requires Tallied(domains, probes, Needs(plan), 5) && charges.Keys == domains.Keys
    requires forall d | d in domains :: charges[d] == domains[d].bytes
    requires forall d | d in domains :: Room(domains[d], reserved, minimum, d)
    ensures Fits(probes, plan, reserved, minimum)
    ensures forall d :: Amount(charges, d) == Charge(probes, Needs(plan), 5, d)
    ensures forall d | d in charges :: Amount(reserved, d) + charges[d] as int <= MAX_UINT64
  {
    forall d ensures Amount(charges, d) == Charge(probes, Needs(plan), 5, d) {
      if d !in charges { ChargeUntouched(probes, Needs(plan), 5, d); }
    }
    forall d | d in domains
      ensures minimum as int + Amount(reserved, d) + Charge(probes, Needs(plan), 5, d) <=
              Free(probes, 5, d)
    {
      assert Room(domains[d], reserved, minimum, d);
    }
  }

  lemma Refused(
    probes: seq<Probe>, plan: Plan, reserved: map<Device, uint64>, minimum: uint64,
    domains: map<Device, Domain>)
    requires |probes| == 5 && Tallied(domains, probes, Needs(plan), 5)
    requires exists d | d in domains :: !Room(domains[d], reserved, minimum, d)
    ensures !Fits(probes, plan, reserved, minimum)
  {
    var d :| d in domains && !Room(domains[d], reserved, minimum, d);
    assert Touched(probes, 5, d);
  }

  // ---------------------------------------------------------------- totals

  ghost function Value(): uint64 -> nat { (v: uint64) => v as nat }

  /** Whatever devices the roots share, the charges of one plan add up to three times
      what it reads and writes. */
  lemma ChargesAddUp(probes: seq<Probe>, plan: Plan, charges: map<Device, uint64>)
    requires plan.source >= 0 && plan.expanded >= 0
    requires |probes| == 5 && forall i | 0 <= i < 5 :: Usable(probes[i])
    requires forall d :: Amount(charges, d) == Charge(probes, Needs(plan), 5, d)
    ensures Sum(charges, Value()) == 3 * (plan.source as int + plan.expanded as int)
  {
    TotalOf(probes, Needs(plan), 5, charges);
    var needs := Needs(plan);
    assert Prefix(needs, 5) == Prefix(needs, 4) + needs[4];
    assert Prefix(needs, 4) == Prefix(needs, 3) + needs[3];
    assert Prefix(needs, 3) == Prefix(needs, 2) + needs[2];
    assert Prefix(needs, 2) == Prefix(needs, 1) + needs[1];
    assert Prefix(needs, 1) == Prefix(needs, 0) + needs[0];
  }

  function Prefix(needs: seq<int>, n: nat): int
    requires n <= |needs|
  {
    if n == 0 then 0 else Prefix(needs, n - 1) + needs[n - 1]
  }

  lemma {:induction false} TotalOf(
    probes: seq<Probe>, needs: seq<int>, n: nat, charges: map<Device, uint64>)
    requires n <= |probes| && n <= |needs| && forall i | 0 <= i < n :: probes[i].Usage?
    requires forall i | 0 <= i < n :: needs[i] >= 0
    requires forall d :: Amount(charges, d) == Charge(probes, needs, n, d)
    ensures Sum(charges, Value()) == Prefix(needs, n)
  {
    if n == 0 {
      forall d | d in charges ensures charges[d] == 0 { assert Amount(charges, d) == 0; }
      AllZero(charges);
    } else {
      var d := probes[n - 1].device;
      ChargeGrows(probes, needs, n - 1, n - 1, d);
      var rest := Amount(charges, d) - needs[n - 1];
      assert rest == Charge(probes, needs, n - 1, d);
      var before := charges[d := rest as uint64];
      forall c ensures Amount(before, c) == Charge(probes, needs, n - 1, c) {
        assert Amount(charges, c) == Charge(probes, needs, n, c);
      }
      TotalOf(probes, needs, n - 1, before);
      SumWrite(charges, d, before[d], Value());
    }
  }

  lemma {:induction false} AllZero(charges: map<Device, uint64>)
    requires forall d | d in charges :: charges[d] == 0
    ensures Sum(charges, Value()) == 0
    decreases |charges|
  {
    if charges != map[] {
      var d :| d in charges;
      SumTake(charges, d, Value());
      AllZero(charges - {d});
    }
  }
}
