/** The resource ledger (src/ledger.rs) and the counter updates of src/runtime.rs. */
module Ledger {
  import opened Types
  import opened Sequences

  // ---- exact sums: the reference the saturating code is measured against

  function Total(rs: seq<Reservation>, d: Dim): nat {
    if rs == [] then 0 else Total(rs[..|rs| - 1], d) + Amount(rs[|rs| - 1], d)
  }

  predicate Mentions(rs: seq<Reservation>, d: Dim) {
    exists i :: 0 <= i < |rs| && Request(rs[i], d).Some?
  }

  /** Reserved capacity of a list: each dimension is the exact sum cut off at 2^64 - 1; a
      dimension is present when `base` caps it or some reservation asks for it. */
  function Reserved(base: Capacity, rs: seq<Reservation>): Capacity {
    Capacity(
      Sat(Total(rs, Slots)),
      if base.memoryBytes.Some? || Mentions(rs, Memory) then Some(Sat(Total(rs, Memory))) else None,
      if base.pids.Some? || Mentions(rs, Pids) then Some(Sat(Total(rs, Pids))) else None)
  }

  const UNCAPPED := Capacity(0, None, None)

  // ---- counter updates (src/runtime.rs:1357-1378)

  function AddReservation(c: Capacity, r: Reservation): Capacity {
    Capacity(
      SatAdd(c.taskSlots, r.taskSlots),
      if r.memoryBytes.Some? then Some(SatAdd(OrZero(c.memoryBytes), r.memoryBytes.value)) else c.memoryBytes,
      if r.pids.Some? then Some(SatAdd(OrZero(c.pids), r.pids.value)) else c.pids)
  }

  function SubtractReservation(c: Capacity, r: Reservation): Capacity {
    Capacity(
      SatSub(c.taskSlots, r.taskSlots),
      if r.memoryBytes.Some? && c.memoryBytes.Some?
      then Some(SatSub(c.memoryBytes.value, r.memoryBytes.value)) else c.memoryBytes,
      if r.pids.Some? && c.pids.Some?
      then Some(SatSub(c.pids.value, r.pids.value)) else c.pids)
  }

  datatype ResourceLedger = ResourceLedger(capacity: Capacity, tenantQuotas: map<string, Capacity>) {

    /** The quota that applies to a task of `tenant`, if any. */
    function QuotaOf(tenant: Option<string>): Option<Capacity> {
      if tenant.Some? && tenant.value in tenantQuotas then Some(tenantQuotas[tenant.value]) else None
    }

    /** Err names the first dimension the request exceeds on its own. */
    function EnsureWithinCapacity(r: Reservation): Result<(), Dim> {
      Within(capacity, r)
    }

    function EnsureWithinTenantQuota(tenant: Option<string>, r: Reservation): Result<(), Dim> {
      match QuotaOf(tenant)
      case None => Ok(())
      case Some(quota) => Within(quota, r)
    }

    predicate CanReserve(reserved: Capacity, r: Reservation) {
      Admits(capacity, reserved, r)
    }

    predicate CanReserveForTenant(tenant: Option<string>, reserved: Capacity, r: Reservation) {
      match QuotaOf(tenant)
      case None => true
      case Some(quota) => Admits(quota, reserved, r)
    }

    /** Aggregates a list of reservations (src/ledger.rs:201-234). */
    method ReservedCapacity(rs: seq<Reservation>) returns (reserved: Capacity)
      ensures reserved == Reserved(capacity, rs)
    {
      var slots: U64 := 0;
      var memory: Option<U64> := if capacity.memoryBytes.Some? then Some(0) else None;
      var pids: Option<U64> := if capacity.pids.Some? then Some(0) else None;
      for i := 0 to |rs|
        invariant Capacity(slots, memory, pids) == Reserved(capacity, rs[..i])
      {
        IncrementalIsBatch(capacity, rs[..i], rs[i]);
        assert rs[..i] + [rs[i]] == rs[..i + 1];
        slots := SatAdd(slots, rs[i].taskSlots);
        if rs[i].memoryBytes.Some? {
          memory := Some(SatAdd(OrZero(memory), rs[i].memoryBytes.value));
        }
        if rs[i].pids.Some? {
          pids := Some(SatAdd(OrZero(pids), rs[i].pids.value));
        }
      }
      assert rs[..|rs|] == rs;
      reserved := Capacity(slots, memory, pids);
    }

    function AvailableCapacity(reserved: Capacity): Capacity {
      Remaining(capacity, reserved)
    }
  }

  function Within(limit: Capacity, r: Reservation): Result<(), Dim> {
    if r.taskSlots > limit.taskSlots then Err(Slots)
    else if r.memoryBytes.Some? && limit.memoryBytes.Some? && r.memoryBytes.value > limit.memoryBytes.value
    then Err(Memory)
    else if r.pids.Some? && limit.pids.Some? && r.pids.value > limit.pids.value then Err(Pids)
    else Ok(())
  }

  predicate Admits(limit: Capacity, reserved: Capacity, r: Reservation) {
    if SatAdd(reserved.taskSlots, r.taskSlots) > limit.taskSlots then false
    else if reserved.memoryBytes.Some? && r.memoryBytes.Some? && limit.memoryBytes.Some?
            && SatAdd(reserved.memoryBytes.value, r.memoryBytes.value) > limit.memoryBytes.value then false
    else if reserved.pids.Some? && r.pids.Some? && limit.pids.Some?
            && SatAdd(reserved.pids.value, r.pids.value) > limit.pids.value then false
    else true
  }

  function Remaining(limit: Capacity, reserved: Capacity): Capacity {
    Capacity(
      SatSub(limit.taskSlots, reserved.taskSlots),
      if limit.memoryBytes.Some? then Some(SatSub(limit.memoryBytes.value, OrZero(reserved.memoryBytes))) else None,
      if limit.pids.Some? then Some(SatSub(limit.pids.value, OrZero(reserved.pids))) else None)
  }

  // ---- laws

  lemma TotalAppend(rs: seq<Reservation>, r: Reservation, d: Dim)
    ensures Total(rs + [r], d) == Total(rs, d) + Amount(r, d)
    ensures Mentions(rs + [r], d) == (Mentions(rs, d) || Request(r, d).Some?)
  {
  }

  lemma {:induction false} UnmentionedIsZero(rs: seq<Reservation>, d: Dim)
    requires !Mentions(rs, d)
    ensures Total(rs, d) == 0
  {
    if rs != [] {
      var rest := rs[..|rs| - 1];
      assert forall i :: 0 <= i < |rest| ==> rest[i] == rs[i];
      assert !Mentions(rest, d);
      UnmentionedIsZero(rest, d);
      assert Request(rs[|rs| - 1], d).None?;
    }
  }

  /** Adding one reservation to the counter of a list gives the counter of the longer list. */
  lemma IncrementalIsBatch(base: Capacity, rs: seq<Reservation>, r: Reservation)
    ensures AddReservation(Reserved(base, rs), r) == Reserved(base, rs + [r])
  {
    TotalAppend(rs, r, Slots);
    TotalAppend(rs, r, Memory);
    TotalAppend(rs, r, Pids);
    if !Mentions(rs, Memory) { UnmentionedIsZero(rs, Memory); }
    if !Mentions(rs, Pids) { UnmentionedIsZero(rs, Pids); }
  }

  lemma {:induction false} TotalConcat(a: seq<Reservation>, b: seq<Reservation>, d: Dim)
    ensures Total(a + b, d) == Total(a, d) + Total(b, d)
    decreases |b|
  {
    if b == [] {
      assert a + b == a;
    } else {
      var n := |b| - 1;
      TotalConcat(a, b[..n], d);
      assert (a + b)[..|a + b| - 1] == a + b[..n];
    }
  }

  lemma {:induction false} TotalCut(a: seq<Reservation>, r: Reservation, b: seq<Reservation>, d: Dim)
    ensures Total(a + [r] + b, d) == Total(a + b, d) + Amount(r, d)
  {
    TotalConcat(a, b, d);
    TotalConcat(a + [r], b, d);
    TotalAppend(a, r, d);
  }

  lemma {:induction false} TotalRemove(rs: seq<Reservation>, i: nat, d: Dim)
    requires i < |rs|
    ensures Total(rs, d) == Total(rs[..i] + rs[i + 1..], d) + Amount(rs[i], d)
  {
    TotalCut(rs[..i], rs[i], rs[i + 1..], d);
    assert rs == rs[..i] + [rs[i]] + rs[i + 1..];
  }

  lemma {:induction false} TotalIgnoresOrder(a: seq<Reservation>, b: seq<Reservation>, d: Dim)
    requires multiset(a) == multiset(b)
    ensures Total(a, d) == Total(b, d)
    decreases |a|
  {
    if a == [] {
      assert |multiset(b)| == |b|;
    } else {
      var i := MatchLast(a, b);
      TotalIgnoresOrder(a[..|a| - 1], b[..i] + b[i + 1..], d);
      TotalRemove(b, i, d);
    }
  }

  /** The aggregate of a set of reservations does not depend on the order they are listed in. */
  lemma ReservedIgnoresOrder(base: Capacity, a: seq<Reservation>, b: seq<Reservation>)
    requires multiset(a) == multiset(b)
    ensures Reserved(base, a) == Reserved(base, b)
  {
    TotalIgnoresOrder(a, b, Slots);
    TotalIgnoresOrder(a, b, Memory);
    TotalIgnoresOrder(a, b, Pids);
    forall d: Dim ensures Mentions(a, d) == Mentions(b, d) {
      assert forall r :: r in a <==> r in multiset(a);
      assert forall r :: r in b <==> r in multiset(b);
      assert Mentions(a, d) == exists r :: r in a && Request(r, d).Some?;
      assert Mentions(b, d) == exists r :: r in b && Request(r, d).Some?;
    }
  }

  /** Subtracting a reservation just added restores a dimension exactly when the addition did
      not saturate there (absent counting as zero). */
  lemma SubtractUndoesAdd(c: Capacity, r: Reservation, d: Dim)
    ensures OrZero(Level(SubtractReservation(AddReservation(c, r), r), d)) == OrZero(Level(c, d))
        <==> OrZero(Level(c, d)) + Amount(r, d) <= U64_MAX
    ensures Level(c, d).Some? && OrZero(Level(c, d)) + Amount(r, d) <= U64_MAX
        ==> Level(SubtractReservation(AddReservation(c, r), r), d) == Level(c, d)
  {
  }

  /** Reserved plus available is the capacity in a capped dimension exactly when the
      reserved amount is within it. */
  lemma ReservedPlusAvailable(limit: Capacity, reserved: Capacity, d: Dim)
    requires Level(limit, d).Some?
    ensures Level(Remaining(limit, reserved), d).Some?
    ensures OrZero(Level(reserved, d)) + Level(Remaining(limit, reserved), d).value == Level(limit, d).value
        <==> OrZero(Level(reserved, d)) <= Level(limit, d).value
  {
  }

  /** What one dimension of a capacity or quota asks of an exact total. */
  predicate DimFits(limit: Capacity, used: nat, r: Reservation, d: Dim) {
    Level(limit, d).Some? && Request(r, d).Some? ==> used + Amount(r, d) <= Level(limit, d).value
  }

  /** A limit that saturating counters can enforce. */
  predicate Enforced(limit: Capacity, d: Dim) {
    Level(limit, d).Some? && Level(limit, d).value < U64_MAX
  }

  /** The request fits next to `rs`, or the limit is 2^64 - 1 and can never be seen to be exceeded. */
  predicate Room(limit: Capacity, rs: seq<Reservation>, r: Reservation, d: Dim) {
    Enforced(limit, d) ==> DimFits(limit, Total(rs, d), r, d)
  }

  lemma {:induction false} ReservedLevel(base: Capacity, rs: seq<Reservation>, d: Dim)
    ensures Level(base, d).Some? ==> Level(Reserved(base, rs), d) == Some(Sat(Total(rs, d)))
    ensures OrZero(Level(Reserved(base, rs), d)) == Sat(Total(rs, d))
  {
    if !Mentions(rs, d) { UnmentionedIsZero(rs, d); }
    match d case Slots => case Memory => case Pids =>
  }

  /** One admission test against a counter that holds saturated exact sums. */
  lemma AdmitsTracked(limit: Capacity, counter: Capacity, rs: seq<Reservation>, r: Reservation)
    requires forall d: Dim :: Enforced(limit, d) ==> Level(counter, d) == Some(Sat(Total(rs, d)))
    ensures Admits(limit, counter, r) <==> forall d: Dim :: Room(limit, rs, r, d)
  {
    assert forall d: Dim :: Room(limit, rs, r, d) <==>
      (Level(limit, d).Some? && Level(counter, d).Some? && Request(r, d).Some? ==>
         SatAdd(Level(counter, d).value, Amount(r, d)) <= Level(limit, d).value);
    if !Admits(limit, counter, r) {
      if SatAdd(counter.taskSlots, r.taskSlots) > limit.taskSlots {
        assert !Room(limit, rs, r, Slots);
      } else if counter.memoryBytes.Some? && r.memoryBytes.Some? && limit.memoryBytes.Some?
          && SatAdd(counter.memoryBytes.value, r.memoryBytes.value) > limit.memoryBytes.value {
        assert !Room(limit, rs, r, Memory);
      } else {
        assert !Room(limit, rs, r, Pids);
      }
    }
  }

  /** The admission test with saturating counters, said with exact sums. */
  lemma AdmitsIsExact(limit: Capacity, rs: seq<Reservation>, r: Reservation)
    ensures Admits(limit, Reserved(limit, rs), r) <==> forall d: Dim :: Room(limit, rs, r, d)
  {
    forall d: Dim | Enforced(limit, d) ensures Level(Reserved(limit, rs), d) == Some(Sat(Total(rs, d))) {
      ReservedLevel(limit, rs, d);
    }
    AdmitsTracked(limit, Reserved(limit, rs), rs, r);
  }

  /** Admission at submit time is the same test as fitting an empty counter. */
  lemma AdmissionIsFittingEmpty(limit: Capacity, r: Reservation)
    ensures Within(limit, r).Ok? <==> Admits(limit, Reserved(limit, []), r)
    ensures Within(limit, r).Ok? <==> forall d: Dim :: DimFits(limit, 0, r, d)
  {
    assert Reserved(limit, []).taskSlots == 0;
    assert DimFits(limit, 0, r, Slots) == (r.taskSlots <= limit.taskSlots);
    assert DimFits(limit, 0, r, Memory) ==
      (r.memoryBytes.Some? && limit.memoryBytes.Some? ==> r.memoryBytes.value <= limit.memoryBytes.value);
    assert DimFits(limit, 0, r, Pids) ==
      (r.pids.Some? && limit.pids.Some? ==> r.pids.value <= limit.pids.value);
    if Within(limit, r).Ok? {
      forall d: Dim ensures DimFits(limit, 0, r, d) {
        match d case Slots => case Memory => case Pids =>
      }
    }
  }

  /** At the limit 2^64 - 1 two reservations are granted whose exact sum exceeds it. */
  lemma SaturatedLimitOverGrants()
    ensures var limit := Capacity(8, Some(U64_MAX), None);
            var r := Reservation(1, Some(U64_MAX), None);
            && Admits(limit, Reserved(limit, [r]), r)
            && Total([r, r], Memory) > U64_MAX
  {
    var limit := Capacity(8, Some(U64_MAX), None);
    var r := Reservation(1, Some(U64_MAX), None);
    TotalAppend([], r, Slots);
    TotalAppend([], r, Memory);
    TotalAppend([r], r, Memory);
    assert [r] == [] + [r] && [r, r] == [r] + [r];
    assert Total([], Slots) == 0 && Total([], Memory) == 0;
    assert Mentions([r], Memory) by { assert Request([r][0], Memory).Some?; }
  }
}
