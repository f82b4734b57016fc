/**
 * The consistency checker of checker/checker.go: it builds the three
 * reverse-lookup indexes over a record store on first use, caches them, and
 * cross-checks forward (A, AAAA) against reverse (PTR) records.
 */
module Checker {
  import opened Dns
  import opened Zones
  import opened CheckerIndex

  /** The forward index a PTR owner is checked against: AAAA for an ip6.arpa owner, else A (checker/checker.go:168-171). */
  function ForwardFor(owner: string, a: Index, aaaa: Index): Index {
    if HasSuffix(owner, V6Zone) then aaaa else a
  }

  /**
   * What an index is checked against: the PTR index, for the A and AAAA
   * checks, or the two forward indexes, for the PTR check.
   */
  datatype Probe = PtrOwners(ptr: Index) | ForwardNames(a: Index, aaaa: Index)

  /**
   * Whether one inner key of `name` finds its counterpart: a reverse key that
   * is a PTR owner (checker/checker.go:123, 146), or a PTR target whose
   * forward entry holds the PTR owner as a reverse key (checker/checker.go:173-174).
   */
  predicate KeyMatches(probe: Probe, name: string, key: string) {
    match probe
    case PtrOwners(ptr) => key in ptr
    case ForwardNames(a, aaaa) =>
      var check := ForwardFor(name, a, aaaa);
      key in check && name in check[key]
  }

  /** A name is satisfied when at least one of its inner keys matches. */
  predicate Matched(probe: Probe, name: string, inner: Reversed) {
    exists key :: key in inner && KeyMatches(probe, name, key)
  }

  /** The records filed under names among `names` that are not satisfied. */
  function FailuresAmong(idx: Index, probe: Probe, names: set<string>): set<RR> {
    set n, k | n in names && n in idx && k in idx[n] && !Matched(probe, n, idx[n]) :: idx[n][k]
  }

  /** Every record filed under a name none of whose inner keys matches. */
  function Failures(idx: Index, probe: Probe): set<RR> {
    FailuresAmong(idx, probe, idx.Keys)
  }

  /** No two keys of the inner map hold the same record. */
  predicate Injective(inner: Reversed) {
    forall k1, k2 :: k1 in inner && k2 in inner && k1 != k2 ==> inner[k1] != inner[k2]
  }

  lemma WellFormedInjective(idx: Index, name: string)
    requires WellFormed(idx) && name in idx
    ensures Injective(idx[name])
    ensures forall r :: r in idx[name].Values ==> IndexKey(r).Some? && IndexKey(r).value.0 == name
  {
    forall k1, k2 | k1 in idx[name] && k2 in idx[name] && k1 != k2
      ensures idx[name][k1] != idx[name][k2]
    {
      assert IndexKey(idx[name][k1]) == Some((name, k1));
      assert IndexKey(idx[name][k2]) == Some((name, k2));
    }
  }

  lemma DistinctConcat<T>(xs: seq<T>, ys: seq<T>)
    requires Distinct(xs) && Distinct(ys)
    requires forall x :: x in xs ==> x !in ys
    ensures Distinct(xs + ys)
  {
    forall i, j | 0 <= i < j < |xs + ys|
      ensures (xs + ys)[i] != (xs + ys)[j]
    {
      if j >= |xs| && i < |xs| {
        assert (xs + ys)[i] in xs;
        assert (xs + ys)[j] == ys[j - |xs|];
      }
    }
  }

  /** Adding one name to those examined adds its records exactly when it is not satisfied. */
  lemma FailuresAmongStep(idx: Index, probe: Probe, done: set<string>, name: string)
    requires name in idx
    ensures FailuresAmong(idx, probe, done + {name}) ==
      FailuresAmong(idx, probe, done) + (if Matched(probe, name, idx[name]) then {} else idx[name].Values)
  {
    var lhs := FailuresAmong(idx, probe, done + {name});
    var rhs := FailuresAmong(idx, probe, done) + (if Matched(probe, name, idx[name]) then {} else idx[name].Values);
    forall r | r in rhs
      ensures r in lhs
    {
      if r !in FailuresAmong(idx, probe, done) {
        var k :| k in idx[name] && idx[name][k] == r;
      }
    }
  }

  /**
   * The inner loop over one name's keys (checker/checker.go:122-127,
   * 145-150, 172-179): stop at the first key that matches; otherwise collect
   * the name's records.
   */
  method ScanName(probe: Probe, name: string, cr: Reversed) returns (success: bool, current: seq<RR>)
    ensures success <==> Matched(probe, name, cr)
    ensures !success ==> forall r :: r in current <==> r in cr.Values
    ensures Injective(cr) ==> Distinct(current)
  {
    success := false;
    current := [];
    var keys := cr.Keys;
    while keys != {}
      invariant keys <= cr.Keys
      invariant !success
      invariant forall k :: k in cr && k !in keys ==> !KeyMatches(probe, name, k)
      invariant forall r :: r in current <==> exists k :: k in cr && k !in keys && cr[k] == r
      invariant Injective(cr) ==> Distinct(current)
      decreases keys
    {
      var key :| key in keys;
      success := KeyMatches(probe, name, key);
      if success {
        return;
      }
      if Injective(cr) {
        assert forall r :: r in current ==> r != cr[key];
        DistinctConcat(current, [cr[key]]);
      }
      current := current + [cr[key]];
      keys := keys - {key};
    }
  }

  /**
   * The loop shared by `CheckA`, `CheckAAAA` and `CheckPTR`
   * (checker/checker.go:119-131, 142-154, 165-183): a name none of whose keys
   * matches contributes all its records.
   */
  method CollectFailures(idx: Index, probe: Probe) returns (failed: seq<RR>)
    ensures forall r :: r in failed <==> r in Failures(idx, probe)
    ensures WellFormed(idx) ==> Distinct(failed)
  {
    failed := [];
    var pending := idx.Keys;
    while pending != {}
      invariant pending <= idx.Keys
      invariant forall r :: r in failed <==> r in FailuresAmong(idx, probe, idx.Keys - pending)
      invariant WellFormed(idx) ==> Distinct(failed)
      invariant WellFormed(idx) ==> forall r :: r in failed ==> IndexKey(r).Some? && IndexKey(r).value.0 !in pending
      decreases pending
    {
      var name :| name in pending;
      var success, current := ScanName(probe, name, idx[name]);
      ghost var done := idx.Keys - pending;
      FailuresAmongStep(idx, probe, done, name);
      if !success {
        if WellFormed(idx) {
          WellFormedInjective(idx, name);
          DistinctConcat(failed, current);
        }
        failed := failed + current;
      }
      pending := pending - {name};
      assert idx.Keys - pending == done + {name};
    }
  }

  /**
   * In a well-formed index the records of a name are reported all together
   * or not at all: all of them exactly when none of the name's keys matches
   * (checker/checker.go:119-131, 142-154, 165-183). One matching key is enough.
   */
  lemma ReportedByName(idx: Index, probe: Probe, name: string)
    requires WellFormed(idx) && name in idx
    ensures idx[name].Values <= Failures(idx, probe) <==> !Matched(probe, name, idx[name])
    ensures Matched(probe, name, idx[name]) ==> idx[name].Values !! Failures(idx, probe)
  {
    WellFormedInjective(idx, name);
    var k0 :| k0 in idx[name];
    var r0 := idx[name][k0];
    forall r | r in idx[name].Values && r in Failures(idx, probe)
      ensures !Matched(probe, name, idx[name])
    {
      var n, k :| n in idx && k in idx[n] && !Matched(probe, n, idx[n]) && idx[n][k] == r;
      assert IndexKey(r) == Some((n, k));
    }
    if !Matched(probe, name, idx[name]) {
      forall r | r in idx[name].Values
        ensures r in Failures(idx, probe)
      {
        var k :| k in idx[name] && idx[name][k] == r;
      }
    }
    assert r0 in idx[name].Values;
  }

  /**
   * A forward record whose PTR record points back at it is not reported:
   * its reverse key is a PTR owner (checker/checker.go:119-131, 142-154).
   */
  lemma PairedForwardNotReported(fidx: Index, ptr: Index, fwd: RR, rev: RR)
    requires WellFormed(fidx) && WellFormed(ptr)
    requires fwd.A? || fwd.AAAA?
    requires ReverseKey(fwd.addr).Some?
    requires rev == PTR(ReverseKey(fwd.addr).value, fwd.name)
    requires Holds(fidx, fwd) && Holds(ptr, rev)
    ensures fwd !in Failures(fidx, PtrOwners(ptr))
  {
    var key := ReverseKey(fwd.addr).value;
    ReverseKeyZone(fwd.addr);
    assert IndexKey(fwd) == Some((fwd.name, key));
    assert IsReverseName(key);
    assert IndexKey(rev) == Some((key, fwd.name));
    assert KeyMatches(PtrOwners(ptr), fwd.name, key);
    ReportedByName(fidx, PtrOwners(ptr), fwd.name);
  }

  /**
   * A PTR record that points back at a forward record is not reported,
   * provided the reverse key lies in the zone the PTR check picks:
   * in-addr.arpa for an IPv4 address in the A index, ip6.arpa for any other
   * address in the AAAA index (checker/checker.go:165-183).
   */
  lemma PairedPtrNotReported(a: Index, aaaa: Index, ptr: Index, fwd: RR, rev: RR)
    requires WellFormed(ptr)
    requires fwd.A? || fwd.AAAA?
    requires ReverseKey(fwd.addr).Some? && (fwd.A? <==> IsV4(fwd.addr))
    requires rev == PTR(ReverseKey(fwd.addr).value, fwd.name)
    requires Holds(if fwd.A? then a else aaaa, fwd) && Holds(ptr, rev)
    ensures rev !in Failures(ptr, ForwardNames(a, aaaa))
  {
    var key := ReverseKey(fwd.addr).value;
    ReverseKeyZone(fwd.addr);
    assert IndexKey(fwd) == Some((fwd.name, key));
    assert IsReverseName(key);
    assert IndexKey(rev) == Some((key, fwd.name));
    assert ForwardFor(key, a, aaaa) == if fwd.A? then a else aaaa;
    assert KeyMatches(ForwardNames(a, aaaa), key, fwd.name);
    ReportedByName(ptr, ForwardNames(a, aaaa), key);
  }

  /**
   * A PTR record none of whose owner's targets has a forward entry holding
   * that owner is reported: either the target has no forward record at all,
   * or its records lie under other reverse keys (checker/checker.go:172-182).
   */
  lemma DanglingPtrReported(a: Index, aaaa: Index, ptr: Index, rev: RR)
    requires WellFormed(ptr) && rev.PTR? && Holds(ptr, rev)
    requires forall t :: t in ptr[rev.name] ==>
      !(t in ForwardFor(rev.name, a, aaaa) && rev.name in ForwardFor(rev.name, a, aaaa)[t])
    ensures rev in Failures(ptr, ForwardNames(a, aaaa))
  {
    assert IndexKey(rev) == Some((rev.name, rev.target));
    ReportedByName(ptr, ForwardNames(a, aaaa), rev.name);
  }

  /**
   * An AAAA record holding an IPv4-mapped address gets an in-addr.arpa
   * reverse key, so its PTR record is looked up in the A index: the AAAA
   * record passes its check while its PTR is reported whenever none of the
   * PTR owner's targets has an A record (checker/checker.go:74, 168-171).
   */
  lemma MappedAAAAPtrIsCheckedAgainstA(a: Index, aaaa: Index, ptr: Index, fwd: RR, rev: RR)
    requires WellFormed(aaaa) && WellFormed(ptr)
    requires fwd.AAAA? && |fwd.addr| == 16 && IsV4Mapped(fwd.addr)
    requires rev == PTR(ReverseKey(fwd.addr).value, fwd.name)
    requires Holds(aaaa, fwd) && Holds(ptr, rev)
    requires forall t :: t in ptr[rev.name] ==> t !in a
    ensures fwd !in Failures(aaaa, PtrOwners(ptr))
    ensures rev in Failures(ptr, ForwardNames(a, aaaa))
  {
    var key := ReverseKey(fwd.addr).value;
    ReverseKeyZone(fwd.addr);
    assert IndexKey(fwd) == Some((fwd.name, key));
    assert KeyMatches(PtrOwners(ptr), fwd.name, key);
    ReportedByName(aaaa, PtrOwners(ptr), fwd.name);
    assert ForwardFor(rev.name, a, aaaa) == a;
    DanglingPtrReported(a, aaaa, ptr, rev);
  }

  /** A cached index is well formed and holds only records of type `t`. */
  predicate CacheFits(cache: Option<Index>, t: RRType) {
    cache.Some? ==>
      && WellFormed(cache.value)
      && forall n, k :: n in cache.value && k in cache.value[n] ==> Tag(cache.value[n][k]) == t
  }

  /** The three caches of a checker: None is an index not built (Go's nil map). */
  datatype Caches = Caches(a: Option<Index>, aaaa: Option<Index>, ptr: Option<Index>)

  /**
   * One `prepareX` (checker/checker.go:42-110): a built index is kept as it
   * is; otherwise the index is built from the records, and left unbuilt when
   * the build fails.
   */
  function Ensure(cache: Option<Index>, rs: seq<RR>): (Option<Index>, Option<Error>)
    requires NoOther(rs)
  {
    if cache.Some? then (cache, None)
    else
      match Build(rs)
      case Ok(idx) => (Some(idx), None)
      case Err(e) => (None, Some(e))
  }

  /** `prepare` (checker/checker.go:29-40): A, then AAAA, then PTR, stopping at the first error. */
  function PrepareAll(c: Caches, list: seq<RR>): (Caches, Option<Error>) {
    var (a, errA) := Ensure(c.a, Bucket(list, TypeA));
    if errA.Some? then (Caches(a, c.aaaa, c.ptr), errA)
    else
      var (aaaa, errAAAA) := Ensure(c.aaaa, Bucket(list, TypeAAAA));
      if errAAAA.Some? then (Caches(a, aaaa, c.ptr), errAAAA)
      else
        var (ptr, errPTR) := Ensure(c.ptr, Bucket(list, TypePTR));
        (Caches(a, aaaa, ptr), errPTR)
  }

  /** A record the build of its (still unbuilt) index rejects. */
  predicate BlocksPrepare(c: Caches, r: RR) {
    && IndexKey(r).None?
    && match r
       case A(_, _) => c.a.None?
       case AAAA(_, _) => c.aaaa.None?
       case PTR(_, _) => c.ptr.None?
       case Other(_, _) => false
  }

  /** Building the bucket of type `t` fails exactly when one of the store's records of that type is rejected. */
  lemma BucketBuildFails(list: seq<RR>, t: RRType)
    requires t == TypeA || t == TypeAAAA || t == TypePTR
    ensures NoOther(Bucket(list, t))
    ensures Build(Bucket(list, t)).Err? <==> exists r :: r in list && Tag(r) == t && IndexKey(r).None?
  {
    var b := Bucket(list, t);
    BuildFails(b);
    forall r | r in list && Tag(r) == t
      ensures r in b
    {
      InBucket(list, t, r);
    }
    if Build(b).Err? {
      var i := FirstRejected(b);
      assert b[i] in b;
      InBucket(list, t, b[i]);
    } else {
      forall r | r in list && Tag(r) == t
        ensures IndexKey(r).Some?
      {
        var i :| 0 <= i < |b| && b[i] == r;
      }
    }
  }

  /**
   * `prepare` fails exactly when some A, AAAA or PTR record of the store is
   * rejected while its index is still unbuilt; the A index is tried first,
   * then AAAA, then PTR, and the first error stops the others from being
   * attempted (checker/checker.go:29-40; checker/checker_test.go:33-44).
   */
  lemma PrepareFails(c: Caches, list: seq<RR>)
    ensures PrepareAll(c, list).1.Some? <==> exists r :: r in list && BlocksPrepare(c, r)
  {
    BucketBuildFails(list, TypeA);
    BucketBuildFails(list, TypeAAAA);
    BucketBuildFails(list, TypePTR);
    if exists r :: r in list && BlocksPrepare(c, r) {
      var r :| r in list && BlocksPrepare(c, r);
      assert Tag(r) == TypeA || Tag(r) == TypeAAAA || Tag(r) == TypePTR;
    }
  }

  /**
   * A failed A build leaves the A index unbuilt and the other two untouched,
   * and is the error `prepare` reports (checker/checker.go:30-32, 50-55).
   */
  lemma PrepareStopsAtA(c: Caches, list: seq<RR>)
    requires c.a.None?
    ensures NoOther(Bucket(list, TypeA))
    ensures Build(Bucket(list, TypeA)).Err? ==>
      PrepareAll(c, list) == (Caches(None, c.aaaa, c.ptr), Some(Build(Bucket(list, TypeA)).error))
  {
  }

  /**
   * After a successful `prepare` every index is built, and preparing again
   * is a no-op that cannot fail, whatever the store holds by then
   * (checker/checker.go:43-45, 67-69, 91-93; checker/checker_test.go:53-59).
   */
  lemma PrepareIsIdempotent(c: Caches, list: seq<RR>, later: seq<RR>)
    requires PrepareAll(c, list).1.None?
    ensures PrepareAll(c, list).0.a.Some? && PrepareAll(c, list).0.aaaa.Some? && PrepareAll(c, list).0.ptr.Some?
    ensures PrepareAll(PrepareAll(c, list).0, later) == (PrepareAll(c, list).0, None)
  {
  }

  /**
   * A failed `prepare` leaves the failing index unbuilt, so on the same store
   * the next call tries again and fails with the same error
   * (checker/checker.go:53, 77, 99; checker/checker_test.go:42-50).
   */
  lemma PrepareFailsAgain(c: Caches, list: seq<RR>)
    requires PrepareAll(c, list).1.Some?
    ensures PrepareAll(PrepareAll(c, list).0, list).1 == PrepareAll(c, list).1
  {
  }

  /** A successful build from records of type `t` fits the cache invariant. */
  lemma BuiltIndexFits(rs: seq<RR>, t: RRType)
    requires NoOther(rs) && Build(rs).Ok?
    requires forall r :: r in rs ==> Tag(r) == t
    ensures CacheFits(Some(Build(rs).value), t)
  {
    BuildWellFormed(rs);
    BuildSlots(rs);
  }

  /** `Checker` (checker/checker.go:22-27): a store and three lazily built indexes. */
  class Checker {
    const store: Records
    var a: Option<Index>
    var aaaa: Option<Index>
    var ptr: Option<Index>

    ghost predicate Valid()
      reads this
    {
      CacheFits(a, TypeA) && CacheFits(aaaa, TypeAAAA) && CacheFits(ptr, TypePTR)
    }

    function State(): Caches
      reads this
    {
      Caches(a, aaaa, ptr)
    }

    /** `&Checker{Records: rr}`: no index built yet. */
    constructor (store: Records)
      ensures this.store == store
      ensures State() == Caches(None, None, None)
      ensures Valid()
    {
      this.store := store;
      a, aaaa, ptr := None, None, None;
    }

    /** `prepareA` (checker/checker.go:42-64). */
    method PrepareA() returns (err: Option<Error>)
      requires Valid() && store.Valid()
      modifies this`a
      ensures Valid()
      ensures (a, err) == Ensure(old(a), Bucket(store.list, TypeA))
    {
      if a.Some? {
        return None;
      }
      var records := store.GetByType(TypeA);
      var built := BuildIndex(records);
      match built
      case Ok(idx) =>
        BuiltIndexFits(records, TypeA);
        a, err := Some(idx), None;
      case Err(e) =>
        a, err := None, Some(e);
    }

    /** `prepareAAAA` (checker/checker.go:66-88). */
    method PrepareAAAA() returns (err: Option<Error>)
      requires Valid() && store.Valid()
      modifies this`aaaa
      ensures Valid()
      ensures (aaaa, err) == Ensure(old(aaaa), Bucket(store.list, TypeAAAA))
    {
      if aaaa.Some? {
        return None;
      }
      var records := store.GetByType(TypeAAAA);
      var built := BuildIndex(records);
      match built
      case Ok(idx) =>
        BuiltIndexFits(records, TypeAAAA);
        aaaa, err := Some(idx), None;
      case Err(e) =>
        aaaa, err := None, Some(e);
    }

    /** `preparePTR` (checker/checker.go:90-110). */
    method PreparePTR() returns (err: Option<Error>)
      requires Valid() && store.Valid()
      modifies this`ptr
      ensures Valid()
      ensures (ptr, err) == Ensure(old(ptr), Bucket(store.list, TypePTR))
    {
      if ptr.Some? {
        return None;
      }
      var records := store.GetByType(TypePTR);
      var built := BuildIndex(records);
      match built
      case Ok(idx) =>
        BuiltIndexFits(records, TypePTR);
        ptr, err := Some(idx), None;
      case Err(e) =>
        ptr, err := None, Some(e);
    }

    /** `prepare` (checker/checker.go:29-40). */
    method Prepare() returns (err: Option<Error>)
      requires Valid() && store.Valid()
      modifies this`a, this`aaaa, this`ptr
      ensures Valid()
      ensures (State(), err) == PrepareAll(old(State()), store.list)
    {
      err := PrepareA();
      if err.Some? {
        return;
      }
      err := PrepareAAAA();
      if err.Some? {
        return;
      }
      err := PreparePTR();
    }

    /** `CheckA` (checker/checker.go:114-133). */
    method CheckA() returns (failed: seq<RR>, err: Option<Error>)
      requires Valid() && store.Valid()
      modifies this`a, this`aaaa, this`ptr
      ensures Valid()
      ensures (State(), err) == PrepareAll(old(State()), store.list)
      ensures err.Some? ==> failed == []
      ensures err.None? ==> a.Some? && ptr.Some?
      ensures err.None? ==> forall r :: r in failed <==> r in Failures(a.value, PtrOwners(ptr.value))
      ensures Distinct(failed)
    {
      err := Prepare();
      if err.Some? {
        return [], err;
      }
      failed := CollectFailures(a.value, PtrOwners(ptr.value));
    }

    /** `CheckAAAA` (checker/checker.go:137-156). */
    method CheckAAAA() returns (failed: seq<RR>, err: Option<Error>)
      requires Valid() && store.Valid()
      modifies this`a, this`aaaa, this`ptr
      ensures Valid()
      ensures (State(), err) == PrepareAll(old(State()), store.list)
      ensures err.Some? ==> failed == []
      ensures err.None? ==> aaaa.Some? && ptr.Some?
      ensures err.None? ==> forall r :: r in failed <==> r in Failures(aaaa.value, PtrOwners(ptr.value))
      ensures Distinct(failed)
    {
      err := Prepare();
      if err.Some? {
        return [], err;
      }
      failed := CollectFailures(aaaa.value, PtrOwners(ptr.value));
    }

    /** `CheckPTR` (checker/checker.go:160-185). */
    method CheckPTR() returns (failed: seq<RR>, err: Option<Error>)
      requires Valid() && store.Valid()
      modifies this`a, this`aaaa, this`ptr
      ensures Valid()
      ensures (State(), err) == PrepareAll(old(State()), store.list)
      ensures err.Some? ==> failed == []
      ensures err.None? ==> a.Some? && aaaa.Some? && ptr.Some?
      ensures err.None? ==> forall r :: r in failed <==> r in Failures(ptr.value, ForwardNames(a.value, aaaa.value))
      ensures Distinct(failed)
    {
      err := Prepare();
      if err.Some? {
        return [], err;
      }
      failed := CollectFailures(ptr.value, ForwardNames(a.value, aaaa.value));
    }
  }

  /** The build loop of `prepareA`, `prepareAAAA` and `preparePTR` (checker/checker.go:47-62, 71-86, 95-108). */
  method BuildIndex(rs: seq<RR>) returns (res: Result<Index>)
    requires NoOther(rs)
    ensures res == Build(rs)
  {
    var idx: Index := map[];
    for i := 0 to |rs|
      invariant NoOther(rs[..i]) && Build(rs[..i]) == Ok(idx)
    {
      var r := rs[i];
      assert rs[..i + 1][..i] == rs[..i];
      assert NoOther(rs[..i + 1]) by {
        assert forall j :: 0 <= j < i + 1 ==> rs[..i + 1][j] == rs[j];
      }
      match IndexKey(r)
      case None =>
        assert rs[..i + 1] + rs[i + 1..] == rs;
        BuildErrorSticks(rs[..i + 1], rs[i + 1..]);
        return Err(Rejection(r));
      case Some(key) =>
        if key.0 in idx {
          idx := idx[key.0 := idx[key.0][key.1 := r]];
        } else {
          idx := idx[key.0 := map[key.1 := r]];
        }
    }
    assert rs[..|rs|] == rs;
    return Ok(idx);
  }
}
