/**
 * The reverse-lookup indexes of checker/checker.go and what building one
 * from a bucket of records yields: an A or AAAA record is filed under its
 * owner name and the reverse-lookup key of its address, a PTR record under
 * its owner name and its target.
 */
module CheckerIndex {
  import opened Dns

  /** `cacheReversed` (checker/checker.go:16): the inner map of an index. */
  type Reversed = map<string, RR>

  /** `cache` (checker/checker.go:19): the outer map of an index. */
  type Index = map<string, Reversed>

  /** Why an index could not be built (checker/checker.go:54, 78, 100). */
  datatype Error =
    | UnreversibleA(addr: seq<Byte>)
    | UnreversibleAAAA(addr: seq<Byte>)
    | NotReverseName(owner: string)

  datatype Result<T> = Ok(value: T) | Err(error: Error)

  /** A name in one of the two reverse-lookup zones (checker/checker.go:98). */
  predicate IsReverseName(name: string) {
    HasSuffix(name, V4Zone) || HasSuffix(name, V6Zone)
  }

  /** The (outer, inner) key under which a record is filed, or None when the build rejects the record. */
  function IndexKey(r: RR): Option<(string, string)> {
    match r
    case A(name, addr) =>
      var k := ReverseKey(addr);
      if k.Some? then Some((name, k.value)) else None
    case AAAA(name, addr) =>
      var k := ReverseKey(addr);
      if k.Some? then Some((name, k.value)) else None
    case PTR(name, target) =>
      if IsReverseName(name) then Some((name, target)) else None
    case Other(_, _) => None
  }

  /** The error a build reports for a record it rejects. */
  function Rejection(r: RR): Error
    requires !r.Other?
  {
    match r
    case A(_, addr) => UnreversibleA(addr)
    case AAAA(_, addr) => UnreversibleAAAA(addr)
    case PTR(name, _) => NotReverseName(name)
  }

  /** Only A, AAAA and PTR records can be indexed; the source's type assertions panic on anything else. */
  predicate NoOther(rs: seq<RR>) {
    forall i :: 0 <= i < |rs| ==> !rs[i].Other?
  }

  /** `idx[outer][inner] = r`, creating the inner map when `outer` is new (checker/checker.go:56-61). */
  function Insert(idx: Index, outer: string, inner: string, r: RR): Index {
    idx[outer := (if outer in idx then idx[outer] else map[])[inner := r]]
  }

  /**
   * The index the build loop produces from `rs`, processed in order: the
   * first rejected record aborts the build with its error; otherwise every
   * record is inserted, a later record replacing an earlier one under the
   * same key.
   */
  function Build(rs: seq<RR>): Result<Index>
    requires NoOther(rs)
  {
    if rs == [] then Ok(map[])
    else
      var r := rs[|rs| - 1];
      match Build(rs[..|rs| - 1])
      case Err(e) => Err(e)
      case Ok(idx) =>
        match IndexKey(r)
        case None => Err(Rejection(r))
        case Some(key) => Ok(Insert(idx, key.0, key.1, r))
  }

  /** No record with index `i`'s key comes after it. */
  predicate LastWithKey(rs: seq<RR>, i: int)
    requires 0 <= i < |rs|
  {
    forall j :: i < j < |rs| ==> IndexKey(rs[j]) != IndexKey(rs[i])
  }

  /** Every inner map is non-empty and every record is filed under its own key. */
  predicate WellFormed(idx: Index) {
    forall n :: n in idx ==>
      && idx[n] != map[]
      && forall k :: k in idx[n] ==> IndexKey(idx[n][k]) == Some((n, k))
  }

  /** Whether the record has a slot in the index. */
  predicate Filed(idx: Index, r: RR) {
    IndexKey(r).Some? && IndexKey(r).value.0 in idx && IndexKey(r).value.1 in idx[IndexKey(r).value.0]
  }

  /** Once a build has failed, more records do not change its error. */
  lemma {:induction false} BuildErrorSticks(p: seq<RR>, q: seq<RR>)
    requires NoOther(p + q)
    requires NoOther(p) && Build(p).Err?
    ensures Build(p + q) == Build(p)
    decreases |q|
  {
    if q == [] {
      assert p + q == p;
    } else {
      var q' := q[..|q| - 1];
      assert (p + q)[..|p + q| - 1] == p + q';
      assert NoOther(p + q') by {
        assert forall i :: 0 <= i < |p + q'| ==> (p + q')[i] == (p + q)[i];
      }
      BuildErrorSticks(p, q');
    }
  }

  /** The position of the first record of `rs` the build rejects, or -1 when it rejects none. */
  function FirstRejected(rs: seq<RR>): (i: int)
    ensures -1 <= i < |rs|
    ensures i >= 0 ==> IndexKey(rs[i]).None? && forall j :: 0 <= j < i ==> IndexKey(rs[j]).Some?
    ensures i == -1 ==> forall j :: 0 <= j < |rs| ==> IndexKey(rs[j]).Some?
  {
    if rs == [] then -1
    else
      var init := rs[..|rs| - 1];
      assert forall j :: 0 <= j < |init| ==> init[j] == rs[j];
      var i := FirstRejected(init);
      if i >= 0 then i
      else if IndexKey(rs[|rs| - 1]).None? then |rs| - 1
      else -1
  }

  /**
   * A build fails exactly when some record is rejected, and then with the
   * error of the first rejected record (checker/checker.go:50-55, 74-79, 98-101).
   */
  lemma {:induction false} BuildFails(rs: seq<RR>)
    requires NoOther(rs)
    ensures Build(rs).Err? <==> FirstRejected(rs) >= 0
    ensures Build(rs).Err? ==> Build(rs).error == Rejection(rs[FirstRejected(rs)])
    decreases |rs|
  {
    if rs != [] {
      var init := rs[..|rs| - 1];
      assert NoOther(init) by {
        assert forall i :: 0 <= i < |init| ==> init[i] == rs[i];
      }
      BuildFails(init);
    }
  }

  /** The record sits in its own slot of the index. */
  predicate Holds(idx: Index, r: RR) {
    Filed(idx, r) && idx[IndexKey(r).value.0][IndexKey(r).value.1] == r
  }

  /** One step of a successful build: the prefix built, and the last record inserted into it. */
  lemma BuildStep(rs: seq<RR>)
    requires rs != [] && NoOther(rs) && Build(rs).Ok?
    ensures NoOther(rs[..|rs| - 1]) && Build(rs[..|rs| - 1]).Ok?
    ensures IndexKey(rs[|rs| - 1]).Some?
    ensures var key := IndexKey(rs[|rs| - 1]).value;
      Build(rs).value == Insert(Build(rs[..|rs| - 1]).value, key.0, key.1, rs[|rs| - 1])
  {
    var init := rs[..|rs| - 1];
    assert NoOther(init) by {
      assert forall i :: 0 <= i < |init| ==> init[i] == rs[i];
    }
    assert Build(init).Ok? && IndexKey(rs[|rs| - 1]).Some?;
  }

  /** The slots of `Insert(idx, n0, k0, r)`: those of `idx` plus (n0, k0), which holds `r`. */
  lemma InsertSlots(idx: Index, n0: string, k0: string, r: RR)
    ensures forall n :: n in Insert(idx, n0, k0, r) <==> n in idx || n == n0
    ensures forall n, k :: n in Insert(idx, n0, k0, r) ==>
      (k in Insert(idx, n0, k0, r)[n] <==> (n == n0 && k == k0) || (n in idx && k in idx[n]))
    ensures Insert(idx, n0, k0, r)[n0][k0] == r
    ensures forall n, k :: n in idx && k in idx[n] && (n, k) != (n0, k0) ==> Insert(idx, n0, k0, r)[n][k] == idx[n][k]
  {
  }

  /** A successful build is well formed: no empty inner map, every record in its own slot. */
  lemma {:induction false} BuildWellFormed(rs: seq<RR>)
    requires NoOther(rs) && Build(rs).Ok?
    ensures WellFormed(Build(rs).value)
    decreases |rs|
  {
    if rs != [] {
      var init := rs[..|rs| - 1];
      var r := rs[|rs| - 1];
      BuildStep(rs);
      BuildWellFormed(init);
      var idx := Build(init).value;
      var key := IndexKey(r).value;
      InsertSlots(idx, key.0, key.1, r);
    }
  }

  /** A successful build files every record (checker/checker.go:46-62, 70-86, 94-109). */
  lemma BuildFilesEveryRecord(rs: seq<RR>, i: int)
    requires NoOther(rs) && Build(rs).Ok? && 0 <= i < |rs|
    ensures Filed(Build(rs).value, rs[i])
  {
    BuildFails(rs);
    var key := IndexKey(rs[i]).value;
    var j := LastIndexOf(rs, key);
    BuildKeepsLastRecord(rs, j);
  }

  /**
   * In a successful build, the slot of a record that no later record shares
   * its key with holds that record (checker/checker.go:57, 81, 103).
   */
  lemma {:induction false} BuildKeepsLastRecord(rs: seq<RR>, i: int)
    requires NoOther(rs) && Build(rs).Ok? && 0 <= i < |rs| && LastWithKey(rs, i)
    ensures Holds(Build(rs).value, rs[i])
    decreases |rs|
  {
    var init := rs[..|rs| - 1];
    var r := rs[|rs| - 1];
    BuildStep(rs);
    var key := IndexKey(r).value;
    InsertSlots(Build(init).value, key.0, key.1, r);
    if i < |init| {
      assert init[i] == rs[i];
      assert LastWithKey(init, i);
      BuildKeepsLastRecord(init, i);
    }
  }

  /** The position of the last record of `rs` filed under `key`, or -1 when there is none. */
  function LastIndexOf(rs: seq<RR>, key: (string, string)): (i: int)
    ensures -1 <= i < |rs|
    ensures i >= 0 ==> IndexKey(rs[i]) == Some(key) && LastWithKey(rs, i)
    ensures i == -1 ==> forall j :: 0 <= j < |rs| ==> IndexKey(rs[j]) != Some(key)
  {
    if rs == [] then -1
    else if IndexKey(rs[|rs| - 1]) == Some(key) then |rs| - 1
    else
      var init := rs[..|rs| - 1];
      assert forall j :: 0 <= j < |init| ==> init[j] == rs[j];
      LastIndexOf(init, key)
  }

  /**
   * A successful build has a slot exactly for each key some record is filed
   * under, holding the last such record: it holds nothing else.
   */
  lemma {:induction false} BuildSlots(rs: seq<RR>)
    requires NoOther(rs) && Build(rs).Ok?
    ensures forall n, k :: n in Build(rs).value && k in Build(rs).value[n] <==> LastIndexOf(rs, (n, k)) >= 0
    ensures forall n, k :: n in Build(rs).value && k in Build(rs).value[n] ==>
      Build(rs).value[n][k] == rs[LastIndexOf(rs, (n, k))]
    decreases |rs|
  {
    if rs != [] {
      var init := rs[..|rs| - 1];
      var r := rs[|rs| - 1];
      BuildStep(rs);
      BuildSlots(init);
      var idx := Build(init).value;
      var key := IndexKey(r).value;
      InsertSlots(idx, key.0, key.1, r);
      forall n, k
        ensures LastIndexOf(rs, (n, k)) == if (n, k) == key then |rs| - 1 else LastIndexOf(init, (n, k))
      {
      }
    }
  }

  /**
   * A record replaced by a later one under the same key, and not repeated
   * later, is nowhere in the built index, so no check can report it
   * (checker/checker.go:57, 81, 103).
   */
  lemma OverwrittenRecordIsLost(rs: seq<RR>, i: int)
    requires NoOther(rs) && Build(rs).Ok?
    requires 0 <= i < |rs| && !LastWithKey(rs, i)
    requires forall j :: i < j < |rs| ==> rs[j] != rs[i]
    ensures forall n :: n in Build(rs).value ==> rs[i] !in Build(rs).value[n].Values
  {
    var idx := Build(rs).value;
    BuildWellFormed(rs);
    BuildSlots(rs);
    var j :| i < j < |rs| && IndexKey(rs[j]) == IndexKey(rs[i]);
    forall n, k | n in idx && k in idx[n]
      ensures idx[n][k] != rs[i]
    {
      var m := LastIndexOf(rs, (n, k));
      assert IndexKey(rs[m]) == Some((n, k));
    }
  }
}
