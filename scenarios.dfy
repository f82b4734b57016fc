/**
 * Small stores passed to the checker's methods, with the results proved.
 * After the cases of checker/checker_test.go: a cached index survives a
 * later bad record until it is dropped, and a PTR record outside the
 * reverse zones makes every check fail. After checker/checker.go:114-133
 * and 160-185: of an A record with a PTR and one without, only the second
 * is reported.
 */
module Scenarios {
  import opened Dns
  import opened Zones
  import opened CheckerIndex
  import opened Checker

  /**
   * A built A index is reused even after a record its build would reject
   * joins the store (checker/checker.go:43-45; checker/checker_test.go:54-59).
   */
  method CachedIndexOutlivesBadRecord(good: RR, bad: RR) returns (first: Option<Error>, again: Option<Error>)
    requires good.A? && |good.addr| == 4
    requires bad.A? && |bad.addr| == 1
    ensures first == None && again == None
  {
    var c := NewChecker([good]);
    BucketOfOne(good, TypeA);
    OneForwardBuilds(good);
    first := c.PrepareA();
    assert c.a.Some?;
    c.store.Add(bad);
    again := c.PrepareA();
  }

  /**
   * Without a cached A index the same store is rebuilt, and the build
   * reports the bad record (checker/checker.go:50-55; checker/checker_test.go:60-61).
   */
  method UncachedIndexReportsBadRecord(good: RR, bad: RR) returns (rebuilt: Option<Error>)
    requires good.A? && |good.addr| == 4
    requires bad.A? && |bad.addr| == 1
    ensures rebuilt == Some(UnreversibleA(bad.addr))
  {
    var c := NewChecker([good, bad]);
    SecondRejected(good, bad);
    rebuilt := c.PrepareA();
  }

  /**
   * A PTR record whose owner is in neither reverse zone stops the PTR index
   * from being built, so each of the three checks reports the error and no
   * failures (checker/checker.go:98-101; checker/checker_test.go:42-50).
   */
  method BadPtrOwnerFailsEveryCheck(fwd: RR, rev: RR) returns (errA: Option<Error>, errAAAA: Option<Error>, errPTR: Option<Error>)
    requires fwd.A? && |fwd.addr| == 4
    requires rev.PTR? && !IsReverseName(rev.name)
    ensures errA == errAAAA == errPTR == Some(NotReverseName(rev.name))
  {
    var c := NewChecker([fwd, rev]);
    var failed;
    PtrIndexBlocks(c.State(), fwd, rev);
    failed, errA := c.CheckA();
    PtrIndexBlocks(c.State(), fwd, rev);
    failed, errAAAA := c.CheckAAAA();
    PtrIndexBlocks(c.State(), fwd, rev);
    failed, errPTR := c.CheckPTR();
  }

  lemma OneForwardBuilds(r: RR)
    requires (r.A? || r.AAAA?) && |r.addr| == 4
    ensures NoOther([r]) && Build([r]).Ok?
  {
    assert [r][..0] == [];
    assert IndexKey(r).Some?;
  }

  lemma BucketOfOne(r: RR, t: RRType)
    ensures Bucket([r], t) == if Tag(r) == t then [r] else []
  {
    assert [r][..0] == [];
  }

  lemma BucketOfTwo(r: RR, s: RR, t: RRType)
    ensures Bucket([r, s], t) == (if Tag(r) == t then [r] else []) + (if Tag(s) == t then [s] else [])
  {
    assert [r, s][..1] == [r];
    BucketOfOne(r, t);
  }

  lemma SecondRejected(good: RR, bad: RR)
    requires good.A? && |good.addr| == 4
    requires bad.A? && |bad.addr| == 1
    ensures Bucket([good, bad], TypeA) == [good, bad]
    ensures NoOther([good, bad]) && Build([good, bad]) == Err(UnreversibleA(bad.addr))
  {
    BucketOfTwo(good, bad, TypeA);
    OneForwardBuilds(good);
    assert [good, bad][..1] == [good];
  }

  /** With the PTR index unbuilt, a store of one A record and one PTR record outside the reverse zones fails to prepare. */
  lemma PtrIndexBlocks(c: Caches, fwd: RR, rev: RR)
    requires fwd.A? && |fwd.addr| == 4
    requires rev.PTR? && !IsReverseName(rev.name)
    requires c.ptr.None?
    ensures PrepareAll(c, [fwd, rev]).0.ptr.None?
    ensures PrepareAll(c, [fwd, rev]).1 == Some(NotReverseName(rev.name))
  {
    BucketOfTwo(fwd, rev, TypeA);
    BucketOfTwo(fwd, rev, TypeAAAA);
    BucketOfTwo(fwd, rev, TypePTR);
    OneForwardBuilds(fwd);
    assert [rev][..0] == [];
    assert Ensure(c.a, [fwd]).1 == None;
    assert Ensure(c.aaaa, []).1 == None;
    assert Ensure(c.ptr, [rev]) == (None, Some(NotReverseName(rev.name)));
  }

  /**
   * An A record with a PTR record pointing back at it, and an A record
   * under another name whose address has no PTR record: the A check reports
   * exactly the second record (checker/checker.go:114-133).
   */
  method OnlyOrphanReported(host: string, ip: seq<Byte>, k: string, orphan: RR) returns (failed: seq<RR>, err: Option<Error>)
    requires |ip| == 4 && ReverseKey(ip) == Some(k)
    requires orphan.A? && |orphan.addr| == 4 && orphan.name != host
    requires ReverseKey(orphan.addr) != Some(k)
    ensures err == None && failed == [orphan]
  {
    var c := NewChecker([A(host, ip), PTR(k, host), orphan]);
    OrphanFailsA(host, ip, k, orphan);
    failed, err := c.CheckA();
    assert c.State() == Caches(c.a, c.aaaa, c.ptr);
    assert orphan in failed;
    OnlyElement(failed, orphan);
  }

  /**
   * In the same store the PTR record finds the A record it points at, so
   * the PTR check reports nothing (checker/checker.go:160-185).
   */
  method MatchedPtrNotReported(host: string, ip: seq<Byte>, k: string, orphan: RR) returns (failed: seq<RR>, err: Option<Error>)
    requires |ip| == 4 && ReverseKey(ip) == Some(k)
    requires orphan.A? && |orphan.addr| == 4 && orphan.name != host
    ensures err == None && failed == []
  {
    var c := NewChecker([A(host, ip), PTR(k, host), orphan]);
    PtrMatchedInPairStore(host, ip, k, orphan);
    failed, err := c.CheckPTR();
    assert c.State() == Caches(c.a, c.aaaa, c.ptr);
    NoMembers(failed);
  }

  /** What `CheckA` finds in the store of `OnlyOrphanReported`. */
  lemma OrphanFailsA(host: string, ip: seq<Byte>, k: string, orphan: RR)
    requires |ip| == 4 && ReverseKey(ip) == Some(k)
    requires orphan.A? && |orphan.addr| == 4 && orphan.name != host
    requires ReverseKey(orphan.addr) != Some(k)
    ensures var (c, err) := PrepareAll(Caches(None, None, None), [A(host, ip), PTR(k, host), orphan]);
      err == None && c.a.Some? && c.ptr.Some?
      && forall r :: r in Failures(c.a.value, PtrOwners(c.ptr.value)) <==> r == orphan
  {
    PairAndOrphanBuild(host, ip, k, orphan);
    PairAndOrphanCheckA(host, k, A(host, ip), PTR(k, host), orphan, ReverseKey(orphan.addr).value);
  }

  /** What `CheckPTR` finds in the store of `MatchedPtrNotReported`. */
  lemma PtrMatchedInPairStore(host: string, ip: seq<Byte>, k: string, orphan: RR)
    requires |ip| == 4 && ReverseKey(ip) == Some(k)
    requires orphan.A? && |orphan.addr| == 4 && orphan.name != host
    ensures var (c, err) := PrepareAll(Caches(None, None, None), [A(host, ip), PTR(k, host), orphan]);
      err == None && c.a.Some? && c.aaaa.Some? && c.ptr.Some?
      && Failures(c.ptr.value, ForwardNames(c.a.value, c.aaaa.value)) == {}
  {
    PairAndOrphanBuild(host, ip, k, orphan);
    ReverseKeyZone(ip);
    PairAndOrphanCheckPTR(host, k, A(host, ip), PTR(k, host), orphan, ReverseKey(orphan.addr).value);
  }

  /** A checker with no index built, over a store of the records `rs`. */
  method NewChecker(rs: seq<RR>) returns (c: Checker)
    ensures fresh(c) && fresh(c.store)
    ensures c.Valid() && c.store.Valid() && c.State() == Caches(None, None, None)
    ensures c.store.list == rs
  {
    var store := new Records();
    store.Parse(rs);
    assert [] + rs == rs;
    c := new Checker(store);
  }

  /** A sequence without repetitions whose only possible element is `x` is empty or `[x]`. */
  lemma OnlyElement(s: seq<RR>, x: RR)
    requires Distinct(s)
    ensures (forall r :: r in s ==> r == x) ==> s == [] || s == [x]
  {
    if |s| >= 2 {
      assert s[0] != s[1];
      assert s[0] in s && s[1] in s;
    } else if |s| == 1 {
      assert s[0] in s;
    }
  }

  lemma NoMembers(s: seq<RR>)
    ensures (forall r :: r !in s) ==> s == []
  {
    if s != [] {
      assert s[0] in s;
    }
  }

  lemma BucketOfThree(r: RR, s: RR, u: RR, t: RRType)
    ensures Bucket([r, s, u], t)
      == (if Tag(r) == t then [r] else []) + (if Tag(s) == t then [s] else []) + (if Tag(u) == t then [u] else [])
  {
    assert [r, s, u][..2] == [r, s];
    BucketOfTwo(r, s, t);
  }

  lemma ThreeBuckets(fwd: RR, rev: RR, orphan: RR)
    requires fwd.A? && rev.PTR? && orphan.A?
    ensures Bucket([fwd, rev, orphan], TypeA) == [fwd, orphan]
    ensures Bucket([fwd, rev, orphan], TypeAAAA) == []
    ensures Bucket([fwd, rev, orphan], TypePTR) == [rev]
  {
    BucketOfThree(fwd, rev, orphan, TypeA);
    BucketOfThree(fwd, rev, orphan, TypeAAAA);
    BucketOfThree(fwd, rev, orphan, TypePTR);
  }

  lemma TwoForwardBuild(fwd: RR, orphan: RR)
    requires fwd.A? && |fwd.addr| == 4 && orphan.A? && |orphan.addr| == 4
    ensures NoOther([fwd, orphan])
    ensures Build([fwd, orphan]) == Ok(Insert(map[fwd.name := map[ReverseKey(fwd.addr).value := fwd]],
      orphan.name, ReverseKey(orphan.addr).value, orphan))
  {
    OneForwardBuilds(fwd);
    assert [fwd, orphan][..1] == [fwd];
    assert [fwd][..0] == [];
  }

  /** The indexes `prepare` builds for the store of `OnlyOrphanReported`. */
  lemma PairAndOrphanBuild(host: string, ip: seq<Byte>, k: string, orphan: RR)
    requires |ip| == 4 && ReverseKey(ip) == Some(k)
    requires orphan.A? && |orphan.addr| == 4
    ensures PrepareAll(Caches(None, None, None), [A(host, ip), PTR(k, host), orphan]) == (Caches(
        Some(Insert(map[host := map[k := A(host, ip)]], orphan.name, ReverseKey(orphan.addr).value, orphan)),
        Some(map[]),
        Some(map[k := map[host := PTR(k, host)]])), None)
  {
    var fwd := A(host, ip);
    var rev := PTR(k, host);
    ReverseKeyZone(ip);
    ThreeBuckets(fwd, rev, orphan);
    TwoForwardBuild(fwd, orphan);
    assert IsReverseName(k);
    assert [rev][..0] == [];
  }

  /** In those indexes only the orphan fails the A check. */
  lemma PairAndOrphanCheckA(host: string, k1: string, fwd: RR, rev: RR, orphan: RR, k2: string)
    requires k1 != k2 && orphan.name != host
    ensures var a := Insert(map[host := map[k1 := fwd]], orphan.name, k2, orphan);
      forall r :: r in Failures(a, PtrOwners(map[k1 := map[host := rev]])) <==> r == orphan
  {
    var a := Insert(map[host := map[k1 := fwd]], orphan.name, k2, orphan);
    var ptr := map[k1 := map[host := rev]];
    assert a == map[host := map[k1 := fwd], orphan.name := map[k2 := orphan]];
    assert KeyMatches(PtrOwners(ptr), host, k1);
    assert a[orphan.name][k2] == orphan;
  }

  /** In those indexes the PTR record finds its A record. */
  lemma PairAndOrphanCheckPTR(host: string, k1: string, fwd: RR, rev: RR, orphan: RR, k2: string)
    requires !HasSuffix(k1, V6Zone) && orphan.name != host
    ensures var a := Insert(map[host := map[k1 := fwd]], orphan.name, k2, orphan);
      Failures(map[k1 := map[host := rev]], ForwardNames(a, map[])) == {}
  {
    var a := Insert(map[host := map[k1 := fwd]], orphan.name, k2, orphan);
    assert ForwardFor(k1, a, map[]) == a;
    assert KeyMatches(ForwardNames(a, map[]), k1, host);
  }
}
