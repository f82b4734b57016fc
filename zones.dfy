/**
 * The record store of zones/records.go: every parsed record in insertion
 * order, and the same records grouped into one bucket per type code.
 */
module Zones {
  import opened Dns

  /** The records of `list` whose type code is `t`, in list order. */
  function Bucket(list: seq<RR>, t: RRType): (b: seq<RR>)
    ensures forall i :: 0 <= i < |b| ==> Tag(b[i]) == t
  {
    if list == [] then []
    else
      var last := list[|list| - 1];
      Bucket(list[..|list| - 1], t) + (if Tag(last) == t then [last] else [])
  }

  /** The type codes that occur in `list`. */
  function TagsOf(list: seq<RR>): set<RRType> {
    set r | r in list :: Tag(r)
  }

  /**
   * The store invariant: the keys of `types` are exactly the type codes that
   * occur in `list`, and each bucket is `list` filtered by its type code.
   */
  predicate Partitioned(list: seq<RR>, types: map<RRType, seq<RR>>) {
    && types.Keys == TagsOf(list)
    && forall t :: t in types ==> types[t] == Bucket(list, t)
  }

  /** The bucket for `t`, or the empty sequence when there is none (what `rr.types[t]` reads in Go). */
  function BucketOr(types: map<RRType, seq<RR>>, t: RRType): seq<RR> {
    if t in types then types[t] else []
  }

  /** The buckets after merging `other` into `mine`: per type code, mine followed by other's. */
  function MergeBuckets(mine: map<RRType, seq<RR>>, other: map<RRType, seq<RR>>): (m: map<RRType, seq<RR>>)
    ensures m.Keys == mine.Keys + other.Keys
    ensures forall t :: t in m ==> m[t] == BucketOr(mine, t) + BucketOr(other, t)
  {
    map t | t in mine.Keys + other.Keys :: BucketOr(mine, t) + BucketOr(other, t)
  }

  /** The loop state of `Merge`: the buckets of `other` whose type code is no longer pending are appended. */
  ghost predicate MergedSoFar(types: map<RRType, seq<RR>>, mine: map<RRType, seq<RR>>,
                              other: map<RRType, seq<RR>>, pending: set<RRType>)
  {
    && types.Keys == mine.Keys + (other.Keys - pending)
    && forall u :: u in types ==>
         types[u] == if u in other && u !in pending then BucketOr(mine, u) + other[u] else mine[u]
  }

  lemma MergedStep(types: map<RRType, seq<RR>>, mine: map<RRType, seq<RR>>,
                   other: map<RRType, seq<RR>>, pending: set<RRType>, t: RRType)
    requires MergedSoFar(types, mine, other, pending) && t in pending && pending <= other.Keys
    ensures MergedSoFar(types[t := BucketOr(types, t) + other[t]], mine, other, pending - {t})
  {
    assert BucketOr(types, t) == BucketOr(mine, t);
  }

  lemma MergedAll(types: map<RRType, seq<RR>>, mine: map<RRType, seq<RR>>, other: map<RRType, seq<RR>>)
    requires MergedSoFar(types, mine, other, {})
    ensures types == MergeBuckets(mine, other)
  {
    assert forall t :: t in mine ==> mine[t] + [] == mine[t];
  }

  /** Filtering distributes over concatenation. */
  lemma {:induction false} BucketAppend(l1: seq<RR>, l2: seq<RR>, t: RRType)
    ensures Bucket(l1 + l2, t) == Bucket(l1, t) + Bucket(l2, t)
    decreases |l2|
  {
    if l2 != [] {
      var l2' := l2[..|l2| - 1];
      assert (l1 + l2)[..|l1 + l2| - 1] == l1 + l2';
      BucketAppend(l1, l2', t);
    } else {
      assert l1 + l2 == l1;
    }
  }

  /** The buckets after `rs` are filed one by one into `types`. */
  function FiledBuckets(types: map<RRType, seq<RR>>, rs: seq<RR>): map<RRType, seq<RR>> {
    if rs == [] then types
    else
      var m := FiledBuckets(types, rs[..|rs| - 1]);
      var r := rs[|rs| - 1];
      m[Tag(r) := BucketOr(m, Tag(r)) + [r]]
  }

  /** A bucket holds exactly the records of its type code. */
  lemma {:induction false} InBucket(list: seq<RR>, t: RRType, r: RR)
    ensures r in Bucket(list, t) <==> r in list && Tag(r) == t
    decreases |list|
  {
    if list != [] {
      var init := list[..|list| - 1];
      assert list == init + [list[|list| - 1]];
      InBucket(init, t, r);
    }
  }

  /** A type code that does not occur in the list has an empty bucket. */
  lemma {:induction false} BucketOfAbsentTag(list: seq<RR>, t: RRType)
    requires t !in TagsOf(list)
    ensures Bucket(list, t) == []
    decreases |list|
  {
    if list != [] {
      var init := list[..|list| - 1];
      assert forall r :: r in init ==> r in list;
      BucketOfAbsentTag(init, t);
    }
  }

  /** A type code that occurs in the list has a non-empty bucket. */
  lemma {:induction false} BucketOfPresentTag(list: seq<RR>, t: RRType)
    requires t in TagsOf(list)
    ensures Bucket(list, t) != []
    decreases |list|
  {
    var init := list[..|list| - 1];
    var last := list[|list| - 1];
    if Tag(last) != t {
      var r :| r in list && Tag(r) == t;
      assert list == init + [last];
      assert r in init;
      BucketOfPresentTag(init, t);
    }
  }

  lemma TagsOfSnoc(list: seq<RR>, r: RR)
    ensures TagsOf(list + [r]) == TagsOf(list) + {Tag(r)}
  {
    assert forall x :: x in list + [r] <==> x in list || x == r;
  }

  lemma BucketSnoc(list: seq<RR>, r: RR, t: RRType)
    ensures Bucket(list + [r], t) == Bucket(list, t) + (if Tag(r) == t then [r] else [])
  {
    assert (list + [r])[..|list|] == list;
  }

  /** Adding a record keeps the buckets a partition of the list (zones/records.go:49-55). */
  lemma AddPreservesPartition(list: seq<RR>, types: map<RRType, seq<RR>>, r: RR)
    requires Partitioned(list, types)
    ensures Partitioned(list + [r], types[Tag(r) := BucketOr(types, Tag(r)) + [r]])
  {
    var types' := types[Tag(r) := BucketOr(types, Tag(r)) + [r]];
    TagsOfSnoc(list, r);
    forall t | t in types'
      ensures types'[t] == Bucket(list + [r], t)
    {
      BucketSnoc(list, r, t);
      if t == Tag(r) && t !in types {
        BucketOfAbsentTag(list, t);
      }
    }
  }

  /** Merging two partitioned stores gives a partitioned store (zones/records.go:72-83). */
  lemma MergePreservesPartition(l1: seq<RR>, m1: map<RRType, seq<RR>>, l2: seq<RR>, m2: map<RRType, seq<RR>>)
    requires Partitioned(l1, m1) && Partitioned(l2, m2)
    ensures Partitioned(l1 + l2, MergeBuckets(m1, m2))
  {
    assert TagsOf(l1 + l2) == TagsOf(l1) + TagsOf(l2) by {
      assert forall x :: x in l1 + l2 <==> x in l1 || x in l2;
    }
    forall t | t in MergeBuckets(m1, m2)
      ensures MergeBuckets(m1, m2)[t] == Bucket(l1 + l2, t)
    {
      BucketAppend(l1, l2, t);
      if t !in m1 { BucketOfAbsentTag(l1, t); }
      if t !in m2 { BucketOfAbsentTag(l2, t); }
    }
  }

  /** In a partitioned store every bucket is non-empty and holds only records of its type. */
  lemma PartitionBuckets(list: seq<RR>, types: map<RRType, seq<RR>>, t: RRType)
    requires Partitioned(list, types)
    ensures t in types <==> exists r :: r in list && Tag(r) == t
    ensures t in types ==> types[t] != [] && forall r :: r in types[t] ==> r in list && Tag(r) == t
  {
    if t in types {
      BucketOfPresentTag(list, t);
      forall r | r in types[t]
        ensures r in list && Tag(r) == t
      {
        InBucket(list, t, r);
      }
    }
  }

  /** The sum of the bucket sizes for the type codes `ts`, in order. */
  function SumOfBucketSizes(list: seq<RR>, ts: seq<RRType>): nat {
    if ts == [] then 0 else |Bucket(list, ts[0])| + SumOfBucketSizes(list, ts[1..])
  }

  predicate Distinct<T(==)>(s: seq<T>) {
    forall i, j :: 0 <= i < j < |s| ==> s[i] != s[j]
  }

  /** Appending one record grows exactly the bucket of its type code. */
  lemma {:induction false} SumOfBucketSizesSnoc(list: seq<RR>, r: RR, ts: seq<RRType>)
    requires Distinct(ts)
    ensures SumOfBucketSizes(list + [r], ts) == SumOfBucketSizes(list, ts) + (if Tag(r) in ts then 1 else 0)
    decreases |ts|
  {
    if ts != [] {
      assert (list + [r])[..|list + [r]| - 1] == list;
      assert Distinct(ts[1..]);
      assert Tag(r) in ts <==> Tag(r) == ts[0] || Tag(r) in ts[1..];
      assert Tag(r) == ts[0] ==> Tag(r) !in ts[1..];
      SumOfBucketSizesSnoc(list, r, ts[1..]);
    }
  }

  /**
   * When `ts` lists every type code of the store once, the bucket sizes add
   * up to the number of records (zones/records_test.go:22-27: 25 = 16+3+4+1+1).
   */
  lemma {:induction false} ListLengthIsSumOfBucketSizes(list: seq<RR>, ts: seq<RRType>)
    requires Distinct(ts)
    requires TagsOf(list) <= set t | t in ts
    ensures |list| == SumOfBucketSizes(list, ts)
    decreases |list|
  {
    if list == [] {
      SumOfEmpty(ts);
    } else {
      var init := list[..|list| - 1];
      var last := list[|list| - 1];
      assert list == init + [last];
      assert TagsOf(init) <= TagsOf(list) by {
        assert forall x :: x in init ==> x in list;
      }
      assert Tag(last) in TagsOf(list);
      ListLengthIsSumOfBucketSizes(init, ts);
      SumOfBucketSizesSnoc(init, last, ts);
    }
  }

  lemma {:induction false} SumOfEmpty(ts: seq<RRType>)
    ensures SumOfBucketSizes([], ts) == 0
    decreases |ts|
  {
    if ts != [] { SumOfEmpty(ts[1..]); }
  }

  /** `Records` (zones/records.go:12-15). */
  class Records {
    var list: seq<RR>
    var types: map<RRType, seq<RR>>

    ghost predicate Valid()
      reads this
    {
      Partitioned(list, types)
    }

    /** `new(Records)`: no records and no buckets. */
    constructor ()
      ensures Valid()
      ensures list == [] && types == map[]
    {
      list := [];
      types := map[];
    }

    /** One pass of the parse loop: append the record and file it in its bucket (zones/records.go:49-55). */
    method Add(r: RR)
      modifies this
      ensures list == old(list) + [r]
      ensures types == old(types)[Tag(r) := BucketOr(old(types), Tag(r)) + [r]]
      ensures old(Valid()) ==> Valid()
    {
      ghost var oldList, oldTypes := list, types;
      list := list + [r];
      var t := Tag(r);
      if t in types {
        types := types[t := types[t] + [r]];
      } else {
        assert [] + [r] == [r];
        types := types[t := [r]];
      }
      assert types == oldTypes[t := BucketOr(oldTypes, t) + [r]];
      if Partitioned(oldList, oldTypes) {
        AddPreservesPartition(oldList, oldTypes, r);
      }
    }

    /**
     * `parse` of one zone (zones/records.go:49-55), the zone parser replaced
     * by the records it yields: each is added in turn.
     */
    method Parse(rs: seq<RR>)
      modifies this
      ensures list == old(list) + rs
      ensures types == FiledBuckets(old(types), rs)
      ensures old(Valid()) ==> Valid()
    {
      ghost var oldList, oldTypes := list, types;
      for i := 0 to |rs|
        invariant list == oldList + rs[..i]
        invariant types == FiledBuckets(oldTypes, rs[..i])
        invariant Partitioned(oldList, oldTypes) ==> Valid()
      {
        assert rs[..i + 1][..i] == rs[..i];
        Add(rs[i]);
      }
      assert rs[..|rs|] == rs;
    }

    /** `List`: the records in insertion order; a sequence value, so later changes to the store leave it alone. */
    method List() returns (s: seq<RR>)
      ensures s == list
      ensures Valid() ==> forall t :: t in types ==> Bucket(s, t) == types[t]
    {
      s := list;
    }

    /**
     * `Merge`: the other store's records follow this store's, in the list
     * and in each bucket (zones/records.go:71-84).
     */
    method Merge(other: Records)
      modifies this
      ensures list == old(list) + old(other.list)
      ensures types == MergeBuckets(old(types), old(other.types))
      ensures forall t :: t in old(types) && t !in old(other.types) ==> types[t] == old(types)[t]
      ensures old(Valid()) && old(other.Valid()) ==> Valid()
    {
      ghost var oldList, oldTypes := list, types;
      var otherList, otherTypes := other.list, other.types;
      list := list + otherList;
      var pending := otherTypes.Keys;
      while pending != {}
        invariant pending <= otherTypes.Keys
        invariant list == oldList + otherList
        invariant MergedSoFar(types, oldTypes, otherTypes, pending)
        decreases pending
      {
        var t :| t in pending;
        MergedStep(types, oldTypes, otherTypes, pending, t);
        if t in types {
          types := types[t := types[t] + otherTypes[t]];
        } else {
          assert [] + otherTypes[t] == otherTypes[t];
          types := types[t := otherTypes[t]];
        }
        pending := pending - {t};
      }
      MergedAll(types, oldTypes, otherTypes);
      if Partitioned(oldList, oldTypes) && Partitioned(otherList, otherTypes) {
        MergePreservesPartition(oldList, oldTypes, otherList, otherTypes);
      }
    }

    /** `GetByType`: the bucket for `t`, or nothing when no record has that type (zones/records.go:88-95). */
    method GetByType(t: RRType) returns (s: seq<RR>)
      ensures t in types ==> s == types[t]
      ensures t !in types ==> s == []
      ensures Valid() ==> s == Bucket(list, t)
    {
      if t in types {
        s := types[t];
      } else {
        s := [];
      }
      if Valid() && t !in types {
        BucketOfAbsentTag(list, t);
      }
    }

    /** `Types`: every bucket's type code, each once, in some order (zones/records.go:98-104). */
    method Types() returns (ts: seq<RRType>)
      ensures forall t :: t in ts <==> t in types
      ensures Distinct(ts)
      ensures Valid() ==> |list| == SumOfBucketSizes(list, ts)
    {
      ts := [];
      var pending := types.Keys;
      while pending != {}
        invariant pending <= types.Keys
        invariant forall t :: t in ts <==> t in types && t !in pending
        invariant Distinct(ts)
        decreases pending
      {
        var t :| t in pending;
        ts := ts + [t];
        pending := pending - {t};
      }
      if Valid() {
        ListLengthIsSumOfBucketSizes(list, ts);
      }
    }
  }
}
