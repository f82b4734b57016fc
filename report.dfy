/**
 * `FormatFailed` of checker/checker.go: the owner names of the failing
 * records, joined with a separator, each name meant to be listed once.
 */
module Report {
  import opened Dns
  import opened Zones

  /** The owner names of the records, in order (`r.Header().Name`). */
  function Names(rs: seq<RR>): (ns: seq<string>)
    ensures |ns| == |rs|
    ensures forall i :: 0 <= i < |rs| ==> ns[i] == rs[i].name
  {
    if rs == [] then [] else Names(rs[..|rs| - 1]) + [rs[|rs| - 1].name]
  }

  /** The elements of `xs` in the order they first occur, without repetitions. */
  function FirstOccurrences(xs: seq<string>): seq<string> {
    if xs == [] then []
    else
      var init := FirstOccurrences(xs[..|xs| - 1]);
      var x := xs[|xs| - 1];
      if x in init then init else init + [x]
  }

  /**
   * The first occurrences hold every element of `xs` and nothing else, none
   * twice, starting with the first element.
   */
  lemma {:induction false} FirstOccurrencesMembers(xs: seq<string>)
    ensures Distinct(FirstOccurrences(xs))
    ensures forall x :: x in FirstOccurrences(xs) <==> x in xs
    ensures xs != [] ==> FirstOccurrences(xs) != [] && FirstOccurrences(xs)[0] == xs[0]
    decreases |xs|
  {
    if xs != [] {
      var init := xs[..|xs| - 1];
      var x := xs[|xs| - 1];
      FirstOccurrencesMembers(init);
      assert xs == init + [x];
      if x !in FirstOccurrences(init) {
        DistinctSnoc(FirstOccurrences(init), x);
      }
    }
  }

  lemma DistinctSnoc(s: seq<string>, x: string)
    requires Distinct(s) && x !in s
    ensures Distinct(s + [x])
  {
  }

  /** One more name: listed at the end when it is new, dropped when it was seen. */
  lemma FirstOccurrencesSnoc(p: seq<string>, x: string)
    ensures FirstOccurrences(p + [x]) == if x in p then FirstOccurrences(p) else FirstOccurrences(p) + [x]
  {
    assert (p + [x])[..|p + [x]| - 1] == p;
    FirstOccurrencesMembers(p);
  }

  /** One step of the `FormatFailed` loop over the names after the first. */
  lemma FormattedStep(head: string, p: seq<string>, x: string, sep: string)
    ensures head + Separated(FirstOccurrences(p + [x]), sep)
      == if x in p then head + Separated(FirstOccurrences(p), sep) else head + Separated(FirstOccurrences(p), sep) + sep + x
  {
    FirstOccurrencesSnoc(p, x);
    SeparatedSnoc(FirstOccurrences(p), x, sep);
  }

  /** One step of the corrected loop. */
  lemma JoinStep(p: seq<string>, x: string, sep: string)
    requires p != []
    ensures Join(FirstOccurrences(p + [x]), sep)
      == if x in p then Join(FirstOccurrences(p), sep) else Join(FirstOccurrences(p), sep) + sep + x
  {
    FirstOccurrencesSnoc(p, x);
    FirstOccurrencesMembers(p);
    JoinSnoc(FirstOccurrences(p), x, sep);
  }

  lemma JoinSnoc(xs: seq<string>, x: string, sep: string)
    requires xs != []
    ensures Join(xs + [x], sep) == Join(xs, sep) + sep + x
  {
    assert (xs + [x])[1..] == xs[1..] + [x];
    SeparatedSnoc(xs[1..], x, sep);
    assert xs[0] + (Separated(xs[1..], sep) + sep + x) == (xs[0] + Separated(xs[1..], sep)) + sep + x;
  }

  lemma SeparatedSnoc(xs: seq<string>, x: string, sep: string)
    ensures Separated(xs + [x], sep) == Separated(xs, sep) + sep + x
  {
    assert (xs + [x])[..|xs + [x]| - 1] == xs;
  }

  /** `sep + xs[0] + sep + xs[1] + ...`: every element preceded by the separator. */
  function Separated(xs: seq<string>, sep: string): string {
    if xs == [] then "" else Separated(xs[..|xs| - 1], sep) + sep + xs[|xs| - 1]
  }

  /** `strings.Join`: the elements with the separator between consecutive ones. */
  function Join(xs: seq<string>, sep: string): string {
    if xs == [] then "" else xs[0] + Separated(xs[1..], sep)
  }

  /**
   * What `FormatFailed` writes for the names `ns`: the first name, then the
   * first occurrences among the remaining names. The first name is never
   * marked as seen, so it is written again if it recurs.
   */
  function Formatted(ns: seq<string>, sep: string): string {
    if ns == [] then "" else ns[0] + Separated(FirstOccurrences(ns[1..]), sep)
  }

  /**
   * `FormatFailed` as written (checker/checker.go:187-203): the first name
   * and then every later name not yet seen among the later names.
   */
  method FormatFailed(failed: seq<RR>, sep: string) returns (s: string)
    ensures s == Formatted(Names(failed), sep)
  {
    if |failed| == 0 {
      return "";
    }
    var ns := Names(failed);
    var seen: set<string> := {};
    s := failed[0].name;
    for i := 1 to |failed|
      invariant s == ns[0] + Separated(FirstOccurrences(ns[1..i]), sep)
      invariant forall x :: x in seen <==> x in ns[1..i]
    {
      var name := failed[i].name;
      ghost var done := ns[1..i];
      assert ns[1..i + 1] == done + [name];
      FormattedStep(ns[0], done, name, sep);
      if name !in seen {
        seen := seen + {name};
        s := s + sep + name;
      }
    }
    assert ns[1..|failed|] == ns[1..];
  }

  /** Putting a name that does not recur in front of a list puts it in front of its first occurrences. */
  lemma {:induction false} FirstOccurrencesCons(x: string, xs: seq<string>)
    requires x !in xs
    ensures FirstOccurrences([x] + xs) == [x] + FirstOccurrences(xs)
    decreases |xs|
  {
    if xs != [] {
      var init := xs[..|xs| - 1];
      var last := xs[|xs| - 1];
      assert ([x] + xs)[..|[x] + xs| - 1] == [x] + init;
      assert x !in init by {
        assert forall y :: y in init ==> y in xs;
      }
      FirstOccurrencesCons(x, init);
      FirstOccurrencesMembers(init);
    }
  }

  /**
   * When the first failing name does not recur, `FormatFailed` lists every
   * failing name exactly once, in the order of first occurrence
   * (checker/checker.go:191-201).
   */
  lemma FormattedOnceWhenFirstNameUnique(ns: seq<string>, sep: string)
    requires ns != [] && ns[0] !in ns[1..]
    ensures Formatted(ns, sep) == Join(FirstOccurrences(ns), sep)
  {
    assert ns == [ns[0]] + ns[1..];
    FirstOccurrencesCons(ns[0], ns[1..]);
    FirstOccurrencesMembers(ns);
    assert (FirstOccurrences(ns))[1..] == FirstOccurrences(ns[1..]);
  }

  /**
   * Two failing records with the same owner name, as when both addresses of
   * a host lack a PTR record: `FormatFailed` writes the name twice, where
   * each name is meant to be written once.
   */
  lemma FormatFailedRepeatsFirstName(r1: RR, r2: RR, sep: string)
    requires r1.name == r2.name
    ensures Formatted(Names([r1, r2]), sep) == r1.name + sep + r1.name
    ensures Join(FirstOccurrences(Names([r1, r2])), sep) == r1.name
    ensures Formatted(Names([r1, r2]), sep) != Join(FirstOccurrences(Names([r1, r2])), sep) <==> |r1.name| + |sep| > 0
  {
    var n := r1.name;
    assert Names([r1, r2]) == [n, n];
    assert [n, n][1..] == [n] && [n][..0] == [] && [n, n][..1] == [n];
    assert FirstOccurrences([n]) == [n];
    assert FirstOccurrences([n, n]) == [n];
    assert Separated([n], sep) == "" + sep + n;
  }

  /**
   * `FormatFailed` as evidently intended: every failing name once, in the
   * order of its first occurrence, separated by `sep`.
   */
  method FormatFailedOnce(failed: seq<RR>, sep: string) returns (s: string)
    ensures s == Join(FirstOccurrences(Names(failed)), sep)
  {
    if |failed| == 0 {
      return "";
    }
    var ns := Names(failed);
    var seen: set<string> := {failed[0].name};
    s := failed[0].name;
    assert ns[..1] == [ns[0]] && [ns[0]][..0] == [];
    for i := 1 to |failed|
      invariant s == Join(FirstOccurrences(ns[..i]), sep)
      invariant forall x :: x in seen <==> x in ns[..i]
    {
      var name := failed[i].name;
      ghost var done := ns[..i];
      assert ns[..i + 1] == done + [name];
      JoinStep(done, name, sep);
      if name !in seen {
        seen := seen + {name};
        s := s + sep + name;
      }
    }
    assert ns[..|failed|] == ns;
  }

  /** The corrected report lists each failing name exactly once, and no other name. */
  lemma FormatFailedOnceListsEachNameOnce(failed: seq<RR>)
    ensures Distinct(FirstOccurrences(Names(failed)))
    ensures forall r :: r in failed ==> r.name in FirstOccurrences(Names(failed))
    ensures forall n :: n in FirstOccurrences(Names(failed)) ==> exists r :: r in failed && r.name == n
  {
    var ns := Names(failed);
    FirstOccurrencesMembers(ns);
    forall r | r in failed
      ensures r.name in FirstOccurrences(ns)
    {
      var i :| 0 <= i < |failed| && failed[i] == r;
      assert ns[i] == r.name;
    }
    forall n | n in FirstOccurrences(ns)
      ensures exists r :: r in failed && r.name == n
    {
      var i :| 0 <= i < |ns| && ns[i] == n;
      assert failed[i] in failed;
    }
  }
}
