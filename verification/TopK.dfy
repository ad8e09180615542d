/**
  The top-k rate aggregation of the function log. Series values are exact reals; a hash map's
  iteration order is a parameter, so that independence from it is a statement.
 */
module TopK {
  import opened Prelude

  datatype Point = Point(ts: int, value: Option<real>)

  type Series = seq<Point>
  type Merge = (Option<real>, Option<real>) -> Option<real>

  // `get_or_insert(0.) += value`: absent values do not count.
  function Add(a: Option<real>, b: Option<real>): Option<real> {
    match (a, b)
    case (_, None) => a
    case (None, Some(_)) => b
    case (Some(x), Some(y)) => Some(x + y)
  }

  function At(s: Series, i: nat): Option<real> {
    if i < |s| then s[i].value else None
  }

  predicate Fits(s: Series, starts: seq<int>) {
    |s| == |starts| && forall i :: 0 <= i < |s| ==> s[i].ts == starts[i]
  }

  // Sum at bucket `i` over the listed names.
  function SumAt(m: map<string, Series>, names: seq<string>, i: nat): Option<real>
    requires forall n :: n in names ==> n in m
  {
    if names == [] then None
    else Add(SumAt(m, names[..|names| - 1], i), At(m[names[|names| - 1]], i))
  }

  function SumSeries(m: map<string, Series>, names: seq<string>, starts: seq<int>): Series
    requires forall n :: n in names ==> n in m
  {
    seq(|starts|, i requires 0 <= i < |starts| => Point(starts[i], SumAt(m, names, i)))
  }

  predicate AllFit(m: map<string, Series>, names: seq<string>, starts: seq<int>)
    requires forall n :: n in names ==> n in m
  {
    forall j :: 0 <= j < |names| ==> Fits(m[names[j]], starts)
  }

  function SumTimeseriesSpec(m: map<string, Series>, names: seq<string>, starts: seq<int>): Result<Series>
    requires forall n :: n in names ==> n in m
  {
    if AllFit(m, names, starts) then Ok(SumSeries(m, names, starts)) else Err
  }

  /** `sum_timeseries` over the series of the listed names, in place, bucket by bucket. */
  method SumTimeseries(m: map<string, Series>, names: seq<string>, starts: seq<int>) returns (r: Result<Series>)
    requires forall n :: n in names ==> n in m
    ensures r == SumTimeseriesSpec(m, names, starts)
  {
    var result: Series := seq(|starts|, i requires 0 <= i < |starts| => Point(starts[i], None));
    var j := 0;
    while j < |names|
      invariant 0 <= j <= |names|
      invariant AllFit(m, names[..j], starts)
      invariant result == SumSeries(m, names[..j], starts)
    {
      var series := m[names[j]];
      if |series| != |result| {
        return Err;
      }
      var i := 0;
      ghost var before := result;
      while i < |series|
        invariant 0 <= i <= |series| == |result| == |starts| == |before|
        invariant forall h :: 0 <= h < i ==> series[h].ts == starts[h]
        invariant forall h :: 0 <= h < i ==> result[h] == Point(starts[h], Add(before[h].value, series[h].value))
        invariant forall h :: i <= h < |result| ==> result[h] == before[h]
      {
        if series[i].ts != result[i].ts {
          return Err;
        }
        if series[i].value.Some? {
          var sum := if result[i].value.Some? then result[i].value.value else 0.0;
          result := result[i := Point(result[i].ts, Some(sum + series[i].value.value))];
        }
        i := i + 1;
      }
      assert names[..j + 1][..j] == names[..j];
      assert names[..j + 1][j] == names[j];
      j := j + 1;
    }
    assert names[..j] == names;
    r := Ok(result);
  }

  // ---------------------------------------------------------------- sums do not depend on order

  lemma AddLaws(a: Option<real>, b: Option<real>, c: Option<real>)
    ensures Add(a, b) == Add(b, a) && Add(Add(a, b), c) == Add(a, Add(b, c))
  {
  }

  lemma {:induction false} SumAtConcat(m: map<string, Series>, a: seq<string>, b: seq<string>, i: nat)
    requires forall n :: n in a + b ==> n in m
    requires (forall n :: n in a ==> n in m) && (forall n :: n in b ==> n in m)
    ensures SumAt(m, a + b, i) == Add(SumAt(m, a, i), SumAt(m, b, i))
    decreases |b|
  {
    if b == [] {
      assert a + b == a;
    } else {
      var k := |b| - 1;
      assert (a + b)[..|a| + k] == a + b[..k];
      SumAtConcat(m, a, b[..k], i);
      AddLaws(SumAt(m, a, i), SumAt(m, b[..k], i), At(m[b[k]], i));
    }
  }

  lemma Cancel(a: multiset<string>, b: multiset<string>, x: string)
    requires a + multiset{x} == b + multiset{x}
    ensures a == b
  {
    assert a == a + multiset{x} - multiset{x};
    assert b == b + multiset{x} - multiset{x};
  }

  lemma Pluck(p: seq<string>, q: seq<string>) returns (j: nat)
    requires p != [] && multiset(p) == multiset(q)
    ensures j < |q| && q[j] == p[|p| - 1]
    ensures multiset(p[..|p| - 1]) == multiset(q[..j] + q[j + 1..])
  {
    var k, x := |p| - 1, p[|p| - 1];
    assert p == p[..k] + [x];
    assert x in multiset(q);
    j :| 0 <= j < |q| && q[j] == x;
    assert q == q[..j] + [x] + q[j + 1..];
    Cancel(multiset(p[..k]), multiset(q[..j] + q[j + 1..]), x);
  }

  lemma SumAtMove(m: map<string, Series>, a: seq<string>, x: string, b: seq<string>, i: nat)
    requires x in m && (forall n :: n in a ==> n in m) && (forall n :: n in b ==> n in m)
    ensures SumAt(m, a + [x] + b, i) == SumAt(m, a + b + [x], i)
  {
    SumAtConcat(m, a + [x], b, i);
    SumAtConcat(m, a, [x], i);
    SumAtConcat(m, a + b, [x], i);
    SumAtConcat(m, a, b, i);
    AddLaws(SumAt(m, a, i), SumAt(m, [x], i), SumAt(m, b, i));
    AddLaws(SumAt(m, a, i), SumAt(m, b, i), SumAt(m, [x], i));
    AddLaws(SumAt(m, [x], i), SumAt(m, b, i), None);
  }

  /** Under exact arithmetic a sum depends only on which names are summed. */
  lemma {:induction false} SumAtPermutes(m: map<string, Series>, p: seq<string>, q: seq<string>, i: nat)
    requires multiset(p) == multiset(q)
    requires (forall n :: n in p ==> n in m) && (forall n :: n in q ==> n in m)
    ensures SumAt(m, p, i) == SumAt(m, q, i)
    decreases |p|
  {
    if p == [] {
      assert |multiset(q)| == 0;
    } else {
      var k, x := |p| - 1, p[|p| - 1];
      var j := Pluck(p, q);
      var a, b := q[..j], q[j + 1..];
      assert q == a + [x] + b;
      SumAtPermutes(m, p[..k], a + b, i);
      SumAtMove(m, a, x, b, i);
      assert (a + b + [x])[..|a + b|] == a + b;
    }
  }

  lemma SumSpecPermutes(m: map<string, Series>, p: seq<string>, q: seq<string>, starts: seq<int>)
    requires multiset(p) == multiset(q)
    requires (forall n :: n in p ==> n in m) && (forall n :: n in q ==> n in m)
    ensures SumTimeseriesSpec(m, p, starts) == SumTimeseriesSpec(m, q, starts)
  {
    SameNames(p, q);
    assert AllFit(m, p, starts) <==> AllFit(m, q, starts);
    forall i | 0 <= i < |starts| ensures SumAt(m, p, i) == SumAt(m, q, i) {
      SumAtPermutes(m, p, q, i);
    }
    assert SumSeries(m, p, starts) == SumSeries(m, q, starts);
  }

  lemma SameNames(p: seq<string>, q: seq<string>)
    requires multiset(p) == multiset(q)
    ensures forall n :: n in p <==> n in q
    ensures forall j :: 0 <= j < |p| ==> p[j] in q
    ensures forall j :: 0 <= j < |q| ==> q[j] in p
  {
    forall n ensures n in p <==> n in q {
      assert n in p <==> n in multiset(p);
      assert n in q <==> n in multiset(q);
    }
  }

  // ---------------------------------------------------------------- choosing the top k

  predicate NameLe(a: string, b: string) {
    a == [] || (b != [] && (a[0] < b[0] || (a[0] == b[0] && NameLe(a[1..], b[1..]))))
  }

  lemma {:induction false} NameLeTotal(a: string, b: string)
    ensures NameLe(a, b) || NameLe(b, a)
    ensures NameLe(a, b) && NameLe(b, a) ==> a == b
  {
    if a != [] && b != [] && a[0] == b[0] {
      NameLeTotal(a[1..], b[1..]);
    }
  }

  lemma {:induction false} NameLeTrans(a: string, b: string, c: string)
    requires NameLe(a, b) && NameLe(b, c)
    ensures NameLe(a, c)
  {
    if a != [] && a[0] == b[0] && b[0] == c[0] {
      NameLeTrans(a[1..], b[1..], c[1..]);
    }
  }

  // The comparator: by rate, then by name.
  predicate Ranks(o: map<string, real>, ascending: bool, a: string, b: string)
    requires a in o && b in o
  {
    if o[a] == o[b] then NameLe(a, b)
    else if ascending then o[a] < o[b] else o[a] > o[b]
  }

  predicate Within(o: map<string, real>, names: seq<string>) {
    forall i :: 0 <= i < |names| ==> names[i] in o
  }

  ghost predicate Ranked(o: map<string, real>, ascending: bool, names: seq<string>) {
    Within(o, names) && forall i, j :: 0 <= i < j < |names| ==> Ranks(o, ascending, names[i], names[j])
  }

  function InsertName(o: map<string, real>, ascending: bool, names: seq<string>, x: string): seq<string>
    requires Within(o, names) && x in o
  {
    if names == [] || Ranks(o, ascending, x, names[0]) then [x] + names
    else [names[0]] + InsertName(o, ascending, names[1..], x)
  }

  // What `sort_unstable_by` produces; by `RankedUnique` any correct sort produces the same.
  function SortNames(o: map<string, real>, ascending: bool, names: seq<string>): (r: seq<string>)
    requires Within(o, names)
    ensures Within(o, r) && multiset(r) == multiset(names) && |r| == |names|
  {
    if names == [] then []
    else
      var rest := SortNames(o, ascending, names[1..]);
      InsertKeepsNames(o, ascending, rest, names[0]);
      assert names == [names[0]] + names[1..];
      InsertName(o, ascending, rest, names[0])
  }

  function TopNames(o: map<string, real>, ascending: bool, names: seq<string>, k: nat): seq<string>
    requires Within(o, names)
  {
    var sorted := SortNames(o, ascending, names);
    if k < |sorted| then sorted[..k] else sorted
  }

  lemma {:induction false} InsertKeepsNames(o: map<string, real>, ascending: bool, names: seq<string>, x: string)
    requires Within(o, names) && x in o
    ensures var r := InsertName(o, ascending, names, x);
            multiset(r) == multiset(names) + multiset{x} && |r| == |names| + 1 && Within(o, r)
  {
    if names != [] && !Ranks(o, ascending, x, names[0]) {
      InsertKeepsNames(o, ascending, names[1..], x);
      assert names == [names[0]] + names[1..];
    }
  }

  lemma RanksTrans(o: map<string, real>, ascending: bool, a: string, b: string, c: string)
    requires a in o && b in o && c in o && Ranks(o, ascending, a, b) && Ranks(o, ascending, b, c)
    ensures Ranks(o, ascending, a, c)
  {
    if o[a] == o[b] == o[c] {
      NameLeTrans(a, b, c);
    }
  }

  lemma RanksTotal(o: map<string, real>, ascending: bool, a: string, b: string)
    requires a in o && b in o
    ensures Ranks(o, ascending, a, b) || Ranks(o, ascending, b, a)
    ensures Ranks(o, ascending, a, b) && Ranks(o, ascending, b, a) ==> a == b
  {
    NameLeTotal(a, b);
  }

  lemma {:induction false} InsertRanked(o: map<string, real>, ascending: bool, names: seq<string>, x: string)
    requires Ranked(o, ascending, names) && x in o
    ensures Ranked(o, ascending, InsertName(o, ascending, names, x))
  {
    InsertKeepsNames(o, ascending, names, x);
    if names == [] {
    } else if Ranks(o, ascending, x, names[0]) {
      forall j | 0 <= j < |names| ensures Ranks(o, ascending, x, names[j]) {
        if j > 0 {
          RanksTrans(o, ascending, x, names[0], names[j]);
        }
      }
    } else {
      var tail := InsertName(o, ascending, names[1..], x);
      InsertRanked(o, ascending, names[1..], x);
      InsertKeepsNames(o, ascending, names[1..], x);
      RanksTotal(o, ascending, x, names[0]);
      forall j | 0 <= j < |tail| ensures Ranks(o, ascending, names[0], tail[j]) {
        assert tail[j] in multiset(tail);
        assert tail[j] == x || tail[j] in multiset(names[1..]);
        if tail[j] != x {
          var h :| 0 <= h < |names[1..]| && names[1..][h] == tail[j];
          assert names[h + 1] == tail[j];
        }
      }
    }
  }

  lemma {:induction false} SortIsRanked(o: map<string, real>, ascending: bool, names: seq<string>)
    requires Within(o, names)
    ensures Ranked(o, ascending, SortNames(o, ascending, names))
  {
    if names != [] {
      SortIsRanked(o, ascending, names[1..]);
      InsertRanked(o, ascending, SortNames(o, ascending, names[1..]), names[0]);
    }
  }

  lemma RankedHeadsAgree(o: map<string, real>, ascending: bool, p: seq<string>, q: seq<string>)
    requires Ranked(o, ascending, p) && Ranked(o, ascending, q) && multiset(p) == multiset(q)
    requires p != [] && q != []
    ensures p[0] == q[0]
  {
    SameNames(p, q);
    var i :| 0 <= i < |q| && q[i] == p[0];
    var j :| 0 <= j < |p| && p[j] == q[0];
    if i > 0 && j > 0 {
      assert Ranks(o, ascending, p[0], p[j]) && Ranks(o, ascending, q[0], q[i]);
      RanksTotal(o, ascending, p[0], q[0]);
    }
  }

  /** There is one ranking of a set of names, so the sort's instability cannot show. */
  lemma {:induction false} RankedUnique(o: map<string, real>, ascending: bool, p: seq<string>, q: seq<string>)
    requires Ranked(o, ascending, p) && Ranked(o, ascending, q) && multiset(p) == multiset(q)
    ensures p == q
    decreases |p|
  {
    assert |p| == |multiset(p)| == |multiset(q)| == |q|;
    if p != [] {
      RankedHeadsAgree(o, ascending, p, q);
      assert p == [p[0]] + p[1..] && q == [p[0]] + q[1..];
      assert multiset(p) == multiset{p[0]} + multiset(p[1..]);
      assert multiset(q) == multiset{p[0]} + multiset(q[1..]);
      assert multiset(p[1..]) + multiset{p[0]} == multiset(p) == multiset(q[1..]) + multiset{p[0]};
      Cancel(multiset(p[1..]), multiset(q[1..]), p[0]);
      RankedUnique(o, ascending, p[1..], q[1..]);
    }
  }

  /** The chosen names do not depend on the hash map's order, and outrank every name left out. */
  lemma TopNamesAreTheTop(o: map<string, real>, ascending: bool, p: seq<string>, q: seq<string>, k: nat)
    requires Within(o, p) && Within(o, q) && multiset(p) == multiset(q)
    ensures TopNames(o, ascending, p, k) == TopNames(o, ascending, q, k)
    ensures |TopNames(o, ascending, p, k)| == if k < |p| then k else |p|
    ensures var sorted, top := SortNames(o, ascending, p), TopNames(o, ascending, p, k);
            && top <= sorted && multiset(sorted) == multiset(p)
            && forall i, j :: 0 <= i < |top| <= j < |sorted| ==> Ranks(o, ascending, sorted[i], sorted[j])
  {
    SortIsRanked(o, ascending, p);
    SortIsRanked(o, ascending, q);
    RankedUnique(o, ascending, SortNames(o, ascending, p), SortNames(o, ascending, q));
  }

  // The order of Rust strings: the first differing character decides, or else the shorter is first.
  ghost predicate NameBefore(a: string, b: string) {
    a <= b || exists i: nat :: DiffersAt(a, b, i)
  }

  ghost predicate DiffersAt(a: string, b: string, i: nat) {
    i < |a| && i < |b| && a[..i] == b[..i] && a[i] < b[i]
  }

  lemma DiffersShift(x: char, a: string, b: string, i: nat)
    ensures DiffersAt([x] + a, [x] + b, i + 1) <==> DiffersAt(a, b, i)
  {
    if i < |a| && i < |b| {
      assert ([x] + a)[..i + 1] == [x] + a[..i] && ([x] + b)[..i + 1] == [x] + b[..i];
      assert ([x] + a)[..i + 1][1..] == a[..i] && ([x] + b)[..i + 1][1..] == b[..i];
    }
  }

  lemma BeforeCons(x: char, a: string, b: string)
    ensures NameBefore([x] + a, [x] + b) <==> NameBefore(a, b)
  {
    assert ([x] + a)[1..] == a && ([x] + b)[1..] == b;
    assert [x] + a <= [x] + b <==> a <= b;
    if i: nat :| DiffersAt(a, b, i) {
      DiffersShift(x, a, b, i);
    }
    if j: nat :| DiffersAt([x] + a, [x] + b, j) {
      if j > 0 {
        DiffersShift(x, a, b, j - 1);
      }
    }
  }

  lemma BeforeHeads(a: string, b: string)
    requires a != [] && b != [] && a[0] != b[0]
    ensures NameBefore(a, b) <==> a[0] < b[0]
  {
    if a[0] < b[0] {
      assert DiffersAt(a, b, 0);
    }
    forall i: nat | DiffersAt(a, b, i) ensures a[0] < b[0] {
      SamePrefixHead(a, b, i);
    }
  }

  lemma {:induction false} NameLeIff(a: string, b: string)
    ensures NameLe(a, b) <==> NameBefore(a, b)
  {
    if a != [] && b != [] {
      if a[0] == b[0] {
        NameLeIff(a[1..], b[1..]);
        BeforeCons(a[0], a[1..], b[1..]);
        assert a == [a[0]] + a[1..] && b == [a[0]] + b[1..];
      } else {
        BeforeHeads(a, b);
      }
    }
  }

  lemma SamePrefixHead(a: string, b: string, i: nat)
    requires i <= |a| && i <= |b| && a != [] && b != []
    ensures i > 0 && a[..i] == b[..i] ==> a[0] == b[0]
  {
    if i > 0 {
      assert a[..i][0] == a[0] && b[..i][0] == b[0];
    }
  }

  // Rates in the direction asked for, and equal rates by name.
  ghost predicate InRankOrder(o: map<string, real>, ascending: bool, a: string, b: string)
    requires a in o && b in o
  {
    && (ascending ==> o[a] <= o[b])
    && (!ascending ==> o[a] >= o[b])
    && (o[a] == o[b] ==> NameBefore(a, b))
  }

  lemma RanksInOrder(o: map<string, real>, ascending: bool, a: string, b: string)
    requires a in o && b in o && Ranks(o, ascending, a, b)
    ensures InRankOrder(o, ascending, a, b)
  {
    NameLeIff(a, b);
  }

  /**
    The chosen names have the lowest rates when ascending and the highest otherwise, against every
    name left out, and are listed in that order; equal rates are decided by the smaller name.
   */
  lemma ChosenRates(o: map<string, real>, ascending: bool, p: seq<string>, k: nat)
    requires Within(o, p)
    ensures var top := TopNames(o, ascending, p, k);
            && (forall i :: 0 <= i < |top| ==> top[i] in p && top[i] in o)
            && (forall i, j :: 0 <= i < j < |top| ==> InRankOrder(o, ascending, top[i], top[j]))
            && (forall i, n :: 0 <= i < |top| && n in p && n !in top ==> InRankOrder(o, ascending, top[i], n))
  {
    var sorted, top := SortNames(o, ascending, p), TopNames(o, ascending, p, k);
    SortIsRanked(o, ascending, p);
    SameNames(sorted, p);
    assert forall h :: 0 <= h < |top| ==> sorted[h] == top[h];
    forall i, j | 0 <= i < j < |top| ensures InRankOrder(o, ascending, top[i], top[j]) {
      RanksInOrder(o, ascending, sorted[i], sorted[j]);
    }
    forall i, n | 0 <= i < |top| && n in p && n !in top ensures InRankOrder(o, ascending, top[i], n) {
      var j :| 0 <= j < |sorted| && sorted[j] == n;
      RanksInOrder(o, ascending, sorted[i], sorted[j]);
    }
  }

  // ---------------------------------------------------------------- the aggregation

  // `filter_map(value).sum1()`: absent when no point has a value.
  function Overall(s: Series): Option<real> {
    if s == [] then None else Add(Overall(s[..|s| - 1]), s[|s| - 1].value)
  }

  /** The overall value of a series is the sum of its parts, wherever it is cut. */
  lemma {:induction false} OverallConcat(a: Series, b: Series)
    ensures Overall(a + b) == Add(Overall(a), Overall(b))
    ensures |a| == 1 ==> Overall(a) == a[0].value
    decreases |b|
  {
    if |a| == 1 {
      assert a[..0] == [];
    }
    if b == [] {
      assert a + b == a;
    } else {
      var k := |b| - 1;
      OverallConcat(a, b[..k]);
      assert (a + b)[..|a| + k] == a + b[..k];
      AddLaws(Overall(a), Overall(b[..k]), b[k].value);
    }
  }

  function Ratio(ts1: map<string, Series>, ts2: map<string, Series>, merge: Merge, n: string): Option<real>
    requires n in ts1
  {
    merge(Overall(ts1[n]), if n in ts2 then Overall(ts2[n]) else None)
  }

  function Ratios(ts1: map<string, Series>, ts2: map<string, Series>, merge: Merge): map<string, real> {
    map n | n in ts1 && Ratio(ts1, ts2, merge, n).Some? :: Ratio(ts1, ts2, merge, n).value
  }

  function MergeSeries(a: Series, b: Series, merge: Merge): Result<Series> {
    if |a| != |b| || exists i :: 0 <= i < |a| && a[i].ts != b[i].ts then Err
    else Ok(seq(|a|, i requires 0 <= i < |a| && |a| == |b| => Point(a[i].ts, merge(a[i].value, b[i].value))))
  }

  function Partner(ts2: map<string, Series>, n: string, s: Series): Series {
    if n in ts2 then ts2[n] else seq(|s|, i requires 0 <= i < |s| => Point(s[i].ts, None))
  }

  function Named(ts1: map<string, Series>, ts2: map<string, Series>, top: seq<string>, merge: Merge)
    : (r: Result<seq<(string, Series)>>)
    requires forall n :: n in top ==> n in ts1
    ensures r.Ok? ==> |r.value| == |top| && forall i :: 0 <= i < |top| ==> r.value[i].0 == top[i]
    ensures r.Ok? ==> forall i :: 0 <= i < |top| ==>
                        MergeSeries(ts1[top[i]], Partner(ts2, top[i], ts1[top[i]]), merge) == Ok(r.value[i].1)
  {
    if top == [] then Ok([])
    else
      var last := top[|top| - 1];
      var before := Named(ts1, ts2, top[..|top| - 1], merge);
      var merged := MergeSeries(ts1[last], Partner(ts2, last, ts1[last]), merge);
      if before.Ok? && merged.Ok? then Ok(before.value + [(last, merged.value)]) else Err
  }

  function Rest(ts1: map<string, Series>, ts2: map<string, Series>, rest1: seq<string>, rest2: seq<string>,
                starts: seq<int>, merge: Merge): Result<Series>
    requires (forall n :: n in rest1 ==> n in ts1) && (forall n :: n in rest2 ==> n in ts2)
  {
    var sum1, sum2 := SumTimeseriesSpec(ts1, rest1, starts), SumTimeseriesSpec(ts2, rest2, starts);
    if sum1.Ok? && sum2.Ok? then MergeSeries(sum1.value, sum2.value, merge) else Err
  }

  function Aggregate(ts1: map<string, Series>, ts2: map<string, Series>, top: seq<string>,
                     rest1: seq<string>, rest2: seq<string>, starts: seq<int>, merge: Merge)
    : Result<seq<(string, Series)>>
    requires forall n :: n in top ==> n in ts1
    requires (forall n :: n in rest1 ==> n in ts1) && (forall n :: n in rest2 ==> n in ts2)
  {
    var named := Named(ts1, ts2, top, merge);
    if named.Err? || (rest1 == [] && rest2 == []) then named
    else
      var rest := Rest(ts1, ts2, rest1, rest2, starts, merge);
      if rest.Ok? then Ok(named.value + [("_rest", rest.value)]) else Err
  }

  // `names` is one iteration over the keys `s`: each of them once, in some order.
  ghost predicate Lists(names: seq<string>, s: set<string>) {
    multiset(names) == multiset(s)
  }

  function Keep(names: seq<string>, s: set<string>): seq<string> {
    if names == [] then []
    else
      var before, last := Keep(names[..|names| - 1], s), names[|names| - 1];
      if last in s then before + [last] else before
  }

  lemma {:induction false} KeepCounts(names: seq<string>, s: set<string>, x: string)
    ensures multiset(Keep(names, s))[x] == if x in s then multiset(names)[x] else 0
  {
    if names != [] {
      var k := |names| - 1;
      KeepCounts(names[..k], s, x);
      assert names == names[..k] + [names[k]];
    }
  }

  lemma KeepLists(names: seq<string>, all: set<string>, s: set<string>)
    requires Lists(names, all)
    ensures Lists(Keep(names, s), all * s)
    ensures forall n :: n in Keep(names, s) <==> n in all && n in s
  {
    forall x ensures multiset(Keep(names, s))[x] == multiset(all * s)[x] {
      KeepCounts(names, s, x);
      assert multiset(names)[x] == multiset(all)[x];
    }
    assert multiset(Keep(names, s)) == multiset(all * s);
    ListsMembers(Keep(names, s), all * s);
  }

  lemma ListsMembers(names: seq<string>, s: set<string>)
    requires Lists(names, s)
    ensures forall n :: n in names <==> n in s
  {
    forall n ensures n in names <==> n in s {
      assert n in names <==> n in multiset(names);
      assert n in s <==> n in multiset(s);
    }
  }

  ghost function Names(top: seq<string>): set<string> {
    set n | n in top
  }

  /** Named plus rest is the total, bucket by bucket: every series is counted exactly once. */
  lemma PartitionSums(m: map<string, Series>, all: seq<string>, named: seq<string>, rest: seq<string>, i: nat)
    requires Lists(all, m.Keys) && Lists(named + rest, m.Keys)
    requires (forall n :: n in all ==> n in m) && (forall n :: n in named ==> n in m) && (forall n :: n in rest ==> n in m)
    ensures Add(SumAt(m, named, i), SumAt(m, rest, i)) == SumAt(m, all, i)
  {
    SumAtConcat(m, named, rest, i);
    SumAtPermutes(m, all, named + rest, i);
  }

  lemma PrefixLists(names: seq<string>, s: set<string>, k: nat)
    requires Lists(names, s) && k <= |names|
    ensures Lists(names[..k], Names(names[..k]))
    ensures forall n :: n in names[..k] ==> n in s
  {
    ListsMembers(names, s);
    var p := names[..k];
    assert names == p + names[k..];
    forall x ensures multiset(p)[x] == multiset(Names(p))[x] {
      assert multiset(names)[x] == multiset(s)[x];
      assert x in p <==> x in multiset(p);
    }
    assert multiset(p) == multiset(Names(p));
  }

  lemma TopNamesList(o: map<string, real>, ascending: bool, names: seq<string>, k: nat, s: set<string>)
    requires Within(o, names) && Lists(names, s)
    ensures var top := TopNames(o, ascending, names, k);
            Lists(top, Names(top)) && forall n :: n in top ==> n in s
  {
    var sorted := SortNames(o, ascending, names);
    PrefixLists(sorted, s, if k < |sorted| then k else |sorted|);
    assert sorted[..|sorted|] == sorted;
  }

  // The names chosen from one iteration `all` over the keys of `ts1`.
  function Top(ts1: map<string, Series>, ts2: map<string, Series>, all: seq<string>,
               k: nat, ascending: bool, merge: Merge): (top: seq<string>)
    requires Lists(all, ts1.Keys)
    ensures Lists(top, Names(top)) && forall n :: n in top ==> n in ts1
  {
    var o := Ratios(ts1, ts2, merge);
    KeepLists(all, ts1.Keys, o.Keys);
    TopNamesList(o, ascending, Keep(all, o.Keys), k, ts1.Keys * o.Keys);
    TopNames(o, ascending, Keep(all, o.Keys), k)
  }

  // `top_k_for_rate`, for iteration orders `all1` and `all2` of the two hash maps.
  function TopKForRateSpec(ts1: map<string, Series>, ts2: map<string, Series>, all1: seq<string>, all2: seq<string>,
                           k: nat, ascending: bool, starts: seq<int>, merge: Merge): Result<seq<(string, Series)>>
    requires Lists(all1, ts1.Keys) && Lists(all2, ts2.Keys)
  {
    var top := Top(ts1, ts2, all1, k, ascending, merge);
    var chosen := set n | n in top;
    KeepLists(all1, ts1.Keys, ts1.Keys - chosen);
    KeepLists(all2, ts2.Keys, ts2.Keys - chosen);
    Aggregate(ts1, ts2, top, Keep(all1, ts1.Keys - chosen), Keep(all2, ts2.Keys - chosen), starts, merge)
  }

  lemma TopIsOrderFree(ts1: map<string, Series>, ts2: map<string, Series>, p: seq<string>, q: seq<string>,
                       k: nat, ascending: bool, merge: Merge)
    requires Lists(p, ts1.Keys) && Lists(q, ts1.Keys)
    ensures Top(ts1, ts2, p, k, ascending, merge) == Top(ts1, ts2, q, k, ascending, merge)
  {
    var o := Ratios(ts1, ts2, merge);
    KeepLists(p, ts1.Keys, o.Keys);
    KeepLists(q, ts1.Keys, o.Keys);
    TopNamesAreTheTop(o, ascending, Keep(p, o.Keys), Keep(q, o.Keys), k);
  }

  lemma RestIsOrderFree(ts1: map<string, Series>, ts2: map<string, Series>, top: seq<string>,
                        p1: seq<string>, p2: seq<string>, q1: seq<string>, q2: seq<string>,
                        starts: seq<int>, merge: Merge)
    requires forall n :: n in top ==> n in ts1
    requires (forall n :: n in p1 ==> n in ts1) && (forall n :: n in p2 ==> n in ts2)
    requires (forall n :: n in q1 ==> n in ts1) && (forall n :: n in q2 ==> n in ts2)
    requires multiset(p1) == multiset(q1) && multiset(p2) == multiset(q2)
    ensures Aggregate(ts1, ts2, top, p1, p2, starts, merge) == Aggregate(ts1, ts2, top, q1, q2, starts, merge)
  {
    SumSpecPermutes(ts1, p1, q1, starts);
    SumSpecPermutes(ts2, p2, q2, starts);
    assert |p1| == |multiset(p1)| == |q1| && |p2| == |multiset(p2)| == |q2|;
  }

  /** The whole result is the same for every iteration order of the two hash maps. */
  lemma ResultIsOrderFree(ts1: map<string, Series>, ts2: map<string, Series>,
                          p1: seq<string>, p2: seq<string>, q1: seq<string>, q2: seq<string>,
                          k: nat, ascending: bool, starts: seq<int>, merge: Merge)
    requires Lists(p1, ts1.Keys) && Lists(p2, ts2.Keys) && Lists(q1, ts1.Keys) && Lists(q2, ts2.Keys)
    ensures TopKForRateSpec(ts1, ts2, p1, p2, k, ascending, starts, merge)
         == TopKForRateSpec(ts1, ts2, q1, q2, k, ascending, starts, merge)
  {
    TopIsOrderFree(ts1, ts2, p1, q1, k, ascending, merge);
    var top := Top(ts1, ts2, p1, k, ascending, merge);
    var left1, left2 := ts1.Keys - Names(top), ts2.Keys - Names(top);
    KeepLists(p1, ts1.Keys, left1);
    KeepLists(q1, ts1.Keys, left1);
    KeepLists(p2, ts2.Keys, left2);
    KeepLists(q2, ts2.Keys, left2);
    RestIsOrderFree(ts1, ts2, top, Keep(p1, left1), Keep(p2, left2), Keep(q1, left1), Keep(q2, left2), starts, merge);
  }

  lemma {:induction false} KeepAll(names: seq<string>, s: set<string>)
    requires forall n :: n in names ==> n in s
    ensures Keep(names, s) == names
  {
    if names != [] {
      KeepAll(names[..|names| - 1], s);
    }
  }

  /** For one input: the chosen series plus the series left over are the total in every bucket. */
  lemma SideSums(m: map<string, Series>, all: seq<string>, top: seq<string>, i: nat)
    requires Lists(all, m.Keys) && Lists(top, Names(top))
    ensures var named, rest := Keep(top, m.Keys), Keep(all, m.Keys - Names(top));
            && (forall n :: n in all ==> n in m)
            && (forall n :: n in named ==> n in m)
            && (forall n :: n in rest ==> n in m && n !in top)
            && Add(SumAt(m, named, i), SumAt(m, rest, i)) == SumAt(m, all, i)
  {
    var chosen := Names(top);
    ListsMembers(all, m.Keys);
    KeepLists(all, m.Keys, m.Keys - chosen);
    KeepLists(top, chosen, m.Keys);
    JoinLists(Keep(top, m.Keys), chosen, Keep(all, m.Keys - chosen), m.Keys);
    PartitionSums(m, all, Keep(top, m.Keys), Keep(all, m.Keys - chosen), i);
  }

  /**
    The series summed into `_rest` and those reported by name make up each input exactly:
    in every bucket, named plus rest is the total, for both inputs.
   */
  lemma NothingLostNothingTwice(ts1: map<string, Series>, ts2: map<string, Series>, all1: seq<string>, all2: seq<string>,
                                k: nat, ascending: bool, merge: Merge, i: nat)
    requires Lists(all1, ts1.Keys) && Lists(all2, ts2.Keys)
    requires (forall n :: n in all1 ==> n in ts1) && (forall n :: n in all2 ==> n in ts2)
    ensures var top := Top(ts1, ts2, all1, k, ascending, merge);
            var rest1, rest2 := Keep(all1, ts1.Keys - Names(top)), Keep(all2, ts2.Keys - Names(top));
            var named2 := Keep(top, ts2.Keys);
            && (forall n :: n in rest1 ==> n in ts1 && n !in top)
            && (forall n :: n in rest2 ==> n in ts2 && n !in top)
            && (forall n :: n in named2 ==> n in ts2)
            && Add(SumAt(ts1, top, i), SumAt(ts1, rest1, i)) == SumAt(ts1, all1, i)
            && Add(SumAt(ts2, named2, i), SumAt(ts2, rest2, i)) == SumAt(ts2, all2, i)
  {
    var top := Top(ts1, ts2, all1, k, ascending, merge);
    KeepAll(top, ts1.Keys);
    SideSums(ts1, all1, top, i);
    SideSums(ts2, all2, top, i);
  }

  lemma JoinLists(named: seq<string>, chosen: set<string>, rest: seq<string>, keys: set<string>)
    requires Lists(named, chosen * keys) && Lists(rest, keys * (keys - chosen))
    ensures Lists(named + rest, keys)
  {
    forall x ensures multiset(keys)[x] == multiset(chosen * keys)[x] + multiset(keys * (keys - chosen))[x] {
    }
    assert multiset(keys) == multiset(chosen * keys) + multiset(keys * (keys - chosen));
  }

  /** What a successful aggregation reports, entry by entry. */
  lemma ReportedEntries(ts1: map<string, Series>, ts2: map<string, Series>, top: seq<string>,
                        rest1: seq<string>, rest2: seq<string>, starts: seq<int>, merge: Merge)
    requires forall n :: n in top ==> n in ts1
    requires (forall n :: n in rest1 ==> n in ts1) && (forall n :: n in rest2 ==> n in ts2)
    requires Aggregate(ts1, ts2, top, rest1, rest2, starts, merge).Ok?
    ensures var out := Aggregate(ts1, ts2, top, rest1, rest2, starts, merge).value;
            && |out| == |top| + (if rest1 == [] && rest2 == [] then 0 else 1)
            && (forall i :: 0 <= i < |top| ==>
                  && out[i].0 == top[i]
                  && MergeSeries(ts1[top[i]], Partner(ts2, top[i], ts1[top[i]]), merge) == Ok(out[i].1))
            && (|out| > |top| ==>
                  && out[|top|].0 == "_rest"
                  && |out[|top|].1| == |starts|
                  && forall i :: 0 <= i < |starts| ==>
                       out[|top|].1[i] == Point(starts[i], merge(SumAt(ts1, rest1, i), SumAt(ts2, rest2, i))))
  {
  }

  lemma ListsDistinct(names: seq<string>, s: set<string>, i: nat, j: nat)
    requires Lists(names, s) && i < j < |names|
    ensures names[i] != names[j]
  {
    var a, b := names[..j], names[j..];
    assert names == a + b && a[i] == names[i] && b[0] == names[j];
    assert multiset(names)[names[i]] == multiset(a)[names[i]] + multiset(b)[names[i]];
    assert names[i] in multiset(a) && names[j] in multiset(b);
    assert multiset(s)[names[i]] <= 1;
  }

  // Entry `i` reports `top[i]` with its own merged series, and no name is reported twice.
  ghost predicate Reports(out: seq<(string, Series)>, ts1: map<string, Series>, ts2: map<string, Series>,
                          top: seq<string>, merge: Merge)
  {
    && |top| <= |out|
    && (forall i :: 0 <= i < |top| ==>
          out[i].0 == top[i] && top[i] in ts1 && IsMerged(out[i].1, ts1[top[i]], ts2, top[i], merge))
    && (forall i, j :: 0 <= i < j < |top| ==> out[i].0 != out[j].0)
  }

  predicate Aligned(a: Series, b: Series) {
    |a| == |b| && forall b' :: 0 <= b' < |a| ==> a[b'].ts == b[b'].ts
  }

  // Bucket by bucket: the value of `a` merged with that of `n` in `ts2`, or with none.
  ghost predicate IsMerged(merged: Series, a: Series, ts2: map<string, Series>, n: string, merge: Merge) {
    && (n in ts2 ==> Aligned(a, ts2[n]))
    && |merged| == |a|
    && forall b :: 0 <= b < |a| ==>
         merged[b] == Point(a[b].ts, merge(a[b].value, if n in ts2 then ts2[n][b].value else None))
  }

  lemma MergedIff(a: Series, ts2: map<string, Series>, n: string, merge: Merge)
    ensures var r := MergeSeries(a, Partner(ts2, n, a), merge);
            && (r.Ok? <==> n in ts2 ==> Aligned(a, ts2[n]))
            && (r.Ok? ==> IsMerged(r.value, a, ts2, n, merge))
  {
  }

  // `rest` are the names of `m` not in `top`, and complete the named ones to the total in bucket `b`.
  ghost predicate Completes(m: map<string, Series>, all: seq<string>, top: seq<string>, rest: seq<string>, b: nat) {
    && (forall n :: n in rest <==> n in m && n !in top)
    && (forall n :: n in all <==> n in m)
    && (forall n :: n in Keep(top, m.Keys) <==> n in m && n in top)
    && Add(SumAt(m, Keep(top, m.Keys), b), SumAt(m, rest, b)) == SumAt(m, all, b)
  }

  lemma SideCompletes(m: map<string, Series>, all: seq<string>, top: seq<string>, b: nat)
    requires Lists(all, m.Keys) && Lists(top, Names(top))
    ensures Completes(m, all, top, Keep(all, m.Keys - Names(top)), b)
  {
    var left := m.Keys - Names(top);
    SideSums(m, all, top, b);
    ListsMembers(all, m.Keys);
    KeepLists(all, m.Keys, left);
    ListsMembers(Keep(all, left), m.Keys * left);
    KeepLists(top, Names(top), m.Keys);
    ListsMembers(Keep(top, m.Keys), Names(top) * m.Keys);
  }

  lemma EntriesReport(ts1: map<string, Series>, ts2: map<string, Series>, top: seq<string>,
                      rest1: seq<string>, rest2: seq<string>, starts: seq<int>, merge: Merge)
    requires Lists(top, Names(top)) && forall n :: n in top ==> n in ts1
    requires (forall n :: n in rest1 ==> n in ts1) && (forall n :: n in rest2 ==> n in ts2)
    requires Aggregate(ts1, ts2, top, rest1, rest2, starts, merge).Ok?
    ensures Reports(Aggregate(ts1, ts2, top, rest1, rest2, starts, merge).value, ts1, ts2, top, merge)
  {
    ReportedEntries(ts1, ts2, top, rest1, rest2, starts, merge);
    forall i | 0 <= i < |top|
      ensures IsMerged(Aggregate(ts1, ts2, top, rest1, rest2, starts, merge).value[i].1, ts1[top[i]], ts2, top[i], merge)
    {
      MergedIff(ts1[top[i]], ts2, top[i], merge);
    }
    forall i, j | 0 <= i < j < |top| ensures top[i] != top[j] {
      ListsDistinct(top, Names(top), i, j);
    }
  }

  lemma {:induction false} NamedFailsIff(ts1: map<string, Series>, ts2: map<string, Series>, top: seq<string>, merge: Merge)
    requires forall n :: n in top ==> n in ts1
    ensures Named(ts1, ts2, top, merge).Err? <==>
            exists i :: 0 <= i < |top| && top[i] in ts2 && !Aligned(ts1[top[i]], ts2[top[i]])
    decreases |top|
  {
    if top != [] {
      var k := |top| - 1;
      NamedFailsIff(ts1, ts2, top[..k], merge);
      MergedIff(ts1[top[k]], ts2, top[k], merge);
    }
  }

  lemma RestFailsIff(ts1: map<string, Series>, ts2: map<string, Series>, rest1: seq<string>, rest2: seq<string>,
                     starts: seq<int>, merge: Merge)
    requires (forall n :: n in rest1 ==> n in ts1) && (forall n :: n in rest2 ==> n in ts2)
    ensures Rest(ts1, ts2, rest1, rest2, starts, merge).Err? <==>
            !AllFit(ts1, rest1, starts) || !AllFit(ts2, rest2, starts)
  {
  }

  /**
    The aggregation fails iff the two series of some chosen name have different buckets, or some
    series of a name left out does not have the window's buckets.
   */
  lemma FailsIff(ts1: map<string, Series>, ts2: map<string, Series>, all1: seq<string>, all2: seq<string>,
                 k: nat, ascending: bool, starts: seq<int>, merge: Merge)
    requires Lists(all1, ts1.Keys) && Lists(all2, ts2.Keys)
    ensures var top := Top(ts1, ts2, all1, k, ascending, merge);
            TopKForRateSpec(ts1, ts2, all1, all2, k, ascending, starts, merge).Err? <==>
            || (exists i :: 0 <= i < |top| && top[i] in ts2 && !Aligned(ts1[top[i]], ts2[top[i]]))
            || (exists n :: n in ts1 && n !in top && Starts(ts1[n]) != starts)
            || (exists n :: n in ts2 && n !in top && Starts(ts2[n]) != starts)
  {
    var top := Top(ts1, ts2, all1, k, ascending, merge);
    var rest1, rest2 := Keep(all1, ts1.Keys - Names(top)), Keep(all2, ts2.Keys - Names(top));
    SideCompletes(ts1, all1, top, 0);
    SideCompletes(ts2, all2, top, 0);
    NamedFailsIff(ts1, ts2, top, merge);
    RestFailsIff(ts1, ts2, rest1, rest2, starts, merge);
    AllFitIff(ts1, top, rest1, starts);
    AllFitIff(ts2, top, rest2, starts);
  }

  function Starts(s: Series): seq<int> {
    seq(|s|, i requires 0 <= i < |s| => s[i].ts)
  }

  lemma AllFitIff(m: map<string, Series>, top: seq<string>, rest: seq<string>, starts: seq<int>)
    requires forall n :: n in rest <==> n in m && n !in top
    ensures AllFit(m, rest, starts) <==> forall n :: n in m && n !in top ==> Starts(m[n]) == starts
  {
    forall n | n in m ensures Fits(m[n], starts) <==> Starts(m[n]) == starts {
      FitsIff(m[n], starts);
    }
    if AllFit(m, rest, starts) {
      forall n | n in m && n !in top ensures Starts(m[n]) == starts {
        assert n in rest;
      }
    }
  }

  lemma FitsIff(s: Series, starts: seq<int>)
    ensures Fits(s, starts) <==> Starts(s) == starts
  {
    if Starts(s) == starts {
      forall i | 0 <= i < |s| ensures s[i].ts == starts[i] {
        assert Starts(s)[i] == s[i].ts;
      }
    }
  }

  /**
    A successful report accounts for every input name exactly once. The names chosen have one entry
    each, with their own merged series. All other names of either input are summed in `_rest`, which
    is there iff there are any, and whose sums complete those of the chosen names to the totals.
   */
  lemma ReportAccountsForAll(ts1: map<string, Series>, ts2: map<string, Series>, all1: seq<string>, all2: seq<string>,
                             k: nat, ascending: bool, starts: seq<int>, merge: Merge)
    returns (top: seq<string>, rest1: seq<string>, rest2: seq<string>)
    requires Lists(all1, ts1.Keys) && Lists(all2, ts2.Keys)
    requires TopKForRateSpec(ts1, ts2, all1, all2, k, ascending, starts, merge).Ok?
    ensures top == Top(ts1, ts2, all1, k, ascending, merge)
    ensures forall b :: Completes(ts1, all1, top, rest1, b) && Completes(ts2, all2, top, rest2, b)
    ensures var out := TopKForRateSpec(ts1, ts2, all1, all2, k, ascending, starts, merge).value;
            && Reports(out, ts1, ts2, top, merge)
            && |out| == |top| + (if rest1 == [] && rest2 == [] then 0 else 1)
            && (|out| > |top| ==>
                  && out[|top|].0 == "_rest" && |out[|top|].1| == |starts|
                  && (forall n :: n in rest1 ==> n in ts1) && (forall n :: n in rest2 ==> n in ts2)
                  && forall b :: 0 <= b < |starts| ==>
                       out[|top|].1[b] == Point(starts[b], merge(SumAt(ts1, rest1, b), SumAt(ts2, rest2, b))))
  {
    top := Top(ts1, ts2, all1, k, ascending, merge);
    rest1, rest2 := Keep(all1, ts1.Keys - Names(top)), Keep(all2, ts2.Keys - Names(top));
    forall b ensures Completes(ts1, all1, top, rest1, b) && Completes(ts2, all2, top, rest2, b) {
      SideCompletes(ts1, all1, top, b);
      SideCompletes(ts2, all2, top, b);
    }
    assert Completes(ts1, all1, top, rest1, 0) && Completes(ts2, all2, top, rest2, 0);
    EntriesReport(ts1, ts2, top, rest1, rest2, starts, merge);
    ReportedEntries(ts1, ts2, top, rest1, rest2, starts, merge);
  }

  // First loop: the overall rate of every name of `ts1` that has one.
  method OverallRates(ts1: map<string, Series>, ts2: map<string, Series>, all1: seq<string>, merge: Merge)
    returns (overall: map<string, real>, names: seq<string>)
    requires Lists(all1, ts1.Keys)
    ensures overall == Ratios(ts1, ts2, merge) && names == Keep(all1, overall.Keys)
    ensures forall n :: n in ts1 ==>
              var rate := merge(Overall(ts1[n]), if n in ts2 then Overall(ts2[n]) else None);
              if n in overall then rate == Some(overall[n]) else rate == None
  {
    ListsMembers(all1, ts1.Keys);
    ghost var o := Ratios(ts1, ts2, merge);
    overall, names := map[], [];
    var j := 0;
    while j < |all1|
      invariant 0 <= j <= |all1|
      invariant names == Keep(all1[..j], o.Keys)
      invariant forall n :: n in overall ==> n in o && overall[n] == o[n]
      invariant forall h :: 0 <= h < j && all1[h] in o ==> all1[h] in overall
    {
      assert all1[..j + 1][..j] == all1[..j];
      var n := all1[j];
      var ratio := merge(Overall(ts1[n]), if n in ts2 then Overall(ts2[n]) else None);
      if ratio.Some? {
        overall := overall[n := ratio.value];
        names := names + [n];
      }
      j := j + 1;
    }
    assert all1[..j] == all1;
    forall n | n in o ensures n in overall {
      assert n in all1;
    }
    assert overall == o;
  }

  lemma NamedStep(ts1: map<string, Series>, ts2: map<string, Series>, top: seq<string>, merge: Merge, j: nat)
    requires (forall n :: n in top ==> n in ts1) && j < |top|
    ensures Named(ts1, ts2, top[..j], merge).Ok? ==>
              Named(ts1, ts2, top[..j + 1], merge) ==
              match MergeSeries(ts1[top[j]], Partner(ts2, top[j], ts1[top[j]]), merge)
              case Ok(m) => Ok(Named(ts1, ts2, top[..j], merge).value + [(top[j], m)])
              case Err => Err
  {
    assert top[..j + 1][..j] == top[..j];
  }

  // Removing the next chosen name from what is left of a map.
  lemma LeftStep(m: map<string, Series>, top: seq<string>, j: nat)
    requires Lists(top, Names(top)) && j < |top|
    ensures var left := m - Names(top[..j]);
            && (top[j] in left <==> top[j] in m) && (top[j] in m ==> left[top[j]] == m[top[j]])
            && left - {top[j]} == m - Names(top[..j + 1])
  {
    TopIsDistinct(top, j);
    assert Names(top[..j + 1]) == Names(top[..j]) + {top[j]};
  }

  // Second loop: move the chosen series out of both maps.
  method NamedEntries(ts1: map<string, Series>, ts2: map<string, Series>, top: seq<string>, merge: Merge)
    returns (r: Result<seq<(string, Series)>>, left1: map<string, Series>, left2: map<string, Series>)
    requires Lists(top, Names(top)) && forall n :: n in top ==> n in ts1
    ensures r == Named(ts1, ts2, top, merge)
    ensures r.Ok? ==> left1 == ts1 - Names(top) && left2 == ts2 - Names(top)
  {
    left1, left2 := ts1, ts2;
    var ret: seq<(string, Series)> := [];
    var j := 0;
    while j < |top|
      invariant 0 <= j <= |top|
      invariant left1 == ts1 - Names(top[..j]) && left2 == ts2 - Names(top[..j])
      invariant Named(ts1, ts2, top[..j], merge) == Ok(ret)
    {
      var n := top[j];
      LeftStep(ts1, top, j);
      LeftStep(ts2, top, j);
      NamedStep(ts1, ts2, top, merge, j);
      var merged := MergeSeries(left1[n], Partner(left2, n, left1[n]), merge);
      if merged.Err? {
        NamedFails(ts1, ts2, top, merge, j);
        return Err, left1, left2;
      }
      left1, left2 := left1 - {n}, left2 - {n};
      ret := ret + [(n, merged.value)];
      j := j + 1;
    }
    assert top[..j] == top;
    r := Ok(ret);
  }

  method ChooseTop(ts1: map<string, Series>, ts2: map<string, Series>, all1: seq<string>,
                   k: nat, ascending: bool, merge: Merge) returns (top: seq<string>)
    requires Lists(all1, ts1.Keys)
    ensures top == Top(ts1, ts2, all1, k, ascending, merge)
  {
    KeepLists(all1, ts1.Keys, Ratios(ts1, ts2, merge).Keys);
    var overall, names := OverallRates(ts1, ts2, all1, merge);
    top := TopNames(overall, ascending, names, k);
  }

  method RestEntry(ts1: map<string, Series>, ts2: map<string, Series>, rest1: seq<string>, rest2: seq<string>,
                   starts: seq<int>, merge: Merge) returns (r: Result<Series>)
    requires (forall n :: n in rest1 ==> n in ts1) && (forall n :: n in rest2 ==> n in ts2)
    ensures r == Rest(ts1, ts2, rest1, rest2, starts, merge)
  {
    var sum1 := SumTimeseries(ts1, rest1, starts);
    var sum2 := SumTimeseries(ts2, rest2, starts);
    if sum1.Err? || sum2.Err? {
      return Err;
    }
    r := MergeSeries(sum1.value, sum2.value, merge);
  }

  /** `top_k_for_rate`, for iteration orders `all1` and `all2` of the two hash maps. */
  method TopKForRate(ts1: map<string, Series>, ts2: map<string, Series>, all1: seq<string>, all2: seq<string>,
                     k: nat, ascending: bool, starts: seq<int>, merge: Merge)
    returns (r: Result<seq<(string, Series)>>)
    requires Lists(all1, ts1.Keys) && Lists(all2, ts2.Keys)
    ensures r == TopKForRateSpec(ts1, ts2, all1, all2, k, ascending, starts, merge)
  {
    var top := ChooseTop(ts1, ts2, all1, k, ascending, merge);
    ghost var chosen := Names(top);
    KeepLists(all1, ts1.Keys, ts1.Keys - chosen);
    KeepLists(all2, ts2.Keys, ts2.Keys - chosen);
    var named, left1, left2 := NamedEntries(ts1, ts2, top, merge);
    if named.Err? {
      return Err;
    }
    assert left1.Keys == ts1.Keys - chosen && left2.Keys == ts2.Keys - chosen;
    var rest1, rest2 := Keep(all1, left1.Keys), Keep(all2, left2.Keys);
    if rest1 == [] && rest2 == [] {
      return named;
    }
    var rest := RestEntry(ts1, ts2, rest1, rest2, starts, merge);
    r := if rest.Ok? then Ok(named.value + [("_rest", rest.value)]) else Err;
  }

  lemma TopIsDistinct(top: seq<string>, j: nat)
    requires Lists(top, Names(top)) && j < |top|
    ensures top[j] !in top[..j]
  {
    assert top == top[..j] + [top[j]] + top[j + 1..];
    assert multiset(top)[top[j]] == multiset(Names(top))[top[j]] == 1;
    assert multiset(top) == multiset(top[..j]) + multiset{top[j]} + multiset(top[j + 1..]);
  }

  lemma {:induction false} NamedFails(ts1: map<string, Series>, ts2: map<string, Series>, top: seq<string>, merge: Merge, j: nat)
    requires (forall n :: n in top ==> n in ts1) && j < |top|
    requires MergeSeries(ts1[top[j]], Partner(ts2, top[j], ts1[top[j]]), merge).Err?
    ensures Named(ts1, ts2, top, merge).Err?
  {
    if j < |top| - 1 {
      NamedFails(ts1, ts2, top[..|top| - 1], merge, j);
    }
  }
}
