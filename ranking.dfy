/** The ordering step of `get_closest_artists` and the table it works on:
    the references and the candidates stacked into one table with a `source`
    column, and the candidates ranked by their distance to the references,
    keeping the ten closest. */
module Ranking {
  import opened Common
  import opened Records

  /** The `head(10)` of the ranking. */
  const RankedCap: nat := 10

  /** The `source` column: `"reference"` or `"artist"`. */
  datatype Source = Reference | Artist

  datatype TableRow = TableRow(row: Row, source: Source)

  /** The table of lines 212-216: the references tagged `"reference"`, then
      the candidates tagged `"artist"`. */
  function Table(refs: seq<Row>, cands: seq<Row>): (t: seq<TableRow>)
    ensures |t| == |refs| + |cands|
    ensures forall k :: 0 <= k < |refs| ==> t[k] == TableRow(refs[k], Reference)
    ensures forall k :: 0 <= k < |cands| ==> t[|refs| + k] == TableRow(cands[k], Artist)
  {
    seq(|refs|, k requires 0 <= k < |refs| => TableRow(refs[k], Reference))
      + seq(|cands|, k requires 0 <= k < |cands| => TableRow(cands[k], Artist))
  }

  /** `df[df.source == "artist"]`: the candidate rows, in table order. */
  function CandidateRows(table: seq<TableRow>): (r: seq<Row>)
    ensures |r| <= |table|
    ensures forall x :: x in r <==> TableRow(x, Artist) in table
    decreases |table|
  {
    if table == [] then []
    else
      var rest := CandidateRows(table[1..]);
      assert forall t :: t in table <==> t == table[0] || t in table[1..];
      if table[0].source == Artist then [table[0].row] + rest else rest
  }

  /** Selecting the `"artist"` rows of the stacked table gives back exactly
      the candidates, in order. */
  lemma {:induction false} CandidatesRecovered(refs: seq<Row>, cands: seq<Row>)
    ensures CandidateRows(Table(refs, cands)) == cands
    decreases |refs| + |cands|
  {
    var t := Table(refs, cands);
    if refs != [] {
      assert t[1..] == Table(refs[1..], cands) by {
        var u := Table(refs[1..], cands);
        forall k | 0 <= k < |u| ensures t[1..][k] == u[k] {
          if k < |refs| - 1 {
            assert u[k] == TableRow(refs[1..][k], Reference);
          } else {
            assert u[k] == u[|refs[1..]| + (k - (|refs| - 1))];
          }
        }
      }
      CandidatesRecovered(refs[1..], cands);
    } else if cands != [] {
      assert t[1..] == Table([], cands[1..]) by {
        var u := Table([], cands[1..]);
        forall k | 0 <= k < |u| ensures t[1..][k] == u[k] {
          assert u[k] == u[0 + k];
          assert t[1..][k] == t[0 + (k + 1)];
        }
      }
      CandidatesRecovered([], cands[1..]);
      assert cands == [cands[0]] + cands[1..];
    }
  }

  /** A distance; `NaN` sorts after every number (`na_position='last'`). */
  datatype Distance = Value(d: real) | NaN

  /** The order `sort_values` uses. */
  predicate Le(a: Distance, b: Distance) {
    match (a, b)
    case (Value(x), Value(y)) => x <= y
    case (_, NaN) => true
    case (NaN, Value(_)) => false
  }

  /** `Le` is a total preorder. */
  lemma LeTotalPreorder(a: Distance, b: Distance, c: Distance)
    ensures Le(a, a)
    ensures Le(a, b) || Le(b, a)
    ensures Le(a, b) && Le(b, c) ==> Le(a, c)
  {
  }

  /** One row of the `results` frame of lines 165-167. */
  datatype Ranked = Ranked(artist: Option<string>, artistId: string, distance: Distance, url: Option<string>)

  /** The `results` frame: candidate `k` with distance `k`. */
  function Results(cands: seq<Row>, distances: seq<Distance>): (r: seq<Ranked>)
    requires |distances| == |cands|
    ensures |r| == |cands|
  {
    seq(|cands|, k requires 0 <= k < |cands| => Ranked(cands[k].name, cands[k].artistId, distances[k], cands[k].url))
  }

  predicate Sorted(s: seq<Ranked>) {
    forall i, j :: 0 <= i < j < |s| ==> Le(s[i].distance, s[j].distance)
  }

  lemma SortedTail(s: seq<Ranked>)
    requires s != [] && Sorted(s)
    ensures Sorted(s[1..])
    ensures forall j :: 0 <= j < |s[1..]| ==> Le(s[0].distance, s[1..][j].distance)
  {
    forall i, j | 0 <= i < j < |s[1..]|
      ensures Le(s[1..][i].distance, s[1..][j].distance)
    {
      assert s[1..][i] == s[i + 1] && s[1..][j] == s[j + 1];
    }
  }

  /** Putting `h` in front of a sorted list of entries none of which is below it keeps it sorted. */
  lemma SortedCons(h: Ranked, s: seq<Ranked>)
    requires Sorted(s)
    requires forall j :: 0 <= j < |s| ==> Le(h.distance, s[j].distance)
    ensures Sorted([h] + s)
  {
    var t := [h] + s;
    forall i, j | 0 <= i < j < |t|
      ensures Le(t[i].distance, t[j].distance)
    {
      assert t[j] == s[j - 1];
      if i > 0 {
        assert t[i] == s[i - 1];
      }
    }
  }

  /** Inserts `x` before the first entry it does not exceed. */
  function Insert(x: Ranked, s: seq<Ranked>): (r: seq<Ranked>)
    requires Sorted(s)
    ensures Sorted(r)
    ensures |r| == |s| + 1
    ensures forall y :: y in r <==> y == x || y in s
    ensures multiset(r) == multiset(s) + multiset{x}
    decreases |s|
  {
    if s == [] then [x]
    else if Le(x.distance, s[0].distance) then
      SortedTail(s);
      SortedCons(x, s);
      [x] + s
    else
      SortedTail(s);
      var rest := Insert(x, s[1..]);
      assert forall j :: 0 <= j < |rest| ==> rest[j] in rest;
      SortedCons(s[0], rest);
      assert s == [s[0]] + s[1..];
      [s[0]] + rest
  }

  /** `sort_values("distance")`: the entries in non-decreasing distance.
      Entries of equal distance keep their order here; pandas' default sort
      does not promise any order for them. */
  function SortByDistance(s: seq<Ranked>): (r: seq<Ranked>)
    ensures Sorted(r)
    ensures |r| == |s|
    ensures multiset(r) == multiset(s)
    decreases |s|
  {
    if s == [] then []
    else
      assert s == [s[0]] + s[1..];
      Insert(s[0], SortByDistance(s[1..]))
  }

  /** `results.sort_values("distance").head(10)`. */
  function Closest(table: seq<TableRow>, distances: seq<Distance>): (r: seq<Ranked>)
    requires |distances| == |CandidateRows(table)|
    ensures |r| == Min(RankedCap, |CandidateRows(table)|)
  {
    Take(SortByDistance(Results(CandidateRows(table), distances)), RankedCap)
  }

  /** The first `n` entries of a sorted list are sorted and none of the
      entries after them is below any of them. */
  lemma PrefixIsTop(sorted: seq<Ranked>, n: nat)
    requires Sorted(sorted)
    ensures var r := Take(sorted, n);
      && Sorted(r)
      && multiset(r) <= multiset(sorted)
      && forall y, i :: y in multiset(sorted) - multiset(r) && 0 <= i < |r| ==> Le(r[i].distance, y.distance)
  {
    var r := Take(sorted, n);
    var rest := sorted[|r|..];
    assert sorted == r + rest;
    assert Sorted(r) by {
      forall i, j | 0 <= i < j < |r|
        ensures Le(r[i].distance, r[j].distance)
      {
        assert r[i] == sorted[i] && r[j] == sorted[j];
      }
    }
    assert multiset(sorted) - multiset(r) == multiset(rest);
    RestAbove(sorted, |r|);
  }

  /** In a sorted list, no entry from position `n` on is below an entry before it. */
  lemma RestAbove(sorted: seq<Ranked>, n: nat)
    requires Sorted(sorted) && n <= |sorted|
    ensures forall y: Ranked, i :: y in multiset(sorted[n..]) && 0 <= i < n ==> Le(sorted[i].distance, y.distance)
  {
    forall y: Ranked, i | y in multiset(sorted[n..]) && 0 <= i < n
      ensures Le(sorted[i].distance, y.distance)
    {
      assert y in sorted[n..];
      var j :| 0 <= j < |sorted[n..]| && sorted[n..][j] == y;
      assert sorted[n..][j] == sorted[n + j];
    }
  }

  /** The ranking holds at most ten entries, in non-decreasing distance, each
      an entry of the results frame taken at most as often as it occurs there,
      and no entry left out is closer than an entry kept. */
  lemma ClosestIsTop(table: seq<TableRow>, distances: seq<Distance>)
    requires |distances| == |CandidateRows(table)|
    ensures var r := Closest(table, distances);
      var all := Results(CandidateRows(table), distances);
      && Sorted(r)
      && multiset(r) <= multiset(all)
      && forall y, i :: y in multiset(all) - multiset(r) && 0 <= i < |r| ==> Le(r[i].distance, y.distance)
  {
    var all := Results(CandidateRows(table), distances);
    PrefixIsTop(SortByDistance(all), RankedCap);
  }

  /** Every entry of the ranking names a candidate row of the table: its
      artist id, name and URL are those of a row tagged `"artist"`. */
  lemma ClosestFromCandidates(table: seq<TableRow>, distances: seq<Distance>, x: Ranked)
    requires |distances| == |CandidateRows(table)|
    requires x in Closest(table, distances)
    ensures exists row :: TableRow(row, Artist) in table && row.artistId == x.artistId && row.name == x.artist && row.url == x.url
  {
    var cands := CandidateRows(table);
    var all := Results(cands, distances);
    var sorted := SortByDistance(all);
    assert x in sorted;
    assert x in multiset(all);
    var k :| 0 <= k < |all| && all[k] == x;
    assert cands[k] in cands;
  }
}
