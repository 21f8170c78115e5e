/** `find_artists_with_matching_genres`: search for artists carrying all of
    a reference artist's genres, then drop one genre at random and search
    again, until the genres run out or enough artists have been matched. */
module GenreSearch {
  import opened Common
  import opened Text
  import opened Records

  /** The `limit=10` of every genre search. */
  const SearchLimit: nat := 10

  /** The loop searches again only while fewer artists than this are matched. */
  const MatchTarget: nat := 10

  /** The record `{'id', 'name', 'artist_url'}` built from a search hit. */
  datatype Match = Match(id: string, name: string, url: string)

  /** The service honours the `limit` of the request. */
  ghost predicate Limited(search: string -> Option<seq<Hit>>) {
    forall q :: search(q).Some? ==> |search(q).value| <= SearchLimit
  }

  function GenreTerm(genre: string): string {
    "genre:\"" + genre + "\""
  }

  function Terms(genres: seq<string>): seq<string> {
    seq(|genres|, k requires 0 <= k < |genres| => GenreTerm(genres[k]))
  }

  /** `" AND ".join([f"genre:\"{genre}\"" for genre in genres])`. */
  function Query(genres: seq<string>): string {
    Join(Terms(genres), " AND ")
  }

  /** The query of one genre is its quoted term, and the query of a list is
      the queries of its parts, in list order, joined by `" AND "`. */
  lemma QueryIsConjunction(genre: string, a: seq<string>, b: seq<string>)
    ensures Query([]) == ""
    ensures Query([genre]) == "genre:\"" + genre + "\""
    ensures a != [] && b != [] ==> Query(a + b) == Query(a) + " AND " + Query(b)
  {
    if a != [] && b != [] {
      assert Terms(a + b) == Terms(a) + Terms(b);
      JoinAppend(Terms(a), Terms(b), " AND ");
    }
  }

  /** Python's `s.remove(x)`: the list without the first occurrence of `x`. */
  function RemoveFirst<T(==)>(s: seq<T>, x: T): (r: seq<T>)
    requires x in s
    ensures |r| == |s| - 1
    decreases |s|
  {
    if s[0] == x then s[1..] else [s[0]] + RemoveFirst(s[1..], x)
  }

  /** `RemoveFirst` keeps everything before the first `x` and everything after it, in order. */
  lemma {:induction false} RemoveFirstKeepsOrder<T>(s: seq<T>, x: T)
    requires x in s
    ensures RemoveFirst(s, x) == s[..IndexOf(s, x)] + s[IndexOf(s, x) + 1..]
    decreases |s|
  {
    if s[0] != x {
      var t := s[1..];
      var i, j := IndexOf(s, x), IndexOf(t, x);
      assert i == j + 1 by {
        assert s[j + 1] == x;
        assert x !in s[..j + 1] by { assert s[..j + 1] == [s[0]] + t[..j]; }
      }
      RemoveFirstKeepsOrder(t, x);
      calc {
        RemoveFirst(s, x);
        [s[0]] + RemoveFirst(t, x);
        [s[0]] + (t[..j] + t[j + 1..]);
        { assert [s[0]] + t[..j] == s[..i]; assert t[j + 1..] == s[i + 1..]; }
        s[..i] + s[i + 1..];
      }
    }
  }

  /** `RemoveFirst` drops exactly one occurrence of `x`. */
  lemma {:induction false} RemoveFirstDropsOne<T>(s: seq<T>, x: T)
    requires x in s
    ensures multiset(RemoveFirst(s, x)) == multiset(s) - multiset{x}
    decreases |s|
  {
    assert s == [s[0]] + s[1..];
    if s[0] != x {
      RemoveFirstDropsOne(s[1..], x);
    }
  }

  /** The position `random.choice` takes in a list of `n` elements when the
      random source yields `x`: `x` itself when it is in range, else the last
      position.  Every position is reachable, which is all the loop relies on. */
  function Choice(x: nat, n: nat): (i: nat)
    requires n > 0
    ensures i < n
    ensures x < n ==> i == x
  {
    if x < n then x else n - 1
  }

  /** Pass `k`'s `target_genres.remove(random.choice(target_genres))`, the
      random source yielding `pick(k)` in pass `k`. */
  function Drop<T(==)>(genres: seq<T>, k: nat, pick: nat -> nat): (r: seq<T>)
    requires genres != []
    ensures |r| == |genres| - 1
  {
    RemoveFirst(genres, genres[Choice(pick(k), |genres|)])
  }

  function ProjectHit(h: Hit): Option<Match> {
    if h.id.Some? && h.name.Some? && h.url.Some? then Some(Match(h.id.value, h.name.value, h.url.value))
    else None
  }

  /** The records built from the hits of a search, in order; `None` when a hit
      lacks one of the keys read (the KeyError is not caught). */
  function Projected(hits: seq<Hit>): (r: Option<seq<Match>>)
    ensures r.Some? <==> forall k :: 0 <= k < |hits| ==> ProjectHit(hits[k]).Some?
    ensures r.Some? ==> |r.value| == |hits| && forall k :: 0 <= k < |hits| ==> ProjectHit(hits[k]) == Some(r.value[k])
    decreases |hits|
  {
    if hits == [] then Some([])
    else
      match (ProjectHit(hits[0]), Projected(hits[1..]))
      case (Some(m), Some(ms)) => Some([m] + ms)
      case _ => None
  }

  /** The records one search for `genres` yields; `None` when reading them raises KeyError. */
  function Page(search: string -> Option<seq<Hit>>, genres: seq<string>): Option<seq<Match>> {
    match search(Query(genres))
    case None => None
    case Some(hits) => Projected(hits)
  }

  ghost predicate InPage(m: Match, search: string -> Option<seq<Hit>>, genres: seq<string>) {
    Page(search, genres).Some? && m in Page(search, genres).value
  }

  /** The records of `page` not already matched, in page order: the duplicate
      filter line 39 evidently means to apply. */
  function Unmatched(page: seq<Match>, matched: seq<Match>): (r: seq<Match>)
    ensures |r| <= |page|
    ensures forall m :: m in r <==> m in page && m !in matched
    ensures Distinct(page) ==> Distinct(r)
    decreases |page|
  {
    if page == [] then []
    else
      var rest := Unmatched(page[1..], matched);
      if page[0] in matched then rest
      else
        assert Distinct(page) ==> page[0] !in page[1..];
        [page[0]] + rest
  }

  /** What the search loop returns when the genres left are `remaining` and
      `matched` has been collected over the first `k` passes; pass `k` drops
      the genre `Choice(pick(k), |remaining|)` (`random.choice`).  With
      `fixed` a pass adds only records not already matched; without it, it
      adds every record of the page, which is what line 39 does, because its
      filter tests a raw search hit against the projected records and a hit
      never equals one. */
  function Relax(remaining: seq<string>, matched: seq<Match>, k: nat,
                 search: string -> Option<seq<Hit>>, pick: nat -> nat, fixed: bool): Outcome<seq<Match>>
    decreases |remaining|
  {
    if |remaining| == 0 || |matched| >= MatchTarget then Ok(matched)
    else
      match Page(search, remaining)
      case None => Crash(KeyError)
      case Some(page) =>
        var added := if fixed then Unmatched(page, matched) else page;
        Relax(Drop(remaining, k, pick), matched + added, k + 1, search, pick, fixed)
  }

  /** One pass of the loop: the search for `remaining`, then the recursive call on the shortened list. */
  lemma RelaxStep(remaining: seq<string>, matched: seq<Match>, k: nat,
                  search: string -> Option<seq<Hit>>, pick: nat -> nat, fixed: bool)
    requires |remaining| > 0 && |matched| < MatchTarget
    ensures Page(search, remaining).None? ==> Relax(remaining, matched, k, search, pick, fixed) == Crash(KeyError)
    ensures Page(search, remaining).Some? ==>
      var page := Page(search, remaining).value;
      var added := if fixed then Unmatched(page, matched) else page;
      Relax(remaining, matched, k, search, pick, fixed)
        == Relax(Drop(remaining, k, pick), matched + added, k + 1, search, pick, fixed)
  {
  }

  /** A pass only appends: what was matched before is a prefix of the result. */
  lemma {:induction false} RelaxExtends(remaining: seq<string>, matched: seq<Match>, k: nat,
                                        search: string -> Option<seq<Hit>>, pick: nat -> nat, fixed: bool)
    ensures Relax(remaining, matched, k, search, pick, fixed).Ok? ==>
      matched <= Relax(remaining, matched, k, search, pick, fixed).value
    decreases |remaining|
  {
    if |remaining| > 0 && |matched| < MatchTarget && Page(search, remaining).Some? {
      var page := Page(search, remaining).value;
      var added := if fixed then Unmatched(page, matched) else page;
      RelaxExtends(Drop(remaining, k, pick), matched + added, k + 1, search, pick, fixed);
    }
  }

  /** Every search lists an artist at most once. */
  ghost predicate PagesDistinct(search: string -> Option<seq<Hit>>) {
    forall genres: seq<string> :: Page(search, genres).Some? ==> Distinct(Page(search, genres).value)
  }

  /** With the duplicate filter, no artist record is matched twice, provided
      no single search lists it twice. */
  lemma {:induction false} RelaxNoDuplicates(remaining: seq<string>, matched: seq<Match>, k: nat,
                                             search: string -> Option<seq<Hit>>, pick: nat -> nat)
    requires Distinct(matched)
    requires PagesDistinct(search)
    ensures Relax(remaining, matched, k, search, pick, true).Ok? ==>
      Distinct(Relax(remaining, matched, k, search, pick, true).value)
    decreases |remaining|
  {
    if |remaining| > 0 && |matched| < MatchTarget && Page(search, remaining).Some? {
      var page := Page(search, remaining).value;
      var added := Unmatched(page, matched);
      DistinctConcat(matched, added);
      RelaxNoDuplicates(Drop(remaining, k, pick), matched + added, k + 1, search, pick);
    }
  }

  /** A service whose every search finds just the artist `hit`. */
  lemma SingleHitPage(search: string -> Option<seq<Hit>>, hit: Hit, genres: seq<string>)
    requires ProjectHit(hit).Some?
    requires forall q :: search(q) == Some([hit])
    ensures Page(search, genres) == Some([ProjectHit(hit).value])
  {
    assert [hit][1..] == [];
    assert Projected([hit][1..]) == Some([]);
    assert [ProjectHit(hit).value] + [] == [ProjectHit(hit).value];
  }

  lemma FirstGenreDropped(pick: nat -> nat)
    requires forall k :: pick(k) == 0
    ensures Drop(["pop", "rock"], 0, pick) == ["rock"]
    ensures Drop(["rock"], 1, pick) == []
  {
  }

  /** The loop as written returns the same artist twice when two passes find
      it, while the filtered loop returns it once: here every search finds the
      one artist `hit`, the genres are `["pop", "rock"]`, and `random.choice`
      picks the first genre left. */
  lemma AsWrittenRepeatsMatch(search: string -> Option<seq<Hit>>, pick: nat -> nat, hit: Hit)
    requires ProjectHit(hit).Some?
    requires forall q :: search(q) == Some([hit])
    requires forall k :: pick(k) == 0
    ensures Relax(["pop", "rock"], [], 0, search, pick, false) == Ok([ProjectHit(hit).value, ProjectHit(hit).value])
    ensures Relax(["pop", "rock"], [], 0, search, pick, true) == Ok([ProjectHit(hit).value])
  {
    var found := ProjectHit(hit).value;
    var both, last := ["pop", "rock"], ["rock"];
    SingleHitPage(search, hit, both);
    SingleHitPage(search, hit, last);
    FirstGenreDropped(pick);
    assert Unmatched([found], []) == [found];
    assert [found][1..] == [];
    assert Unmatched([found], [found]) == [];
    assert [] + [found] == [found] && [found] + [] == [found] && [found] + [found] == [found, found];
    RelaxStep(last, [found], 1, search, pick, false);
    RelaxStep(both, [], 0, search, pick, false);
    RelaxStep(last, [found], 1, search, pick, true);
    RelaxStep(both, [], 0, search, pick, true);
  }

  /** The genre lists successive passes search when no pass stops the loop
      early: the full list, then each time the list with the genre picked in
      the previous pass removed, down to a single genre. */
  function Schedule<T(==)>(genres: seq<T>, k: nat, pick: nat -> nat): seq<seq<T>>
    decreases |genres|
  {
    if genres == [] then [] else [genres] + Schedule(Drop(genres, k, pick), k + 1, pick)
  }

  /** There is one pass per genre, and the first searches all of them. */
  lemma {:induction false} ScheduleLength<T>(genres: seq<T>, k: nat, pick: nat -> nat)
    ensures |Schedule(genres, k, pick)| == |genres|
    ensures genres != [] ==> Schedule(genres, k, pick)[0] == genres
    decreases |genres|
  {
    if genres != [] {
      ScheduleLength(Drop(genres, k, pick), k + 1, pick);
    }
  }

  /** Pass `j` searches `|genres| - j` genres, all of them taken from `genres`. */
  lemma {:induction false} ScheduleShrinks<T>(genres: seq<T>, k: nat, pick: nat -> nat, j: nat)
    requires j < |genres|
    ensures |Schedule(genres, k, pick)| == |genres|
    ensures |Schedule(genres, k, pick)[j]| == |genres| - j
    ensures multiset(Schedule(genres, k, pick)[j]) <= multiset(genres)
    decreases j
  {
    ScheduleLength(genres, k, pick);
    if j > 0 {
      var next := Drop(genres, k, pick);
      RemoveFirstDropsOne(genres, genres[Choice(pick(k), |genres|)]);
      ScheduleShrinks(next, k + 1, pick, j - 1);
      assert Schedule(genres, k, pick)[j] == Schedule(next, k + 1, pick)[j - 1];
    }
  }

  /** Every artist the loop returns was matched beforehand or is listed by
      the search of one of the passes. */
  lemma {:induction false} RelaxProvenance(remaining: seq<string>, matched: seq<Match>, k: nat,
                                           search: string -> Option<seq<Hit>>, pick: nat -> nat, fixed: bool, m: Match)
    requires Relax(remaining, matched, k, search, pick, fixed).Ok?
    requires m in Relax(remaining, matched, k, search, pick, fixed).value
    ensures m in matched || exists j :: 0 <= j < |Schedule(remaining, k, pick)| && InPage(m, search, Schedule(remaining, k, pick)[j])
    decreases |remaining|
  {
    if |remaining| > 0 && |matched| < MatchTarget {
      var page := Page(search, remaining).value;
      var added := if fixed then Unmatched(page, matched) else page;
      var next := Drop(remaining, k, pick);
      var tail := Schedule(next, k + 1, pick);
      assert Schedule(remaining, k, pick) == [remaining] + tail;
      RelaxProvenance(next, matched + added, k + 1, search, pick, fixed, m);
      if m !in matched {
        if m in added {
          assert InPage(m, search, Schedule(remaining, k, pick)[0]);
        } else {
          var j :| 0 <= j < |tail| && InPage(m, search, tail[j]);
          assert InPage(m, search, Schedule(remaining, k, pick)[j + 1]);
        }
      }
    }
  }

  /** A run ends in KeyError exactly because the search of some pass could
      not be read. */
  lemma {:induction false} RelaxCrashCause(remaining: seq<string>, matched: seq<Match>, k: nat,
                                           search: string -> Option<seq<Hit>>, pick: nat -> nat, fixed: bool)
    requires Relax(remaining, matched, k, search, pick, fixed).Crash?
    ensures Relax(remaining, matched, k, search, pick, fixed) == Crash(KeyError)
    ensures exists j :: 0 <= j < |Schedule(remaining, k, pick)| && Page(search, Schedule(remaining, k, pick)[j]).None?
    decreases |remaining|
  {
    var next := Drop(remaining, k, pick);
    var tail := Schedule(next, k + 1, pick);
    assert Schedule(remaining, k, pick) == [remaining] + tail;
    if Page(search, remaining).Some? {
      var page := Page(search, remaining).value;
      var added := if fixed then Unmatched(page, matched) else page;
      RelaxCrashCause(next, matched + added, k + 1, search, pick, fixed);
      var j :| 0 <= j < |tail| && Page(search, tail[j]).None?;
      assert Schedule(remaining, k, pick)[j + 1] == tail[j];
    } else {
      assert Schedule(remaining, k, pick)[0] == remaining;
    }
  }

  /** A run that returns fewer artists than the target went through every
      pass of the schedule, each search readable. */
  lemma {:induction false} RelaxExhausts(remaining: seq<string>, matched: seq<Match>, k: nat,
                                         search: string -> Option<seq<Hit>>, pick: nat -> nat, fixed: bool)
    requires Relax(remaining, matched, k, search, pick, fixed).Ok?
    requires |Relax(remaining, matched, k, search, pick, fixed).value| < MatchTarget
    ensures forall j :: 0 <= j < |Schedule(remaining, k, pick)| ==> Page(search, Schedule(remaining, k, pick)[j]).Some?
    decreases |remaining|
  {
    if remaining != [] {
      var page := Page(search, remaining).value;
      var added := if fixed then Unmatched(page, matched) else page;
      var next := Drop(remaining, k, pick);
      var tail := Schedule(next, k + 1, pick);
      var s := Schedule(remaining, k, pick);
      assert s == [remaining] + tail;
      RelaxExhausts(next, matched + added, k + 1, search, pick, fixed);
      forall j | 0 <= j < |s|
        ensures Page(search, s[j]).Some?
      {
        if j > 0 {
          assert s[j] == tail[j - 1];
        }
      }
    }
  }

  /** `find_artists_with_matching_genres(target_genres)`, with the duplicate
      filter of line 39 corrected. */
  method MatchGenres(targetGenres: seq<string>, search: string -> Option<seq<Hit>>, pick: nat -> nat)
    returns (r: Outcome<seq<Match>>)
    requires Limited(search)
    ensures r == Relax(targetGenres, [], 0, search, pick, true)
    ensures r.Ok? ==> |r.value| <= MatchTarget - 1 + SearchLimit
  {
    var genres := targetGenres;
    var matched: seq<Match> := [];
    var pass: nat := 0;
    while |genres| > 0 && |matched| < MatchTarget
      invariant Relax(genres, matched, pass, search, pick, true) == Relax(targetGenres, [], 0, search, pick, true)
      invariant |matched| <= MatchTarget - 1 + SearchLimit
      decreases |genres|
    {
      var query := Query(genres);
      var response := search(query);
      if response.None? {
        return Crash(KeyError);
      }
      var page := Projected(response.value);
      if page.None? {
        return Crash(KeyError);
      }
      RelaxStep(genres, matched, pass, search, pick, true);
      matched := matched + Unmatched(page.value, matched);
      var randomItem := genres[Choice(pick(pass), |genres|)];
      genres := RemoveFirst(genres, randomItem);
      pass := pass + 1;
    }
    r := Ok(matched);
  }
}
