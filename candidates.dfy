/** `get_matching_artists`: for every reference artist with genres, the
    artists found by the genre search, minus those already known, each with
    its top track's features. */
module Candidates {
  import opened Common
  import opened Records
  import opened GenreSearch

  /** `sp.artist(artist_id).get('genres', [])`. */
  function GenresOf(api: Api, artistId: string): seq<string> {
    api.artistGenres(artistId).GetOr([])
  }

  /** The candidate record of lines 154-157 for a matched artist. */
  function CandidateOf(m: Match, f: Features): Row {
    Row(m.id, Some(m.name), Some(m.url), f)
  }

  /** The matched artist a candidate record was built from. */
  predicate BuiltFrom(row: Row, matches: seq<Match>) {
    row.name.Some? && row.url.Some? && Match(row.artistId, row.name.value, row.url.value) in matches
  }

  /** The inner loop (lines 146-157) from match `j` on, given the candidates
      `acc` collected so far: a match is skipped when its id is empty or
      already among the references or the candidates, or when its artist has
      no features. */
  function Admit(matches: seq<Match>, j: nat, refs: seq<Row>, acc: seq<Row>, api: Api): seq<Row>
    decreases |matches| - j
  {
    if j >= |matches| then acc
    else
      var m := matches[j];
      if m.id == "" || m.id in Ids(refs + acc) then Admit(matches, j + 1, refs, acc, api)
      else
        match Lookup(api, m.id)
        case None => Admit(matches, j + 1, refs, acc, api)
        case Some(f) => Admit(matches, j + 1, refs, acc + [CandidateOf(m, f)], api)
  }

  /** The outer loop (lines 137-157) from reference `i` on, the genre search
      of reference `i` drawing its random choices from `picks(i)`. */
  function Expand(refs: seq<Row>, i: nat, acc: seq<Row>, api: Api, picks: nat -> nat -> nat): Outcome<seq<Row>>
    decreases |refs| - i
  {
    if i >= |refs| then Ok(acc)
    else
      var genres := GenresOf(api, refs[i].artistId);
      if |genres| < 1 then Expand(refs, i + 1, acc, api, picks)
      else
        match Relax(genres, [], 0, api.search, picks(i), true)
        case Crash(f) => Crash(f)
        case Ok(matched) =>
          if |matched| <= 1 then Expand(refs, i + 1, acc, api, picks)
          else Expand(refs, i + 1, Admit(matched, 0, refs, acc, api), api, picks)
  }

  /** Candidate ids are non-empty, new to the references and to each other. */
  predicate Fresh(refs: seq<Row>, cands: seq<Row>) {
    && (forall k :: 0 <= k < |cands| ==> cands[k].artistId != "" && cands[k].artistId !in Ids(refs))
    && Distinct(Ids(cands))
  }

  /** Every candidate carries the features of its artist's top track. */
  predicate Featured(api: Api, cands: seq<Row>) {
    forall k :: 0 <= k < |cands| ==> Lookup(api, cands[k].artistId) == Some(cands[k].features)
  }

  /** Reference `i` has genres, its genre search matched more than one
      artist, and `row` was built from one of them. */
  predicate FromReference(refs: seq<Row>, i: nat, api: Api, picks: nat -> nat -> nat, row: Row) {
    && i < |refs|
    && |GenresOf(api, refs[i].artistId)| >= 1
    && var found := Relax(GenresOf(api, refs[i].artistId), [], 0, api.search, picks(i), true);
       found.Ok? && |found.value| > 1 && BuiltFrom(row, found.value)
  }

  lemma IdsConcat(a: seq<Row>, b: seq<Row>)
    ensures Ids(a + b) == Ids(a) + Ids(b)
  {
  }

  /** References and candidates together carry pairwise distinct ids. */
  lemma AllIdsDistinct(refs: seq<Row>, cands: seq<Row>)
    requires Distinct(Ids(refs)) && Fresh(refs, cands)
    ensures Distinct(Ids(refs + cands))
  {
    IdsConcat(refs, cands);
    forall x | x in Ids(cands) ensures x !in Ids(refs) {
      var k :| 0 <= k < |Ids(cands)| && Ids(cands)[k] == x;
      assert cands[k].artistId == x;
    }
    DistinctConcat(Ids(refs), Ids(cands));
  }

  /** The inner loop, lines 146-157. */
  method AdmitMatches(matches: seq<Match>, refs: seq<Row>, acc: seq<Row>, api: Api) returns (out: seq<Row>)
    requires Fresh(refs, acc) && Featured(api, acc)
    ensures out == Admit(matches, 0, refs, acc, api)
    ensures acc <= out && Fresh(refs, out) && Featured(api, out)
    ensures forall k :: |acc| <= k < |out| ==> BuiltFrom(out[k], matches)
  {
    out := acc;
    for j := 0 to |matches|
      invariant Admit(matches, j, refs, out, api) == Admit(matches, 0, refs, acc, api)
      invariant acc <= out && Fresh(refs, out) && Featured(api, out)
      invariant forall k :: |acc| <= k < |out| ==> BuiltFrom(out[k], matches)
    {
      var artist := matches[j];
      var artistId := artist.id;
      IdsConcat(refs, out);
      if artistId == "" || artistId in Ids(refs + out) {
        continue;
      }
      var features := Lookup(api, artistId);
      if features.None? {
        continue;
      }
      var row := CandidateOf(artist, features.value);
      assert Ids(out + [row]) == Ids(out) + [artistId];
      out := out + [row];
    }
  }

  /** Tagging the candidates reference `i` added with `i` keeps every
      candidate traced to its reference. */
  lemma TraceExtends(refs: seq<Row>, i: nat, api: Api, picks: nat -> nat -> nat,
                     before: seq<Row>, after: seq<Row>, origin: seq<nat>, tagged: seq<nat>)
    requires i < |refs| && |GenresOf(api, refs[i].artistId)| >= 1
    requires var found := Relax(GenresOf(api, refs[i].artistId), [], 0, api.search, picks(i), true);
      found.Ok? && |found.value| > 1 && forall k :: |before| <= k < |after| ==> BuiltFrom(after[k], found.value)
    requires before <= after && |origin| == |before|
    requires forall k :: 0 <= k < |before| ==> FromReference(refs, origin[k], api, picks, before[k])
    requires |tagged| == |after| && tagged[..|before|] == origin
    requires forall k :: |before| <= k < |tagged| ==> tagged[k] == i
    ensures forall k :: 0 <= k < |after| ==> FromReference(refs, tagged[k], api, picks, after[k])
  {
    forall k | 0 <= k < |after|
      ensures FromReference(refs, tagged[k], api, picks, after[k])
    {
      if k < |before| {
        assert tagged[k] == origin[k] && after[k] == before[k];
      }
    }
  }

  /** `get_matching_artists(tracks)`.  `origin[k]` is the reference candidate
      `k` stems from. */
  method MatchingArtists(refs: seq<Row>, api: Api, picks: nat -> nat -> nat)
    returns (r: Outcome<seq<Row>>, ghost origin: seq<nat>)
    requires Limited(api.search)
    ensures r == Expand(refs, 0, [], api, picks)
    ensures r.Crash? ==> r.fault == KeyError
    ensures r.Ok? ==> Fresh(refs, r.value) && Featured(api, r.value)
    ensures r.Ok? ==> |origin| == |r.value| && forall k :: 0 <= k < |r.value| ==> FromReference(refs, origin[k], api, picks, r.value[k])
  {
    var artistFeatures: seq<Row> := [];
    origin := [];
    for idx := 0 to |refs|
      invariant Expand(refs, idx, artistFeatures, api, picks) == Expand(refs, 0, [], api, picks)
      invariant Fresh(refs, artistFeatures) && Featured(api, artistFeatures)
      invariant |origin| == |artistFeatures|
      invariant forall k :: 0 <= k < |artistFeatures| ==> FromReference(refs, origin[k], api, picks, artistFeatures[k])
    {
      var genres := GenresOf(api, refs[idx].artistId);
      if |genres| < 1 {
        continue;
      }
      var matched := MatchGenres(genres, api.search, picks(idx));
      if matched.Crash? {
        RelaxCrashCause(genres, [], 0, api.search, picks(idx), true);
        return Crash(matched.fault), origin;
      }
      if |matched.value| <= 1 {
        continue;
      }
      ghost var before := artistFeatures;
      artistFeatures := AdmitMatches(matched.value, refs, artistFeatures, api);
      ghost var tagged := origin + seq(|artistFeatures| - |before|, _ => idx);
      TraceExtends(refs, idx, api, picks, before, artistFeatures, origin, tagged);
      origin := tagged;
    }
    r := Ok(artistFeatures);
  }
}
