# Spotify artist recommender: selection logic

This project models the list-selection core of the artist recommender
(`artist_recommender.py`). The recommender does four things:

1. It picks up to ten **reference artists**. These are either the artists of
   the user's recently played tracks, or artists named in a comma-separated
   list, each resolved by an artist search.
2. For each reference artist it runs a **genre search**. This searches for
   artists carrying all of the reference's genres, then drops one genre at
   random and searches again, until at least ten artists are matched or the
   genres run out.
3. It keeps every matched artist that is new, has a non-empty id and has top
   track features. These are the **candidates**.
4. It ranks the candidates by their distance to the references and keeps the
   ten closest.

The remote service is modelled as `Records.Api`, a bundle of functions from
request to response. `random.choice` is a caller-supplied function
`pick: nat -> nat`; it yields the choice of each pass. An exception that
escapes the code is the `Crash` case of `Common.Outcome`. A `KeyError` that the
code catches is a skip, or `None` where the code stores `NaN`.

Each loop of the source is a method. It is proved equal to a recursive
reference function with the same branches:

| loop | method | reference function |
|---|---|---|
| genre search | `GenreSearch.MatchGenres` | `GenreSearch.Relax` |
| name resolution | `Seeds.ResolveNames` | `Seeds.SuppliedFrom` |
| reference loop | `Seeds.CollectReferences` | `Seeds.Collect` |
| candidate loops | `Candidates.MatchingArtists` and `Candidates.AdmitMatches` | `Candidates.Expand` and `Candidates.Admit` |

The properties the source promises are then proved in two places: as
postconditions and loop invariants of these methods, and as lemmas about the
reference functions. `GenreSearch.Schedule` lists the genre lists that
successive passes search.

Modules, one file each:
- `common.dfy`: `Common`
- `text.dfy`: `Text`, the string operations `strip`, `split`, `join` and `lower`
- `records.dfy`: `Records`, the response shapes and `get_top_track_features`
- `genre_search.dfy`: `GenreSearch`
- `seeds.dfy`: `Seeds`, `get_recently_played`
- `candidates.dfy`: `Candidates`, `get_matching_artists`
- `ranking.dfy`: `Ranking`, the stacked table and the sort and `head(10)` of `get_closest_artists`

## Model

| member | source | states |
|---|---|---|
| Records.TopTrackFeatures | artist_recommender.py:44-62 | The features are empty exactly when there are no top tracks, the first lacks an id or a name, or its audio features cannot be read. Otherwise they are the first top track's audio features tagged with that track's id and name. |
| GenreSearch.QueryIsConjunction | artist_recommender.py:37 | The query for one genre is `genre:"<g>"`. The query for a list is its parts' queries, in list order, joined by `" AND "`. No genres give the empty query. |
| GenreSearch.RemoveFirst | artist_recommender.py:41 | `remove` shortens the list by exactly one. |
| GenreSearch.RemoveFirstKeepsOrder | artist_recommender.py:41 | `remove` keeps everything before and after the first occurrence, in order. |
| GenreSearch.RemoveFirstDropsOne | artist_recommender.py:41 | `remove` takes away exactly one copy of the element, as multisets. |
| GenreSearch.Choice | artist_recommender.py:40 | The chosen position lies in range, and an in-range random value is taken as is. |
| GenreSearch.Drop | artist_recommender.py:40-41 | Each pass leaves exactly one genre fewer. |
| GenreSearch.Projected | artist_recommender.py:39 | The records of a search exist exactly when every hit has `id`, `name` and URL. There is then one record per hit, in order. |
| GenreSearch.Unmatched | artist_recommender.py:39 | The corrected filter yields exactly the records of the page that are not matched yet, and no more of them than the page holds. A duplicate-free page gives a duplicate-free result. |
| GenreSearch.RelaxExtends | artist_recommender.py:39 | Matches are only ever appended: earlier entries are a prefix of the result. |
| GenreSearch.RelaxNoDuplicates | artist_recommender.py:39 | With the corrected filter, no artist record is returned twice, provided no single search lists it twice. |
| GenreSearch.AsWrittenRepeatsMatch | artist_recommender.py:39 | Take two genres and a service that returns the same artist for every search. The loop as written returns that artist twice; the corrected loop returns it once. |
| GenreSearch.ScheduleLength | artist_recommender.py:35-41 | There is one pass per genre, and the first pass searches all of them. |
| GenreSearch.ScheduleShrinks | artist_recommender.py:40-41 | Pass `j` searches `n - j` genres, all taken from the reference's genres (sub-multiset). |
| GenreSearch.RelaxProvenance | artist_recommender.py:38-39 | Every returned record was matched before, or is listed by the search of some pass. |
| GenreSearch.RelaxCrashCause | artist_recommender.py:38-39 | A crash is always a KeyError, and some pass's search could not be read. |
| GenreSearch.RelaxExhausts | artist_recommender.py:35-41 | Fewer than ten results means every pass of the schedule ran, and every search could be read. |
| GenreSearch.MatchGenres | artist_recommender.py:32-42 | The `while` loop computes the reference function `Relax` with the corrected filter, and returns at most 19 records. |
| Text.Strip | artist_recommender.py:76 | `strip` returns the infix left once whitespace is cut from both ends. It keeps no whitespace at either end. |
| Text.StripIdempotent | artist_recommender.py:76 | Stripping twice is stripping once. |
| Text.Split | artist_recommender.py:76 | `split` yields at least one field, and no field contains the separator. |
| Text.JoinSplit | artist_recommender.py:76 | Joining the fields with the separator restores the string. |
| Text.SplitJoin | artist_recommender.py:76 | Splitting a join of separator-free fields restores the fields. |
| Text.SplitCount | artist_recommender.py:76 | There is one field more than there are separators. |
| Seeds.StrippedFields | artist_recommender.py:76 | There is one field per comma plus one. Each field is comma-free and starts and ends with a non-space character. |
| Seeds.SuppliedNames | artist_recommender.py:76-79 | At most the first ten stripped fields are looked up, in order. |
| Seeds.SuppliedNamesRoundTrip | artist_recommender.py:76-79 | Take a list of at most ten fields with no surrounding whitespace. Joining the looked-up names by commas restores it. |
| Seeds.SuppliedNamesClean | artist_recommender.py:76 | Each looked-up name is its own strip and holds no comma. |
| Seeds.Best | artist_recommender.py:82-91 | Picks the hit that the stable descending sort by popularity puts first. That is the first hit named like the request (up to case) with no other such hit more popular. There is none exactly when no hit carries the name. |
| Seeds.Resolve | artist_recommender.py:80-100 | A name is skipped exactly when the search is unreadable, line 82 raises KeyError, or no hit carries the name. It crashes with KeyError exactly when the hit `Best` chooses (the first most popular one so named) has no id. Otherwise the item holds that hit's id and URL (`""` if missing) under the requested name. |
| Seeds.ResolveNames | artist_recommender.py:79-100 | The loop computes `SuppliedFrom`. It yields at most one item per name, each a single artist with id and URL named by one of the names. |
| Seeds.FirstArtist | artist_recommender.py:103-109 | IndexError exactly when the artists list is present but empty. A skip when the track, the list or the first artist's id is missing. Otherwise the first artist. |
| Seeds.CollectReferences | artist_recommender.py:101-133 | The loop computes `Collect` and returns at most ten records with pairwise distinct ids. Each record is traced to its item in input order, carries that item's first artist's id, name and URL, and holds the features looked up for its id. |
| Seeds.CollectGrows | artist_recommender.py:131 | Records are only appended. |
| Seeds.CollectComplete | artist_recommender.py:110-117 | Below the cap, every item whose first artist has an id and features gave a record for that id. |
| Seeds.CollectCrashCause | artist_recommender.py:102-105 | A crash comes from an item whose artists list is empty. |
| Seeds.RecentlyPlayed | artist_recommender.py:71-133 | Without a list, it collects the recently played items, and a reply without `items` crashes with KeyError (line 102). With a list, it collects the items the looked-up names resolve to. Either way there are at most ten references with distinct ids and looked-up features, and with a list every reference is named by a looked-up name. |
| Candidates.AdmitMatches | artist_recommender.py:146-157 | The inner loop computes `Admit`. It only appends records built from the matches, with non-empty ids new to the references and to each other, each holding its artist's features. |
| Candidates.TraceExtends | artist_recommender.py:143-157 | Candidates added for reference `i` are traced to reference `i`. |
| Candidates.MatchingArtists | artist_recommender.py:135-158 | The loops compute `Expand`, and a crash is a KeyError. Every candidate id is non-empty, absent from the references and distinct from the others. Every candidate holds its features and comes from a reference that has genres and matched more than one artist. |
| Candidates.AllIdsDistinct | artist_recommender.py:148 | References with distinct ids and their candidates together carry pairwise distinct ids. |
| Ranking.Table | artist_recommender.py:212-216 | The stacked table is the references tagged `reference` followed by the candidates tagged `artist`. |
| Ranking.CandidateRows | artist_recommender.py:163 | The selection holds exactly the rows tagged `artist`. |
| Ranking.CandidatesRecovered | artist_recommender.py:163 | Selecting the `artist` rows of the stacked table gives back exactly the candidates, in order. |
| Ranking.LeTotalPreorder | artist_recommender.py:168 | The distance order, with NaN last, is reflexive, total and transitive. |
| Ranking.Results | artist_recommender.py:165-167 | There is one result row per candidate row. |
| Ranking.Insert | artist_recommender.py:168 | Inserting into a sorted list keeps it sorted and adds exactly that entry. |
| Ranking.SortByDistance | artist_recommender.py:168 | The sort is in non-decreasing distance and is a permutation of its input. |
| Ranking.Closest | artist_recommender.py:168 | The ranking has `min(10, number of candidates)` entries. |
| Ranking.PrefixIsTop | artist_recommender.py:168 | The first `n` entries of a sorted list are sorted, and no entry after them is closer. |
| Ranking.ClosestIsTop | artist_recommender.py:168 | The ranking is sorted and is a sub-multiset of the results, and no entry left out is closer than an entry kept. |
| Ranking.ClosestFromCandidates | artist_recommender.py:163-168 | Every ranked entry carries the id, name and URL of a row tagged `artist`. |

## Left out

- OAuth and client setup (`initialize_spotify_client`) are left out, and every `sp.*` call is a function of `Records.Api`. Those functions are foreign calls, so a request always gets the same answer, and network exceptions are not modelled.
- `sp.artist` raising is not modelled. That call (line 139) sits outside any `try`.
- `StandardScaler`, `cosine` and `average_cosine_distance` are left out, because they are floating-point numerics in libraries. Distances are inputs to `Ranking.Closest`, one per candidate row.
- pandas DataFrame plumbing beyond the stacked table and the `source` selection is left out, and so is the CSV export. Both are library and file I/O.
- `generate_playlist`, `main` with argparse, `song_recommender.py` and `app.py` are left out. They are remote playlist changes, a timestamp, CLI glue, a duplicate script and UI wiring.
- Printing and tqdm progress are left out, because they carry no logic.
- A JSON `null` track on a recently played item is not modelled. It would raise an uncaught TypeError; only a missing `track` key is modelled.
- The check `if not features` (line 53) is not modelled, because it cannot change the outcome. A null audio-feature entry already raises TypeError at line 51, and the generic `except` turns that into the same empty result.
- `GenreSearch.Choice`: random draws are not modelled. `random.choice` is any position the caller chooses: an in-range draw is taken as is, and an out-of-range one is clamped to the last position. Every sequence of choices is reachable.
- `Candidates.MatchingArtists` gives each reference its own choice function `picks(i)` instead of one shared random stream. The same choice sequences are reachable.
- `Ranking.SortByDistance`: the order of entries with equal distance is fixed to input order. pandas' default sort is not stable and does not promise that order.
- `Text.Lower` implements `str.lower` for ASCII letters only. Other characters are kept unchanged.
- A genre search can return up to 19 artists: up to ten per page, and the loop stops only once ten are matched (`GenreSearch.MatchGenres`).
- `GenreSearch.MatchGenres`: runs the corrected filter of line 39 (an artist already matched is not added again), not the filter as written. As written, a repeated artist counts toward the `len(matched_artists) < 10` exit of line 35, so the model can run passes the source does not run. One of those extra passes can meet an unreadable search and crash with KeyError where the source returns. `GenreSearch.AsWrittenRepeatsMatch` shows the as-written filter on its own.
- `Candidates.MatchingArtists`: uses the corrected genre search, so three effects of line 39 as written are not captured. A reference whose searches find one distinct artist twice passes the `len(matched_artists) <= 1` test of line 144 in the source and adds that artist as a candidate, while the model adds none. Because the corrected search can run extra passes, it can match further artists, which become candidates the source does not produce. Those extra passes can crash with KeyError where the source does not.

## Findings

| source | as written | input that shows it | evidently intended | confidence | as-written member | corrected member |
|---|---|---|---|---|---|---|
| artist_recommender.py:39 | `if artist not in matched_artists` tests the raw search hit, which has `external_urls`, `popularity` and other keys, against `{id, name, artist_url}` records. The test never fails, so an artist found again in a later pass is added again. | Genres `["pop", "rock"]`, every search returns the same one artist, and `random.choice` takes the first genre. The loop returns that artist twice. | Add only artists not already matched. | not executed | GenreSearch.AsWrittenRepeatsMatch | GenreSearch.RelaxNoDuplicates |

The rest of the model uses the corrected filter (`GenreSearch.MatchGenres`).
"## Left out" lists what this changes downstream of line 39: the exit of
line 35, the `len(matched_artists) <= 1` test of line 144, and crashes in
passes the source does not run.
