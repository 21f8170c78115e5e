/** `get_recently_played`: the reference artists.  Either the artists of the
    user's recently played tracks, or the artists named in a comma-separated
    list, each resolved by an artist search; then at most ten reference
    records, one per distinct artist id, each with its top track's features. */
module Seeds {
  import opened Common
  import opened Text
  import opened Records

  /** `selected_artists[:10]`: at most this many supplied names are looked up. */
  const SuppliedCap: nat := 10

  /** `len(tracks) >= 10`: the loop stops once this many references are collected. */
  const ReferenceCap: nat := 10

  // ---------------------------------------------------------------------
  // Parsing the supplied list (lines 76 and 79)

  /** `[x.strip() for x in s.split(",")]`. */
  function StrippedFields(s: string): (names: seq<string>)
    ensures |names| == Count(s, ',') + 1
    ensures forall k :: 0 <= k < |names| ==> ',' !in names[k]
    ensures forall k :: 0 <= k < |names| ==> names[k] != [] ==> !IsSpace(names[k][0]) && !IsSpace(names[k][|names[k]| - 1])
  {
    var parts := Split(s, ',');
    SplitCount(s, ',');
    seq(|parts|, k requires 0 <= k < |parts| => Strip(parts[k]))
  }

  /** The names looked up: the first ten stripped fields of the list. */
  function SuppliedNames(selected: string): (names: seq<string>)
    ensures |names| == Min(SuppliedCap, Count(selected, ',') + 1)
    ensures names == StrippedFields(selected)[..|names|]
  {
    Take(StrippedFields(selected), SuppliedCap)
  }

  /** A list of at most ten fields, none with whitespace at either end, is
      read back exactly: joining the names looked up by commas restores it. */
  lemma {:induction false} SuppliedNamesRoundTrip(selected: string)
    requires Count(selected, ',') < SuppliedCap
    requires forall k :: 0 <= k < |Split(selected, ',')| ==> Strip(Split(selected, ',')[k]) == Split(selected, ',')[k]
    ensures Join(SuppliedNames(selected), [',']) == selected
  {
    var parts := Split(selected, ',');
    SplitCount(selected, ',');
    assert SuppliedNames(selected) == parts;
    JoinSplit(selected, ',');
  }

  /** Every name looked up is its own strip and holds no comma. */
  lemma SuppliedNamesClean(selected: string, k: nat)
    requires k < |SuppliedNames(selected)|
    ensures ',' !in SuppliedNames(selected)[k]
    ensures Strip(SuppliedNames(selected)[k]) == SuppliedNames(selected)[k]
  {
    var parts := Split(selected, ',');
    assert SuppliedNames(selected)[k] == Strip(parts[k]);
    StripIdempotent(parts[k]);
  }

  // ---------------------------------------------------------------------
  // Resolving one supplied name (lines 80-100)

  /** `f"artist: {artist}"`. */
  function ArtistQuery(name: string): string {
    "artist: " + name
  }

  /** Whether the hit is named `name`, up to case; `false` for a nameless hit. */
  predicate Named(h: Hit, name: string) {
    h.name.Some? && SameName(h.name.value, name)
  }

  /** Line 82 evaluates without KeyError: every hit has a name, and every hit
      so named has a popularity. */
  predicate Readable(hits: seq<Hit>, name: string) {
    forall k :: 0 <= k < |hits| ==> hits[k].name.Some? && (Named(hits[k], name) ==> hits[k].popularity.Some?)
  }

  /** The position of `sorted(matches, key=popularity, reverse=True)[0]` among
      the hits: the first hit named `name` whose popularity no other such hit
      exceeds (Python's sort is stable, also in reverse); `None` when no hit is
      so named. */
  function Best(hits: seq<Hit>, name: string): (r: Option<nat>)
    requires Readable(hits, name)
    ensures r.None? <==> forall k :: 0 <= k < |hits| ==> !Named(hits[k], name)
    ensures r.Some? ==> r.value < |hits| && Named(hits[r.value], name)
    ensures r.Some? ==> forall k :: 0 <= k < |hits| && Named(hits[k], name) ==>
      hits[k].popularity.value <= hits[r.value].popularity.value
    ensures r.Some? ==> forall k :: 0 <= k < r.value && Named(hits[k], name) ==>
      hits[k].popularity.value < hits[r.value].popularity.value
    decreases |hits|
  {
    if hits == [] then None
    else
      assert Readable(hits[1..], name) by {
        forall k | 0 <= k < |hits[1..]|
          ensures hits[1..][k].name.Some? && (Named(hits[1..][k], name) ==> hits[1..][k].popularity.Some?)
        {
          assert hits[1..][k] == hits[k + 1];
        }
      }
      var rest := Best(hits[1..], name);
      assert forall k :: 1 <= k < |hits| ==> hits[k] == hits[1..][k - 1];
      if !Named(hits[0], name) then
        if rest.None? then None else Some(rest.value + 1)
      else if rest.None? || hits[0].popularity.value >= hits[rest.value + 1].popularity.value then Some(0)
      else Some(rest.value + 1)
  }

  /** The play item lines 96-100 build for a resolved name. */
  function SuppliedItem(id: string, name: string, url: string): PlayItem {
    PlayItem(Some(Track(Some([ArtistRef(Some(id), Some(name), Some(url))]))))
  }

  /** One supplied name: `Ok(None)` when it is skipped (no readable search
      result, a KeyError at line 82, or no hit of that name), the item built
      from the chosen hit otherwise, and KeyError when that hit has no id. */
  function Resolve(name: string, response: Option<seq<Hit>>): (r: Outcome<Option<PlayItem>>)
    ensures r.Ok? && r.value.None? <==>
      response.None? || !Readable(response.value, name) || forall h :: h in response.value ==> !Named(h, name)
    ensures r.Crash? ==> r.fault == KeyError
    ensures r.Ok? && r.value.Some? ==>
      exists h :: (h in response.value && Named(h, name) && h.id.Some?
                   && r.value.value == SuppliedItem(h.id.value, name, h.url.GetOr("")))
    ensures r.Crash? <==>
      response.Some? && Readable(response.value, name) && Best(response.value, name).Some?
      && response.value[Best(response.value, name).value].id.None?
    ensures r.Ok? && r.value.Some? ==>
      var h := response.value[Best(response.value, name).value];
      r.value.value == SuppliedItem(h.id.value, name, h.url.GetOr(""))
  {
    if response.None? || !Readable(response.value, name) then Ok(None)
    else
      var hits := response.value;
      match Best(hits, name)
      case None =>
        assert forall h :: h in hits ==> !Named(h, name) by {
          forall h | h in hits ensures !Named(h, name) {
            var k :| 0 <= k < |hits| && hits[k] == h;
          }
        }
        Ok(None)
      case Some(i) =>
        var chosen := hits[i];
        if chosen.id.None? then Crash(KeyError)
        else Ok(Some(SuppliedItem(chosen.id.value, name, chosen.url.GetOr(""))))
  }

  /** The items the supplied names resolve to, from name `i` on, after `acc`. */
  function SuppliedFrom(names: seq<string>, i: nat, acc: seq<PlayItem>, search: string -> Option<seq<Hit>>): Outcome<seq<PlayItem>>
    decreases |names| - i
  {
    if i >= |names| then Ok(acc)
    else
      match Resolve(names[i], search(ArtistQuery(names[i])))
      case Crash(f) => Crash(f)
      case Ok(None) => SuppliedFrom(names, i + 1, acc, search)
      case Ok(Some(item)) => SuppliedFrom(names, i + 1, acc + [item], search)
  }

  /** The item holds one artist, with an id and a URL, named by one of `names`. */
  predicate FromNames(item: PlayItem, names: seq<string>) {
    && item.track.Some? && item.track.value.artists.Some? && |item.track.value.artists.value| == 1
    && var a := item.track.value.artists.value[0];
       a.id.Some? && a.url.Some? && a.name.Some? && a.name.value in names
  }

  /** The loop of lines 79-100: one item per name that resolves, in order. */
  method ResolveNames(names: seq<string>, search: string -> Option<seq<Hit>>) returns (r: Outcome<seq<PlayItem>>)
    ensures r == SuppliedFrom(names, 0, [], search)
    ensures r.Crash? ==> r.fault == KeyError
    ensures r.Ok? ==> |r.value| <= |names| && forall k :: 0 <= k < |r.value| ==> FromNames(r.value[k], names)
  {
    var items: seq<PlayItem> := [];
    for i := 0 to |names|
      invariant SuppliedFrom(names, i, items, search) == SuppliedFrom(names, 0, [], search)
      invariant |items| <= i
      invariant forall k :: 0 <= k < |items| ==> FromNames(items[k], names)
    {
      var artist := names[i];
      var resolved := Resolve(artist, search(ArtistQuery(artist)));
      if resolved.Crash? {
        return Crash(resolved.fault);
      }
      if resolved.value.Some? {
        items := items + [resolved.value.value];
      }
    }
    r := Ok(items);
  }

  // ---------------------------------------------------------------------
  // Building the references (lines 101-133)

  /** `item['track']['artists'][0]` when it has an `id`: `Ok(None)` for the
      KeyErrors lines 103-109 catch, IndexError for an empty artists list,
      which nothing catches. */
  function FirstArtist(item: PlayItem): (r: Outcome<Option<ArtistRef>>)
    ensures r.Crash? <==> item.track.Some? && item.track.value.artists == Some([])
    ensures r.Crash? ==> r.fault == IndexError
    ensures r.Ok? && r.value.Some? <==>
      item.track.Some? && item.track.value.artists.Some? && item.track.value.artists.value != []
      && item.track.value.artists.value[0].id.Some?
    ensures r.Ok? && r.value.Some? ==> r.value.value == item.track.value.artists.value[0]
  {
    match item.track
    case None => Ok(None)
    case Some(track) =>
      match track.artists
      case None => Ok(None)
      case Some(artists) =>
        if artists == [] then Crash(IndexError)
        else if artists[0].id.None? then Ok(None)
        else Ok(Some(artists[0]))
  }

  /** The record of lines 118-131 for a first artist with id. */
  function RecordOf(a: ArtistRef, f: Features): Row
    requires a.id.Some?
  {
    Row(a.id.value, a.name, a.url, f)
  }

  /** What the loop returns given the items from `i` on and the records
      `rows` collected so far. */
  function Collect(items: seq<PlayItem>, i: nat, rows: seq<Row>, api: Api): Outcome<seq<Row>>
    decreases |items| - i
  {
    if i >= |items| then Ok(rows)
    else
      match FirstArtist(items[i])
      case Crash(f) => Crash(f)
      case Ok(None) => Collect(items, i + 1, rows, api)
      case Ok(Some(a)) =>
        if a.id.value in Ids(rows) then Collect(items, i + 1, rows, api)
        else if |rows| >= ReferenceCap then Ok(rows)
        else
          match Lookup(api, a.id.value)
          case None => Collect(items, i + 1, rows, api)
          case Some(f) => Collect(items, i + 1, rows + [RecordOf(a, f)], api)
  }

  /** Record `row` was built from `item`: same artist id, name and URL. */
  predicate RowOf(item: PlayItem, row: Row) {
    FirstArtist(item) == Ok(Some(ArtistRef(Some(row.artistId), row.name, row.url)))
  }

  /** Every record traced to the item it came from, in input order, and
      carrying the features of its artist's top track. */
  ghost predicate Traced(items: seq<PlayItem>, rows: seq<Row>, origin: seq<nat>, api: Api) {
    && |origin| == |rows|
    && (forall k :: 0 <= k < |rows| ==> origin[k] < |items| && RowOf(items[origin[k]], rows[k]))
    && (forall k, l :: 0 <= k < l < |rows| ==> origin[k] < origin[l])
    && (forall k :: 0 <= k < |rows| ==> Lookup(api, rows[k].artistId) == Some(rows[k].features))
  }

  lemma IdsAppend(rows: seq<Row>, row: Row)
    ensures Ids(rows + [row]) == Ids(rows) + [row.artistId]
  {
  }

  /** The loop of lines 102-133.  `origin[k]` is the position of the item
      record `k` was built from. */
  method CollectReferences(items: seq<PlayItem>, api: Api) returns (r: Outcome<seq<Row>>, ghost origin: seq<nat>)
    ensures r == Collect(items, 0, [], api)
    ensures r.Crash? ==> r.fault == IndexError
    ensures r.Ok? ==> |r.value| <= ReferenceCap && Distinct(Ids(r.value))
    ensures r.Ok? ==> Traced(items, r.value, origin, api)
  {
    var tracks: seq<Row> := [];
    origin := [];
    for idx := 0 to |items|
      invariant Collect(items, idx, tracks, api) == Collect(items, 0, [], api)
      invariant |tracks| <= ReferenceCap && Distinct(Ids(tracks))
      invariant Traced(items, tracks, origin, api)
      invariant forall k :: 0 <= k < |origin| ==> origin[k] < idx
    {
      var first := FirstArtist(items[idx]);
      if first.Crash? {
        return Crash(first.fault), origin;
      }
      if first.value.None? {
        continue;
      }
      var artist := first.value.value;
      var artistId := artist.id.value;
      if artistId in Ids(tracks) {
        continue;
      } else if |tracks| >= ReferenceCap {
        return Ok(tracks), origin;
      }
      var features := Lookup(api, artistId);
      if features.None? {
        continue;
      }
      IdsAppend(tracks, RecordOf(artist, features.value));
      tracks := tracks + [RecordOf(artist, features.value)];
      origin := origin + [idx];
    }
    r := Ok(tracks);
  }

  /** No eligible artist is passed over: when the loop ends below the cap,
      every item from `i` on whose first artist has an id and features gave a
      record for that id. */
  lemma {:induction false} CollectComplete(items: seq<PlayItem>, i: nat, rows: seq<Row>, api: Api, j: nat)
    requires Collect(items, i, rows, api).Ok? && |Collect(items, i, rows, api).value| < ReferenceCap
    requires i <= j < |items| && FirstArtist(items[j]).Ok? && FirstArtist(items[j]).value.Some?
    requires Lookup(api, FirstArtist(items[j]).value.value.id.value).Some?
    ensures FirstArtist(items[j]).value.value.id.value in Ids(Collect(items, i, rows, api).value)
    decreases |items| - i
  {
    var out := Collect(items, i, rows, api).value;
    CollectGrows(items, i, rows, api);
    var a := FirstArtist(items[i]).value;
    if a.Some? && a.value.id.value !in Ids(rows) && |rows| < ReferenceCap && Lookup(api, a.value.id.value).Some? {
      var next := rows + [RecordOf(a.value, Lookup(api, a.value.id.value).value)];
      IdsAppend(rows, next[|rows|]);
      if i < j {
        CollectComplete(items, i + 1, next, api, j);
      } else {
        CollectGrows(items, i + 1, next, api);
        assert Ids(next) <= Ids(out) by { IdsPrefix(next, out); }
        assert Ids(next)[|rows|] == a.value.id.value;
      }
    } else if i < j {
      CollectComplete(items, i + 1, rows, api, j);
    } else {
      assert a.Some? && a.value.id.value in Ids(rows);
      IdsPrefix(rows, out);
      var p :| 0 <= p < |Ids(rows)| && Ids(rows)[p] == a.value.id.value;
      assert Ids(out)[p] == a.value.id.value;
    }
  }

  lemma IdsPrefix(a: seq<Row>, b: seq<Row>)
    requires a <= b
    ensures Ids(a) <= Ids(b)
  {
  }

  /** The loop only appends: the records collected so far are a prefix of the result. */
  lemma {:induction false} CollectGrows(items: seq<PlayItem>, i: nat, rows: seq<Row>, api: Api)
    requires Collect(items, i, rows, api).Ok?
    ensures rows <= Collect(items, i, rows, api).value
    decreases |items| - i
  {
    if i < |items| && FirstArtist(items[i]).value.Some? {
      var a := FirstArtist(items[i]).value.value;
      if a.id.value in Ids(rows) {
        CollectGrows(items, i + 1, rows, api);
      } else if |rows| < ReferenceCap && Lookup(api, a.id.value).None? {
        CollectGrows(items, i + 1, rows, api);
      } else if |rows| < ReferenceCap {
        CollectGrows(items, i + 1, rows + [RecordOf(a, Lookup(api, a.id.value).value)], api);
      }
    } else if i < |items| {
      CollectGrows(items, i + 1, rows, api);
    }
  }

  /** The run crashes exactly at an item, not skipped before the cap was
      reached, whose artists list is empty. */
  lemma {:induction false} CollectCrashCause(items: seq<PlayItem>, i: nat, rows: seq<Row>, api: Api)
    requires Collect(items, i, rows, api).Crash?
    ensures exists j :: i <= j < |items| && items[j].track.Some? && items[j].track.value.artists == Some([])
    decreases |items| - i
  {
    if FirstArtist(items[i]).Ok? {
      var a := FirstArtist(items[i]).value;
      if a.Some? && a.value.id.value !in Ids(rows) && Lookup(api, a.value.id.value).Some? {
        CollectCrashCause(items, i + 1, rows + [RecordOf(a.value, Lookup(api, a.value.id.value).value)], api);
      } else {
        CollectCrashCause(items, i + 1, rows, api);
      }
    }
  }

  // ---------------------------------------------------------------------
  // The whole function

  /** The references built from the recently played items when no list is
      supplied (KeyError at line 102 when the reply has no `items`), from the
      items the first ten supplied names resolve to otherwise. */
  function References(limit: nat, selected: string, api: Api): Outcome<seq<Row>> {
    if selected == [] then
      match api.recentlyPlayed(limit)
      case None => Crash(KeyError)
      case Some(items) => Collect(items, 0, [], api)
    else
      match SuppliedFrom(SuppliedNames(selected), 0, [], api.search)
      case Crash(f) => Crash(f)
      case Ok(items) => Collect(items, 0, [], api)
  }

  /** `get_recently_played(limit, selected_artists)`. */
  method RecentlyPlayed(limit: nat, selected: string, api: Api) returns (r: Outcome<seq<Row>>)
    ensures r == References(limit, selected, api)
    ensures selected == [] && api.recentlyPlayed(limit).None? ==> r == Crash(KeyError)
    ensures r.Ok? ==> |r.value| <= ReferenceCap && Distinct(Ids(r.value))
    ensures r.Ok? ==> forall k :: 0 <= k < |r.value| ==> Lookup(api, r.value[k].artistId) == Some(r.value[k].features)
    ensures r.Ok? && selected != [] ==>
      forall k :: 0 <= k < |r.value| ==> r.value[k].name.Some? && r.value[k].name.value in SuppliedNames(selected)
  {
    var items: seq<PlayItem>;
    if |selected| == 0 {
      var reply := api.recentlyPlayed(limit);
      if reply.None? {
        return Crash(KeyError);
      }
      items := reply.value;
    } else {
      var names := SuppliedNames(selected);
      var resolved := ResolveNames(names, api.search);
      if resolved.Crash? {
        return Crash(resolved.fault);
      }
      items := resolved.value;
    }
    ghost var origin;
    r, origin := CollectReferences(items, api);
    if r.Ok? && selected != [] {
      forall k | 0 <= k < |r.value|
        ensures r.value[k].name.Some? && r.value[k].name.value in SuppliedNames(selected)
      {
        var item := items[origin[k]];
        assert FromNames(item, SuppliedNames(selected));
        assert RowOf(item, r.value[k]);
      }
    }
  }
}
