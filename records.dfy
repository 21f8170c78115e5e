/** The shapes of the music service's responses that the recommender reads,
    the feature records it builds, and the service itself as a bundle of
    functions from request to response.  A field the code reads with
    `d[key]` is an `Option`, `None` when the key is absent. */
module Records {
  import opened Common

  /** The numeric audio features of a track; the model never looks inside them. */
  type AudioValues = seq<real>

  /** One item of an artist search: `id`, `name`, `popularity` and
      `external_urls.spotify` (`url`). */
  datatype Hit = Hit(id: Option<string>, name: Option<string>, popularity: Option<int>, url: Option<string>)

  /** One entry of a track's `artists` list. */
  datatype ArtistRef = ArtistRef(id: Option<string>, name: Option<string>, url: Option<string>)

  /** The `track` object of a recently played item, with its `artists` list. */
  datatype Track = Track(artists: Option<seq<ArtistRef>>)

  /** One element of `items` in the recently played response. */
  datatype PlayItem = PlayItem(track: Option<Track>)

  /** One element of an artist's `tracks` list in the top-tracks response. */
  datatype TopTrack = TopTrack(id: Option<string>, name: Option<string>)

  /** A non-empty features dictionary: the service's audio features plus the
      `track_id` and `track_name` of the artist's top track. */
  datatype Features = Features(trackId: string, trackName: string, audio: AudioValues)

  /** A reference or candidate record: the features plus `artist_id`,
      `name` and `artist_url`; `None` stands for the `NaN` stored when the
      name or the URL could not be read. */
  datatype Row = Row(artistId: string, name: Option<string>, url: Option<string>, features: Features)

  /** `[x['artist_id'] for x in rows]`. */
  function Ids(rows: seq<Row>): seq<string> {
    seq(|rows|, k requires 0 <= k < |rows| => rows[k].artistId)
  }

  /** The remote service, one function per endpoint the core calls:
      - `recentlyPlayed(limit)`: the `items` of the user's recently played tracks, `None` when the key is absent;
      - `search(q)`: `artists.items` of an artist search, `None` when that key path is absent;
      - `artistGenres(id)`: the artist's `genres`, `None` when the key is absent;
      - `topTracks(id)`: the artist's `tracks`, `None` when the request or the key fails;
      - `audioFeatures(trackId)`: the track's audio features, `None` when the request fails or yields null. */
  datatype Api = Api(
    recentlyPlayed: nat -> Option<seq<PlayItem>>,
    search: string -> Option<seq<Hit>>,
    artistGenres: string -> Option<seq<string>>,
    topTracks: string -> Option<seq<TopTrack>>,
    audioFeatures: string -> Option<AudioValues>)

  /** `get_top_track_features`: the audio features of the artist's first top
      track, tagged with that track's id and name; `None` for the empty
      dictionary the source returns when any step fails. */
  function TopTrackFeatures(tracks: Option<seq<TopTrack>>, audio: string -> Option<AudioValues>): (r: Option<Features>)
    ensures r.None? <==>
      || tracks.None? || tracks.value == []
      || tracks.value[0].id.None? || tracks.value[0].name.None?
      || audio(tracks.value[0].id.value).None?
    ensures r.Some? ==>
      && r.value.trackId == tracks.value[0].id.value
      && r.value.trackName == tracks.value[0].name.value
      && Some(r.value.audio) == audio(r.value.trackId)
  {
    match tracks
    case None => None
    case Some(ts) =>
      if ts == [] then None
      else
        match (ts[0].id, ts[0].name)
        case (Some(id), Some(name)) =>
          (match audio(id)
           case None => None
           case Some(values) => Some(Features(id, name, values)))
        case _ => None
  }

  /** `get_top_track_features(artist_id)` against the service. */
  function Lookup(api: Api, artistId: string): Option<Features> {
    TopTrackFeatures(api.topTracks(artistId), api.audioFeatures)
  }
}
