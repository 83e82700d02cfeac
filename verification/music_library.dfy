/**
 * The music library service: the catalog of artists, albums, genres and
 * tracks imported from Spotify. Each kind sits in its own table keyed by its
 * natural key (the Spotify id; a genre's name), and each `create` recovers
 * from losing a race with a concurrent importer by fetching the record that
 * won instead of failing.
 */
module MusicLibrary {
  import opened Wrappers
  import opened Catalog

  /** Where a catalog entity lives on Spotify; `id` is its natural key. */
  datatype SpotifyLibraryDetails = SpotifyLibraryDetails(id: string, uri: string, href: string)

  datatype Genre = Genre(name: string)

  /** `updatedAt` is the instant (ms since the epoch) the artist was last refreshed. */
  datatype Artist = Artist(name: string, genres: seq<Genre>, spotify: SpotifyLibraryDetails, updatedAt: int)

  datatype Album = Album(name: string, artists: seq<Artist>, spotify: SpotifyLibraryDetails)

  datatype Track = Track(name: string, artists: seq<Artist>, album: Album, spotify: SpotifyLibraryDetails)

  datatype CreateArtistDto = CreateArtistDto(name: string, genres: seq<Genre>, spotify: SpotifyLibraryDetails)

  datatype CreateAlbumDto = CreateAlbumDto(name: string, artists: seq<Artist>, spotify: SpotifyLibraryDetails)

  datatype CreateGenreDto = CreateGenreDto(name: string)

  datatype CreateTrackDto = CreateTrackDto(name: string, artists: seq<Artist>, album: Album, spotify: SpotifyLibraryDetails)

  /** The fields an artist refresh may overwrite. */
  datatype ArtistFields = ArtistFields(name: string, genres: seq<Genre>)

  /** The unique indexes on the natural keys. */
  const IDX_ARTIST_SPOTIFY_ID: string := "IDX_ARTIST_SPOTIFY_ID"
  const IDX_ALBUM_SPOTIFY_ID: string := "IDX_ALBUM_SPOTIFY_ID"
  const IDX_GENRE_NAME: string := "IDX_GENRE_NAME"
  const IDX_TRACK_SPOTIFY_ID: string := "IDX_TRACK_SPOTIFY_ID"

  function ArtistKey(a: Artist): string { a.spotify.id }
  function AlbumKey(a: Album): string { a.spotify.id }
  function GenreKey(g: Genre): string { g.name }
  function TrackKey(t: Track): string { t.spotify.id }

  /** The artist whose refresh is the oldest of all stored. */
  predicate IsOldest(artists: map<string, Artist>, key: string)
  {
    key in artists && forall k | k in artists :: artists[key].updatedAt <= artists[k].updatedAt
  }

  /** Every non-empty table of artists has a least recently refreshed one. */
  lemma {:induction false} OldestExists(artists: map<string, Artist>)
    requires artists != map[]
    ensures exists key :: IsOldest(artists, key)
    decreases |artists|
  {
    var k0 :| k0 in artists;
    var rest := artists - {k0};
    assert forall k | k in artists :: k == k0 || k in rest;
    if rest == map[] {
      assert IsOldest(artists, k0);
    } else {
      assert |rest| < |artists| by {
        assert rest.Keys < artists.Keys;
      }
      OldestExists(rest);
      var k1 :| IsOldest(rest, k1);
      if artists[k0].updatedAt <= artists[k1].updatedAt {
        assert IsOldest(artists, k0);
      } else {
        assert IsOldest(artists, k1);
      }
    }
  }

  class MusicLibraryService {
    var artists: map<string, Artist>
    var albums: map<string, Album>
    var genres: map<string, Genre>
    var tracks: map<string, Track>

    /** One record per natural key in every table. */
    ghost predicate Valid()
      reads this
    {
      && KeyedBy(artists, ArtistKey)
      && KeyedBy(albums, AlbumKey)
      && KeyedBy(genres, GenreKey)
      && KeyedBy(tracks, TrackKey)
    }

    /**
     * A service over the four injected tables, as the store holds them: the
     * unique indexes keep one record per natural key in each.
     */
    constructor (artists0: map<string, Artist>, albums0: map<string, Album>,
                 genres0: map<string, Genre>, tracks0: map<string, Track>)
      requires KeyedBy(artists0, ArtistKey) && KeyedBy(albums0, AlbumKey)
      requires KeyedBy(genres0, GenreKey) && KeyedBy(tracks0, TrackKey)
      ensures Valid()
      ensures artists == artists0 && albums == albums0 && genres == genres0 && tracks == tracks0
    {
      artists, albums, genres, tracks := artists0, albums0, genres0, tracks0;
    }

    /** `findArtist`: the artist with this Spotify id, if one is stored. */
    method FindArtist(spotifyId: string) returns (r: Option<Artist>)
      requires Valid()
      ensures r.Some? <==> spotifyId in artists
      ensures r.Some? ==> r.value == artists[spotifyId] && r.value.spotify.id == spotifyId
    {
      r := Lookup(artists, spotifyId);
    }

    /**
     * `getArtistWithOldestUpdate`: the first artist in ascending `updatedAt`
     * order, or none when there are no artists. Which of several equally old
     * artists comes first is the store's choice.
     */
    method GetArtistWithOldestUpdate() returns (r: Option<Artist>)
      ensures r.None? <==> artists == map[]
      ensures r.Some? ==> r.value in artists.Values && forall a | a in artists.Values :: r.value.updatedAt <= a.updatedAt
    {
      if artists == map[] {
        return None;
      }
      OldestExists(artists);
      var key :| key in artists && IsOldest(artists, key);
      return Some(artists[key]);
    }

    /**
     * `createArtist`: file a new artist with the given name, genres and
     * Spotify details; if the artist's Spotify id index rejects it, answer
     * with the artist stored under that id; rethrow any other failure.
     * `now` stamps the new artist's `updatedAt`; `fault` is the store's own
     * failure, if any.
     */
    method CreateArtist(data: CreateArtistDto, now: int, fault: Option<SaveError>) returns (r: Result<Option<Artist>, SaveError>)
      requires Valid()
      modifies this
      ensures Valid()
      ensures (artists, r) == CreateOrFetch(old(artists), ArtistKey, IDX_ARTIST_SPOTIFY_ID,
                                            Artist(data.name, data.genres, data.spotify, now), fault)
      ensures albums == old(albums) && genres == old(genres) && tracks == old(tracks)
    {
      var artist := Artist(data.name, data.genres, data.spotify, now);
      var (stored, err) := Insert(artists, ArtistKey, IDX_ARTIST_SPOTIFY_ID, artist, fault);
      artists := stored;
      if err.Some? {
        if err.value == UniqueViolation(IDX_ARTIST_SPOTIFY_ID) {
          var found := FindArtist(data.spotify.id);
          return Success(found);
        }
        return Failure(err.value);
      }
      return Success(Some(artist));
    }

    /**
     * `updateArtist`: overwrite the artist's name and genres, stamp it
     * refreshed at `now` and save it; the saved artist is returned, or the
     * store's failure.
     */
    method UpdateArtist(artist: Artist, updatedFields: ArtistFields, now: int, fault: Option<SaveError>)
      returns (r: Result<Artist, SaveError>)
      requires Valid()
      modifies this
      ensures Valid()
      ensures var updated := artist.(name := updatedFields.name, genres := updatedFields.genres, updatedAt := now);
        && (artists, r.Failure?) == (Update(old(artists), ArtistKey, updated, fault).0, fault.Some?)
        && (r.Success? ==> r.value == updated)
        && (r.Failure? ==> r.error == fault.value)
      ensures albums == old(albums) && genres == old(genres) && tracks == old(tracks)
    {
      var updated := artist.(name := updatedFields.name, genres := updatedFields.genres, updatedAt := now);
      var (stored, err) := Update(artists, ArtistKey, updated, fault);
      artists := stored;
      UpdateOnlyTouchesItsKey(old(artists), ArtistKey, updated, fault);
      if err.Some? {
        return Failure(err.value);
      }
      return Success(updated);
    }

    /** `findAlbum`: the album with this Spotify id, if one is stored. */
    method FindAlbum(spotifyId: string) returns (r: Option<Album>)
      requires Valid()
      ensures r.Some? <==> spotifyId in albums
      ensures r.Some? ==> r.value == albums[spotifyId] && r.value.spotify.id == spotifyId
    {
      r := Lookup(albums, spotifyId);
    }

    /** `createAlbum`: create-or-fetch on the album's Spotify id index. */
    method CreateAlbum(data: CreateAlbumDto, fault: Option<SaveError>) returns (r: Result<Option<Album>, SaveError>)
      requires Valid()
      modifies this
      ensures Valid()
      ensures (albums, r) == CreateOrFetch(old(albums), AlbumKey, IDX_ALBUM_SPOTIFY_ID,
                                           Album(data.name, data.artists, data.spotify), fault)
      ensures artists == old(artists) && genres == old(genres) && tracks == old(tracks)
    {
      var album := Album(data.name, data.artists, data.spotify);
      var (stored, err) := Insert(albums, AlbumKey, IDX_ALBUM_SPOTIFY_ID, album, fault);
      albums := stored;
      if err.Some? {
        if err.value == UniqueViolation(IDX_ALBUM_SPOTIFY_ID) {
          var found := FindAlbum(data.spotify.id);
          return Success(found);
        }
        return Failure(err.value);
      }
      return Success(Some(album));
    }

    /** `findGenre`: the genre with this name, if one is stored. */
    method FindGenre(name: string) returns (r: Option<Genre>)
      requires Valid()
      ensures r.Some? <==> name in genres
      ensures r.Some? ==> r.value == genres[name] && r.value.name == name
    {
      r := Lookup(genres, name);
    }

    /** `createGenre`: create-or-fetch on the genre name index. */
    method CreateGenre(data: CreateGenreDto, fault: Option<SaveError>) returns (r: Result<Option<Genre>, SaveError>)
      requires Valid()
      modifies this
      ensures Valid()
      ensures (genres, r) == CreateOrFetch(old(genres), GenreKey, IDX_GENRE_NAME, Genre(data.name), fault)
      ensures artists == old(artists) && albums == old(albums) && tracks == old(tracks)
    {
      var genre := Genre(data.name);
      var (stored, err) := Insert(genres, GenreKey, IDX_GENRE_NAME, genre, fault);
      genres := stored;
      if err.Some? {
        if err.value == UniqueViolation(IDX_GENRE_NAME) {
          var found := FindGenre(data.name);
          return Success(found);
        }
        return Failure(err.value);
      }
      return Success(Some(genre));
    }

    /** `findTrack`: the track with this Spotify id, if one is stored. */
    method FindTrack(spotifyId: string) returns (r: Option<Track>)
      requires Valid()
      ensures r.Some? <==> spotifyId in tracks
      ensures r.Some? ==> r.value == tracks[spotifyId] && r.value.spotify.id == spotifyId
    {
      r := Lookup(tracks, spotifyId);
    }

    /** `createTrack`: create-or-fetch on the track's Spotify id index. */
    method CreateTrack(data: CreateTrackDto, fault: Option<SaveError>) returns (r: Result<Option<Track>, SaveError>)
      requires Valid()
      modifies this
      ensures Valid()
      ensures (tracks, r) == CreateOrFetch(old(tracks), TrackKey, IDX_TRACK_SPOTIFY_ID,
                                           Track(data.name, data.artists, data.album, data.spotify), fault)
      ensures artists == old(artists) && albums == old(albums) && genres == old(genres)
    {
      var track := Track(data.name, data.artists, data.album, data.spotify);
      var (stored, err) := Insert(tracks, TrackKey, IDX_TRACK_SPOTIFY_ID, track, fault);
      tracks := stored;
      if err.Some? {
        if err.value == UniqueViolation(IDX_TRACK_SPOTIFY_ID) {
          var found := FindTrack(data.spotify.id);
          return Success(found);
        }
        return Failure(err.value);
      }
      return Success(Some(track));
    }
  }

  /**
   * A refreshed artist keeps its Spotify identity, takes the new name and
   * genres, and is stamped with the refresh time.
   */
  lemma UpdatedArtistFields(artist: Artist, updatedFields: ArtistFields, now: int)
    ensures var updated := artist.(name := updatedFields.name, genres := updatedFields.genres, updatedAt := now);
      && ArtistKey(updated) == ArtistKey(artist) && updated.spotify == artist.spotify
      && updated.name == updatedFields.name && updated.genres == updatedFields.genres && updated.updatedAt == now
  {
  }
}
