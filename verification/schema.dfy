/** The backing store's rows: the tables the catalog and watch history live in, and
    the joined shape the catalog select returns. Timestamps (`created_at`,
    `last_watched`) are integers that order the same way as the stored ISO strings. */
module Schema {
  import opened Wrappers

  datatype Kind = Movie | Series

  /** A row of `content`. */
  datatype ContentRecord = ContentRecord(
    id: string,
    title: string,
    description: string,
    kind: Kind,
    releaseYear: int,
    maturityRating: string,
    duration: string,
    posterImage: string,
    backdropImage: string,
    trailerUrl: string,
    videoUrl480p: Option<string>,
    videoUrl720p: Option<string>,
    videoUrl1080p: Option<string>,
    videoUrl4k: Option<string>,
    featured: bool,
    featuredOrder: int,
    createdAt: int)

  /** A row of `genres`. */
  datatype GenreRecord = GenreRecord(id: string, name: string)

  /** A row of `content_genres`, the content-to-genre link table. */
  datatype GenreLink = GenreLink(contentId: string, genreId: string)

  /** A row of `cast_members`. */
  datatype CastMemberRecord = CastMemberRecord(id: string, name: string, photoUrl: string)

  /** A row of `content_cast`: a cast member's role in a content and its explicit order. */
  datatype CastLink = CastLink(contentId: string, castMemberId: string, role: string, order: int)

  /** A row of `series`: the series record attached to a series content. */
  datatype SeriesRecord = SeriesRecord(id: string, contentId: string)

  /** A row of `seasons`. */
  datatype SeasonRecord = SeasonRecord(
    id: string, seriesId: string, seasonNumber: int, title: string, description: string)

  /** A row of `episodes`. */
  datatype EpisodeRecord = EpisodeRecord(
    id: string,
    seasonId: string,
    episodeNumber: int,
    title: string,
    description: string,
    duration: string,
    thumbnail: string,
    videoUrl480p: Option<string>,
    videoUrl720p: Option<string>,
    videoUrl1080p: Option<string>,
    videoUrl4k: Option<string>)

  /** A row of `watch_history`. */
  datatype WatchRecord = WatchRecord(
    id: string, profileId: string, contentId: string, watchTime: int, completed: bool, lastWatched: int)

  /** `content_genres(genres(name))`: one link row with its genre's name. */
  datatype GenreJoin = GenreJoin(genreName: string)

  /** `content_cast(cast_member_id, role, order, cast_members(id, name, photo_url))`. */
  datatype CastJoin = CastJoin(castMemberId: string, role: string, order: int, member: CastMemberRecord)

  /** `seasons(*, episodes(*))`: a season row with its episode rows. */
  datatype SeasonJoin = SeasonJoin(season: SeasonRecord, episodes: seq<EpisodeRecord>)

  /** `series(id, seasons(...))`. */
  datatype SeriesJoin = SeriesJoin(id: string, seasons: seq<SeasonJoin>)

  /** One row of the catalog select: the content row with its embedded relations.
      `series` is absent when the select does not ask for it (the featured select). */
  datatype ContentRow = ContentRow(
    record: ContentRecord,
    contentGenres: seq<GenreJoin>,
    contentCast: seq<CastJoin>,
    series: Option<seq<SeriesJoin>>)
}
