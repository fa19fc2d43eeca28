/** The extracted record: the common `IMedia` properties plus the one property
    that differs between a `Movie` (its running time in minutes) and a `Serie`
    (the raw season text). */
module Media {

  datatype Provider = Netflix | AmazonVOD

  /** `Movie.Time` or `Serie.Seasons`. */
  datatype Kind = Movie(time: int) | Serie(seasons: string)

  datatype MediaRecord = MediaRecord(
    kind: Kind,
    name: string,
    description: string,
    age: string,
    thumbnail: string,
    url: string,
    providerId: string,
    genres: seq<string>,
    actors: seq<string>,
    provider: Provider)
}
