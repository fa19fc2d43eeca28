/** `NetflixScraper.Scrape` and `NetflixScraper.IsMediaValid`: how one title's
    detail view becomes a record, and which records are kept. The browser
    reads are the input: a `DetailPage` holds what the detail view shows. */
module MediaScrape {
  import opened Wrappers
  import opened Text
  import opened Media
  import Duration

  /** One `.previewModal--tags` block: its `data-uia` attribute and the texts
      of its links. */
  datatype TagContainer = TagContainer(dataUia: string, tags: seq<string>)

  /** What the detail view of one title gives.
      `NoModal`: the driver-level lookup of the `detail-modal` element found
      nothing (a WebDriverException there is swallowed by the driver wrapper).
      `ModalFault`: a read inside the modal raised a WebDriverException; the
      element-level wrapper has no handler there and rethrows it.
      `Modal`: the texts read from the modal, the duration not yet
      lower-cased. The box art's `alt` and `src` attributes are `None` when
      the element lacks them (`GetAttribute` gives null). */
  datatype DetailPage =
    | NoModal
    | ModalFault
    | Modal(duration: string, boxartAlt: Option<string>, boxartSrc: Option<string>, synopsis: string,
            year: string, containers: seq<TagContainer>)

  const PersonTags: string := "previewModal--tags-person"
  const GenreTags: string := "previewModal--tags-genre"
  const WatchUrlPrefix: string := "https://www.netflix.com/watch/"

  /** The season marker, in English or French. */
  predicate IsSeasonText(duration: string) {
    Contains(duration, "season") || Contains(duration, "saison")
  }

  /** Series or movie, chosen from the lower-cased duration text. */
  function MediaKind(duration: string): (r: Result<Kind>)
    ensures r.Ok? && r.value.Serie? <==> IsSeasonText(duration)
    ensures r.Ok? && r.value.Serie? ==> r.value.seasons == duration
    ensures r.Ok? && r.value.Movie? ==> Duration.ParseDuration(duration) == Ok(r.value.time)
    ensures r.Threw? <==> !IsSeasonText(duration) && Duration.ParseDuration(duration).Threw?
    ensures r.Threw? ==> r.error == NotImplementedException
  {
    if IsSeasonText(duration) then Ok(Serie(duration))
    else match Duration.ParseDuration(duration)
      case Ok(minutes) => Ok(Movie(minutes))
      case Threw(e) => Threw(e)
  }

  /** A tag is kept when it is not empty and does not contain "plus". */
  predicate KeepsTag(t: string) {
    t != "" && !Contains(t, "plus")
  }

  /** The kept tags of one block, commas removed, in page order. */
  function FilterTags(tags: seq<string>): (r: seq<string>)
    ensures |r| <= |tags|
    ensures forall x :: x in r ==> ',' !in x
    ensures forall x :: x in r <==> exists t :: t in tags && KeepsTag(t) && x == RemoveChar(t, ',')
  {
    if tags == [] then []
    else
      var rest := FilterTags(tags[1..]);
      assert forall t :: t in tags <==> t == tags[0] || t in tags[1..];
      if KeepsTag(tags[0]) then [RemoveChar(tags[0], ',')] + rest else rest
  }

  /** The kept tags of every block whose `data-uia` is `uia`, in page order. */
  function TagsOf(containers: seq<TagContainer>, uia: string): (r: seq<string>)
    ensures forall x :: x in r ==> ',' !in x
  {
    if containers == [] then []
    else
      var here := if containers[0].dataUia == uia then FilterTags(containers[0].tags) else [];
      here + TagsOf(containers[1..], uia)
  }

  /** A tag is listed exactly when some block with that `data-uia` keeps it
      (by the contract of `FilterTags`: holds a kept tag that reads as it
      once its commas are removed). */
  lemma {:induction false} TagsOfMembers(containers: seq<TagContainer>, uia: string, x: string)
    ensures x in TagsOf(containers, uia) <==>
      exists c :: c in containers && c.dataUia == uia && x in FilterTags(c.tags)
    decreases |containers|
  {
    if containers != [] {
      var c0 := containers[0];
      TagsOfMembers(containers[1..], uia, x);
      if x in TagsOf(containers, uia) {
        if !(c0.dataUia == uia && x in FilterTags(c0.tags)) {
          var c :| c in containers[1..] && c.dataUia == uia && x in FilterTags(c.tags);
          assert c in containers;
        }
      } else {
        forall c | c in containers && c.dataUia == uia
          ensures x !in FilterTags(c.tags)
        {
          if c != c0 {
            assert c in containers[1..];
          }
        }
      }
    }
  }

  /** The record built from one title's detail view, `None` for the source's
      null, or the exception that escapes. A missing `alt` or `src` reaches
      the `ToString()` of the string `Safely` and raises a null dereference,
      after the kind was chosen. */
  function Scrape(providerId: string, page: DetailPage): (r: Result<Option<MediaRecord>>)
    ensures page.NoModal? ==> r == Ok(None)
    ensures page.ModalFault? ==> r == Threw(WebDriverException)
    ensures page.Modal? && page.duration == [] ==> r == Ok(None)
    ensures r.Threw? ==> r.error in {WebDriverException, NotImplementedException, NullReferenceException}
    ensures r == Threw(NullReferenceException) <==>
      && page.Modal? && page.duration != [] && MediaKind(Lower(page.duration)).Ok?
      && (page.boxartAlt.None? || page.boxartSrc.None?)
    ensures r.Ok? && r.value.Some? ==>
      var m := r.value.value;
      && page.Modal?
      && m.providerId == providerId
      && m.url == WatchUrlPrefix + providerId
      && m.provider == Netflix
      && page.boxartAlt == Some(m.name) && page.boxartSrc == Some(m.thumbnail)
      && m.description == page.synopsis && m.age == page.year
      && MediaKind(Lower(page.duration)) == Ok(m.kind)
      && m.actors == TagsOf(page.containers, PersonTags)
      && m.genres == TagsOf(page.containers, GenreTags)
  {
    match page
    case NoModal => Ok(None)
    case ModalFault => Threw(WebDriverException)
    case Modal(text, alt, src, synopsis, year, containers) =>
      var duration := Lower(text);
      if duration == [] then Ok(None)
      else match MediaKind(duration)
        case Threw(e) => Threw(e)
        case Ok(kind) =>
          if alt.None? || src.None? then Threw(NullReferenceException)
          else Ok(Some(MediaRecord(kind, alt.value, synopsis, year, src.value, WatchUrlPrefix + providerId,
                                   providerId, TagsOf(containers, GenreTags), TagsOf(containers, PersonTags),
                                   Netflix)))
  }

  /** Name, provider id, description and url all present. */
  predicate IsMediaValid(media: Option<MediaRecord>) {
    && media.Some?
    && media.value.name != ""
    && media.value.providerId != ""
    && media.value.description != ""
    && media.value.url != ""
  }

  /** For a scraped record the provider id and the url are never empty, so
      validity comes down to the name and the synopsis read from the page. */
  lemma ScrapedValidity(providerId: string, page: DetailPage)
    requires providerId != ""
    requires Scrape(providerId, page).Ok?
    ensures IsMediaValid(Scrape(providerId, page).value) <==>
      && page.Modal? && page.duration != []
      && Scrape(providerId, page).value.Some?
      && page.boxartAlt != Some("") && page.synopsis != ""
  {
  }

  /** A duration with a season marker never reaches `ParseDuration`: the
      scrape gives a series holding the lower-cased text, and can only fail
      on a missing box art attribute. */
  lemma SeasonTextGivesSeries(providerId: string, page: DetailPage)
    requires page.Modal? && page.duration != [] && IsSeasonText(Lower(page.duration))
    ensures Scrape(providerId, page).Ok? <==> page.boxartAlt.Some? && page.boxartSrc.Some?
    ensures Scrape(providerId, page).Threw? ==> Scrape(providerId, page).error == NullReferenceException
    ensures Scrape(providerId, page).Ok? ==>
      && Scrape(providerId, page).value.Some?
      && Scrape(providerId, page).value.value.kind == Serie(Lower(page.duration))
  {
  }
}
