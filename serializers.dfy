/** The view shapes handed to the pages: a summary and a detail projection of
    venues and artists, the single show shape, and the dispatch that picks
    one of them and maps it over a list. */
module Serializers {
  import opened Wrappers
  import opened Models
  import Genres

  /** `{id, name, num_upcoming_shows}`: the same for venues and artists. */
  datatype Summary = Summary(id: int, name: Text, numUpcomingShows: nat)

  /** The detailed venue dictionary. The source's attribute list leaves out
      `address`, so this shape has none. */
  datatype VenueDetail = VenueDetail(
    id: int, name: Text, city: Text, state: Text, phone: Text, website: Text,
    facebookLink: Text, seekingTalent: bool, seekingDescription: Text, imageLink: Text,
    pastShows: seq<VenueShow>, upcomingShows: seq<VenueShow>,
    genres: seq<string>, pastShowsCount: nat, upcomingShowsCount: nat)

  /** The detailed artist dictionary. */
  datatype ArtistDetail = ArtistDetail(
    id: int, name: Text, city: Text, state: Text, phone: Text, website: Text,
    facebookLink: Text, seekingVenue: bool, seekingDescription: Text, imageLink: Text,
    pastShows: seq<ArtistShow>, upcomingShows: seq<ArtistShow>,
    genres: seq<string>, pastShowsCount: nat, upcomingShowsCount: nat)

  /** The one shape a show is ever serialized to. The start time stays a
      timestamp; its text formatting is not modelled. */
  datatype ShowView = ShowView(
    id: int, startTime: int, venueId: int, artistId: int,
    venueName: Text, artistName: Text, artistImageLink: Text)

  /** `serialize_show_instance`: the show's own id and time, its venue's id
      and name, its artist's id, name and image. The show must have a start
      time, since formatting a NULL one raises. */
  function SerializeShowInstance(st: Store, s: Show): (r: ShowView)
    requires HasVenue(st.venues, s.venueId) && HasArtist(st.artists, s.artistId)
    requires s.startTime.Some?
    ensures r.id == s.id && r.startTime == s.startTime.value
    ensures r.venueId == s.venueId && r.artistId == s.artistId
    ensures exists v :: v in st.venues && v.id == s.venueId && v.name == r.venueName
    ensures exists a :: a in st.artists && a.id == s.artistId
                        && a.name == r.artistName && a.imageLink == r.artistImageLink
  {
    var v := VenueOf(st.venues, s.venueId);
    var a := ArtistOf(st.artists, s.artistId);
    ShowView(s.id, s.startTime.value, v.id, a.id, v.name, a.name, a.imageLink)
  }

  /** `serialize_detailed_venue_instance`: the listed attributes unchanged, the
      two show lists, `genres` split at commas (so that joining the tags with
      commas gives back the stored string, and there is one tag more than
      there are commas) and the two counts equal to the lists' lengths. The
      genres column must not be NULL, since `None.split` raises. */
  function SerializeDetailedVenueInstance(st: Store, v: Venue, now: int): (r: VenueDetail)
    requires Valid(st) && v.genres.Some?
    ensures && r.id == v.id && r.name == v.name && r.city == v.city && r.state == v.state
            && r.phone == v.phone && r.website == v.website && r.facebookLink == v.facebookLink
            && r.seekingTalent == v.seekingTalent && r.seekingDescription == v.seekingDescription
            && r.imageLink == v.imageLink
    ensures r.pastShows == VenuePastShows(st, v, now) && r.upcomingShows == VenueUpcomingShows(st, v, now)
    ensures Genres.Join(r.genres, Genres.Comma) == v.genres.value
    ensures |r.genres| == Genres.Occurrences(v.genres.value, Genres.Comma) + 1
    ensures forall i :: 0 <= i < |r.genres| ==> Genres.Comma !in r.genres[i]
    ensures r.pastShowsCount == |r.pastShows| && r.upcomingShowsCount == |r.upcomingShows|
  {
    var tags := Genres.Split(v.genres.value, Genres.Comma);
    Genres.JoinSplit(v.genres.value, Genres.Comma);
    Genres.SplitCount(v.genres.value, Genres.Comma);
    var past, upcoming := VenuePastShows(st, v, now), VenueUpcomingShows(st, v, now);
    VenueDetail(v.id, v.name, v.city, v.state, v.phone, v.website, v.facebookLink,
                v.seekingTalent, v.seekingDescription, v.imageLink, past, upcoming,
                tags, |past|, |upcoming|)
  }

  /** `serialize_summarized_venue_instance`: id, name and the number of the
      venue's shows starting at or after `now`. */
  function SerializeSummarizedVenueInstance(st: Store, v: Venue, now: int): (r: Summary)
    requires Valid(st)
    ensures r.id == v.id && r.name == v.name
    ensures r.numUpcomingShows == |VenueUpcomingShows(st, v, now)|
    ensures r.numUpcomingShows == |Select(st.shows, OfVenue(v.id), Upcoming, now)|
  {
    Summary(v.id, v.name, |VenueUpcomingShows(st, v, now)|)
  }

  /** `serialize_detailed_artist_instance`: as for venues, with the artist's
      attributes and shows seen through their venues. */
  function SerializeDetailedArtistInstance(st: Store, a: Artist, now: int): (r: ArtistDetail)
    requires Valid(st) && a.genres.Some?
    ensures && r.id == a.id && r.name == a.name && r.city == a.city && r.state == a.state
            && r.phone == a.phone && r.website == a.website && r.facebookLink == a.facebookLink
            && r.seekingVenue == a.seekingVenue && r.seekingDescription == a.seekingDescription
            && r.imageLink == a.imageLink
    ensures r.pastShows == ArtistPastShows(st, a, now) && r.upcomingShows == ArtistUpcomingShows(st, a, now)
    ensures Genres.Join(r.genres, Genres.Comma) == a.genres.value
    ensures |r.genres| == Genres.Occurrences(a.genres.value, Genres.Comma) + 1
    ensures forall i :: 0 <= i < |r.genres| ==> Genres.Comma !in r.genres[i]
    ensures r.pastShowsCount == |r.pastShows| && r.upcomingShowsCount == |r.upcomingShows|
  {
    var tags := Genres.Split(a.genres.value, Genres.Comma);
    Genres.JoinSplit(a.genres.value, Genres.Comma);
    Genres.SplitCount(a.genres.value, Genres.Comma);
    var past, upcoming := ArtistPastShows(st, a, now), ArtistUpcomingShows(st, a, now);
    ArtistDetail(a.id, a.name, a.city, a.state, a.phone, a.website, a.facebookLink,
                 a.seekingVenue, a.seekingDescription, a.imageLink, past, upcoming,
                 tags, |past|, |upcoming|)
  }

  /** `serialize_summarized_artist_instance`: id, name and the number of the
      artist's shows starting at or after `now`. */
  function SerializeSummarizedArtistInstance(st: Store, a: Artist, now: int): (r: Summary)
    requires Valid(st)
    ensures r.id == a.id && r.name == a.name
    ensures r.numUpcomingShows == |ArtistUpcomingShows(st, a, now)|
    ensures r.numUpcomingShows == |Select(st.shows, OfArtist(a.id), Upcoming, now)|
  {
    Summary(a.id, a.name, |ArtistUpcomingShows(st, a, now)|)
  }

  /** The summary and the detail of a venue agree on its upcoming count, and
      with every show timed the detail's two counts add up to the venue's
      shows. */
  lemma VenueCountsAgree(st: Store, v: Venue, now: int)
    requires Valid(st) && v.genres.Some?
    ensures SerializeSummarizedVenueInstance(st, v, now).numUpcomingShows
            == SerializeDetailedVenueInstance(st, v, now).upcomingShowsCount
    ensures (forall s :: s in st.shows ==> s.startTime.Some?) ==>
      var d := SerializeDetailedVenueInstance(st, v, now);
      d.pastShowsCount + d.upcomingShowsCount == |ShowsOf(st.shows, OfVenue(v.id))|
  {
    if forall s :: s in st.shows ==> s.startTime.Some? {
      VenuePartitionCount(st, v, now);
    }
  }

  /** The same agreement for artists. */
  lemma ArtistCountsAgree(st: Store, a: Artist, now: int)
    requires Valid(st) && a.genres.Some?
    ensures SerializeSummarizedArtistInstance(st, a, now).numUpcomingShows
            == SerializeDetailedArtistInstance(st, a, now).upcomingShowsCount
    ensures (forall s :: s in st.shows ==> s.startTime.Some?) ==>
      var d := SerializeDetailedArtistInstance(st, a, now);
      d.pastShowsCount + d.upcomingShowsCount == |ShowsOf(st.shows, OfArtist(a.id))|
  {
    if forall s :: s in st.shows ==> s.startTime.Some? {
      ArtistPartitionCount(st, a, now);
    }
  }

  /** What a serializer is called with: one instance (`many=False`) or an
      iterable of them (`many=True`); and what it returns, in the same shape. */
  datatype Shape<T> = One(item: T) | Many(items: seq<T>)

  function Items<T>(x: Shape<T>): seq<T>
  {
    match x
    case One(item) => [item]
    case Many(items) => items
  }

  datatype VenueView = VenueSummary(summary: Summary) | VenueDetailed(detail: VenueDetail)
  datatype ArtistView = ArtistSummary(summary: Summary) | ArtistDetailed(detail: ArtistDetail)

  /** `serialize_show`: always the single show shape, applied to the one
      show or to each show of the list. */
  function SerializeShow(st: Store, shows: Shape<Show>, many: bool := false): (r: Shape<ShowView>)
    requires many <==> shows.Many?
    requires forall s :: s in Items(shows) ==>
      HasVenue(st.venues, s.venueId) && HasArtist(st.artists, s.artistId) && s.startTime.Some?
    ensures r.Many? <==> many
    ensures |Items(r)| == |Items(shows)|
    ensures forall i :: 0 <= i < |Items(r)| ==> Items(r)[i] == SerializeShowInstance(st, Items(shows)[i])
  {
    if many then
      Many(seq(|shows.items|, i requires 0 <= i < |shows.items| => SerializeShowInstance(st, shows.items[i])))
    else
      One(SerializeShowInstance(st, shows.item))
  }

  /** `serialize_venue`: `summarized` (default true) picks the summary or the
      detail serializer, and `many` (default false) applies it to the one
      venue or to each venue of the list. */
  function SerializeVenue(st: Store, now: int, venues: Shape<Venue>, many: bool := false, summarized: bool := true): (r: Shape<VenueView>)
    requires Valid(st)
    requires many <==> venues.Many?
    requires !summarized ==> forall v :: v in Items(venues) ==> v.genres.Some?
    ensures r.Many? <==> many
    ensures |Items(r)| == |Items(venues)|
    ensures summarized ==> forall i :: 0 <= i < |Items(r)| ==>
      Items(r)[i] == VenueSummary(SerializeSummarizedVenueInstance(st, Items(venues)[i], now))
    ensures !summarized ==> forall i :: 0 <= i < |Items(r)| ==>
      Items(r)[i] == VenueDetailed(SerializeDetailedVenueInstance(st, Items(venues)[i], now))
  {
    var serialize := (v: Venue) requires !summarized ==> v.genres.Some? =>
      if summarized then VenueSummary(SerializeSummarizedVenueInstance(st, v, now))
      else VenueDetailed(SerializeDetailedVenueInstance(st, v, now));
    if many then
      Many(seq(|venues.items|, i requires 0 <= i < |venues.items| => serialize(venues.items[i])))
    else
      One(serialize(venues.item))
  }

  /** `serialize_artist`: the same dispatch over the artist serializers. */
  function SerializeArtist(st: Store, now: int, artists: Shape<Artist>, many: bool := false, summarized: bool := true): (r: Shape<ArtistView>)
    requires Valid(st)
    requires many <==> artists.Many?
    requires !summarized ==> forall a :: a in Items(artists) ==> a.genres.Some?
    ensures r.Many? <==> many
    ensures |Items(r)| == |Items(artists)|
    ensures summarized ==> forall i :: 0 <= i < |Items(r)| ==>
      Items(r)[i] == ArtistSummary(SerializeSummarizedArtistInstance(st, Items(artists)[i], now))
    ensures !summarized ==> forall i :: 0 <= i < |Items(r)| ==>
      Items(r)[i] == ArtistDetailed(SerializeDetailedArtistInstance(st, Items(artists)[i], now))
  {
    var serialize := (a: Artist) requires !summarized ==> a.genres.Some? =>
      if summarized then ArtistSummary(SerializeSummarizedArtistInstance(st, a, now))
      else ArtistDetailed(SerializeDetailedArtistInstance(st, a, now));
    if many then
      Many(seq(|artists.items|, i requires 0 <= i < |artists.items| => serialize(artists.items[i])))
    else
      One(serialize(artists.item))
  }
}
