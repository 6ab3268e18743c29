/** The three tables of the booking directory (Venue, Artist, Show), the store
    that holds them, and the past/upcoming partition of an entity's shows
    relative to a reference time `now`. */
module Models {
  import opened Wrappers
  import opened Seqs

  /** A nullable text column. */
  type Text = Option<string>

  /** A row of the Venue table. */
  datatype Venue = Venue(
    id: int, name: Text, city: Text, genres: Text, state: Text, address: Text,
    phone: Text, imageLink: Text, facebookLink: Text, website: Text,
    seekingTalent: bool, seekingDescription: Text)

  /** A row of the Artist table: a Venue without address, seeking a venue
      instead of talent. */
  datatype Artist = Artist(
    id: int, name: Text, city: Text, state: Text, phone: Text, genres: Text,
    imageLink: Text, facebookLink: Text, website: Text,
    seekingVenue: bool, seekingDescription: Text)

  /** A row of the Show table. The start time column is nullable; both
      foreign keys are not. */
  datatype Show = Show(id: int, startTime: Option<int>, artistId: int, venueId: int)

  /** The three tables, each in retrieval order. */
  datatype Store = Store(venues: seq<Venue>, artists: seq<Artist>, shows: seq<Show>)

  /** The value a non-null Boolean column with `default=False` receives on
      insert: the supplied value, or false when none is supplied. */
  function SeekingOnInsert(supplied: Option<bool>): (r: bool)
    ensures r <==> supplied == Some(true)
    ensures supplied.None? ==> !r
  {
    supplied.GetOr(false)
  }

  predicate HasVenue(venues: seq<Venue>, id: int)
  {
    exists v :: v in venues && v.id == id
  }

  predicate HasArtist(artists: seq<Artist>, id: int)
  {
    exists a :: a in artists && a.id == id
  }

  /** What the database guarantees: the primary keys of all three tables are
      unique and every show references an existing artist and an existing
      venue. */
  predicate Valid(st: Store)
  {
    && (forall i, j :: 0 <= i < j < |st.shows| ==> st.shows[i].id != st.shows[j].id)
    && (forall i, j :: 0 <= i < j < |st.venues| ==> st.venues[i].id != st.venues[j].id)
    && (forall i, j :: 0 <= i < j < |st.artists| ==> st.artists[i].id != st.artists[j].id)
    && (forall s :: s in st.shows ==> HasArtist(st.artists, s.artistId) && HasVenue(st.venues, s.venueId))
  }

  /** `show.artist`: the artist row a show's foreign key points at. */
  function ArtistOf(artists: seq<Artist>, id: int): (a: Artist)
    requires HasArtist(artists, id)
    ensures a in artists && a.id == id
  {
    if artists[0].id == id then artists[0]
    else
      assert exists a :: a in artists[1..] && a.id == id by {
        var a :| a in artists && a.id == id;
        assert a != artists[0];
        assert a in artists[1..];
      }
      ArtistOf(artists[1..], id)
  }

  /** `show.venue`: the venue row a show's foreign key points at. */
  function VenueOf(venues: seq<Venue>, id: int): (v: Venue)
    requires HasVenue(venues, id)
    ensures v in venues && v.id == id
  {
    if venues[0].id == id then venues[0]
    else
      assert exists v :: v in venues[1..] && v.id == id by {
        var v :| v in venues && v.id == id;
        assert v != venues[0];
        assert v in venues[1..];
      }
      VenueOf(venues[1..], id)
  }

  /** With unique primary keys, the row found is the only row with that id. */
  lemma {:induction false} ArtistOfIsTheRow(st: Store, a: Artist)
    requires Valid(st) && a in st.artists
    ensures ArtistOf(st.artists, a.id) == a
  {
  }

  /** The same for venues: the row `show.venue` finds is the venue itself. */
  lemma {:induction false} VenueOfIsTheRow(st: Store, v: Venue)
    requires Valid(st) && v in st.venues
    ensures VenueOf(st.venues, v.id) == v
  {
  }

  /** One element of `Venue.past_shows`/`upcoming_shows`: the show's artist
      and its start time. */
  datatype VenueShow = VenueShow(artistId: int, artistName: Text, artistImageLink: Text, startTime: int)

  /** One element of `Artist.past_shows`/`upcoming_shows`: the show's venue
      and its start time. */
  datatype ArtistShow = ArtistShow(venueId: int, venueName: Text, venueImageLink: Text, startTime: int)

  /** The entity whose shows are asked for. */
  datatype Owner = OfVenue(id: int) | OfArtist(id: int)

  datatype Period = Past | Upcoming

  /** The foreign key condition `Show.venue_id == id` or `Show.artist_id == id`. */
  predicate References(s: Show, o: Owner)
  {
    match o
    case OfVenue(id) => s.venueId == id
    case OfArtist(id) => s.artistId == id
  }

  /** The time condition `start_time < now` (past) or `start_time >= now`
      (upcoming); a NULL start time satisfies neither comparison. */
  predicate InPeriod(s: Show, p: Period, now: int)
  {
    s.startTime.Some? && (if p == Past then s.startTime.value < now else s.startTime.value >= now)
  }

  /** The shows the partition query returns, in retrieval order. */
  function Select(shows: seq<Show>, o: Owner, p: Period, now: int): (r: seq<Show>)
    ensures forall s :: s in r <==> s in shows && References(s, o) && InPeriod(s, p, now)
    ensures |r| <= |shows|
  {
    Filter(shows, s => References(s, o) && InPeriod(s, p, now))
  }

  /** All shows that reference the entity, whatever their start time
      (the `shows` relationship). */
  function ShowsOf(shows: seq<Show>, o: Owner): (r: seq<Show>)
    ensures forall s :: s in r <==> s in shows && References(s, o)
  {
    Filter(shows, s => References(s, o))
  }

  /** Past and upcoming together hold every show of the entity exactly once,
      provided every show has a start time. */
  lemma {:induction false} PartitionCovers(shows: seq<Show>, o: Owner, now: int)
    requires forall s :: s in shows ==> s.startTime.Some?
    ensures multiset(Select(shows, o, Past, now)) + multiset(Select(shows, o, Upcoming, now))
            == multiset(ShowsOf(shows, o))
    ensures |Select(shows, o, Past, now)| + |Select(shows, o, Upcoming, now)| == |ShowsOf(shows, o)|
  {
    var past := (s: Show) => References(s, o) && InPeriod(s, Past, now);
    var upcoming := (s: Show) => References(s, o) && InPeriod(s, Upcoming, now);
    var owned := (s: Show) => References(s, o);
    FilterSplit(shows, past, upcoming, owned);
  }

  /** The shows of the entity that start at or after `nowPast` but before
      `nowUpcoming`. */
  function Unlisted(shows: seq<Show>, o: Owner, nowPast: int, nowUpcoming: int): (r: seq<Show>)
    ensures forall s :: s in r <==>
      s in shows && References(s, o) && s.startTime.Some? && nowPast <= s.startTime.value < nowUpcoming
  {
    Filter(shows, s => References(s, o) && s.startTime.Some? && nowPast <= s.startTime.value < nowUpcoming)
  }

  /** Each list reads the clock itself, the past list first. A show of the
      entity that starts between the two readings is in neither list. */
  lemma ClockGapDropsShow(shows: seq<Show>, o: Owner, nowPast: int, nowUpcoming: int, s: Show)
    requires s in shows && References(s, o) && s.startTime.Some?
    requires nowPast <= s.startTime.value < nowUpcoming
    ensures s in ShowsOf(shows, o)
    ensures s !in Select(shows, o, Past, nowPast) && s !in Select(shows, o, Upcoming, nowUpcoming)
  {
  }

  /** With two clock readings, the past list, the upcoming list and the shows
      that start between the readings together account for every show of the
      entity; the two lists cover it all only when no show starts in between. */
  lemma {:induction false} PartitionCoversTwoReadings(shows: seq<Show>, o: Owner, nowPast: int, nowUpcoming: int)
    requires forall s :: s in shows ==> s.startTime.Some?
    requires nowPast <= nowUpcoming
    ensures |Select(shows, o, Past, nowPast)| + |Select(shows, o, Upcoming, nowUpcoming)|
            + |Unlisted(shows, o, nowPast, nowUpcoming)| == |ShowsOf(shows, o)|
  {
    PartitionCovers(shows, o, nowPast);
    var later := (s: Show) => References(s, o) && InPeriod(s, Upcoming, nowUpcoming);
    var between := (s: Show) => References(s, o) && s.startTime.Some? && nowPast <= s.startTime.value < nowUpcoming;
    var upcoming := (s: Show) => References(s, o) && InPeriod(s, Upcoming, nowPast);
    FilterSplit(shows, later, between, upcoming);
  }

  /** A show starting exactly at `now` is upcoming and never past. */
  lemma BoundaryIsUpcoming(shows: seq<Show>, o: Owner, now: int, s: Show)
    requires s in shows && References(s, o) && s.startTime == Some(now)
    ensures s in Select(shows, o, Upcoming, now)
    ensures s !in Select(shows, o, Past, now)
  {
  }

  /** No show is both past and upcoming, a show of another entity is in
      neither, and neither is a show without a start time. */
  lemma PartitionExcludes(shows: seq<Show>, o: Owner, now: int, s: Show)
    ensures !(s in Select(shows, o, Past, now) && s in Select(shows, o, Upcoming, now))
    ensures !References(s, o) ==> s !in Select(shows, o, Past, now) && s !in Select(shows, o, Upcoming, now)
    ensures s.startTime.None? ==> s !in Select(shows, o, Past, now) && s !in Select(shows, o, Upcoming, now)
  {
  }

  /** The entry for a show as seen from its venue: its artist's fields. */
  function VenueShowOf(artists: seq<Artist>, s: Show): VenueShow
    requires HasArtist(artists, s.artistId) && s.startTime.Some?
  {
    var a := ArtistOf(artists, s.artistId);
    VenueShow(a.id, a.name, a.imageLink, s.startTime.value)
  }

  /** The entry for a show as seen from its artist: its venue's fields. */
  function ArtistShowOf(venues: seq<Venue>, s: Show): ArtistShow
    requires HasVenue(venues, s.venueId) && s.startTime.Some?
  {
    var v := VenueOf(venues, s.venueId);
    ArtistShow(v.id, v.name, v.imageLink, s.startTime.value)
  }

  /** Entry `e` describes show `s` through the artist row `s` references. */
  predicate CarriesArtist(st: Store, s: Show, e: VenueShow)
  {
    && s.startTime == Some(e.startTime)
    && e.artistId == s.artistId
    && exists a :: a in st.artists && a.id == s.artistId && a.name == e.artistName && a.imageLink == e.artistImageLink
  }

  /** Entry `e` describes show `s` through the venue row `s` references. */
  predicate CarriesVenue(st: Store, s: Show, e: ArtistShow)
  {
    && s.startTime == Some(e.startTime)
    && e.venueId == s.venueId
    && exists v :: v in st.venues && v.id == s.venueId && v.name == e.venueName && v.imageLink == e.venueImageLink
  }

  /** The entries of a venue's shows in period `p`: one per show the query
      selects, in query order, each carrying that show's artist. */
  function VenueShows(st: Store, v: Venue, p: Period, now: int): (r: seq<VenueShow>)
    requires Valid(st)
    ensures |r| == |Select(st.shows, OfVenue(v.id), p, now)|
    ensures forall i :: 0 <= i < |r| ==>
      var s := Select(st.shows, OfVenue(v.id), p, now)[i];
      s in st.shows && s.venueId == v.id && InPeriod(s, p, now) && CarriesArtist(st, s, r[i])
  {
    var sel := Select(st.shows, OfVenue(v.id), p, now);
    assert forall i :: 0 <= i < |sel| ==> sel[i] in sel;
    seq(|sel|, i requires 0 <= i < |sel| => VenueShowOf(st.artists, sel[i]))
  }

  /** The entries of an artist's shows in period `p`, each carrying that
      show's venue. */
  function ArtistShows(st: Store, a: Artist, p: Period, now: int): (r: seq<ArtistShow>)
    requires Valid(st)
    ensures |r| == |Select(st.shows, OfArtist(a.id), p, now)|
    ensures forall i :: 0 <= i < |r| ==>
      var s := Select(st.shows, OfArtist(a.id), p, now)[i];
      s in st.shows && s.artistId == a.id && InPeriod(s, p, now) && CarriesVenue(st, s, r[i])
  {
    var sel := Select(st.shows, OfArtist(a.id), p, now);
    assert forall i :: 0 <= i < |sel| ==> sel[i] in sel;
    seq(|sel|, i requires 0 <= i < |sel| => ArtistShowOf(st.venues, sel[i]))
  }

  /** `Venue.past_shows`: entry i is the i-th show of this venue that started
      before `now`, seen through its artist. */
  function VenuePastShows(st: Store, v: Venue, now: int): (r: seq<VenueShow>)
    requires Valid(st)
    ensures |r| == |Select(st.shows, OfVenue(v.id), Past, now)|
    ensures forall i :: 0 <= i < |r| ==>
      r[i].startTime < now && CarriesArtist(st, Select(st.shows, OfVenue(v.id), Past, now)[i], r[i])
  {
    VenueShows(st, v, Past, now)
  }

  /** `Venue.upcoming_shows`: entry i is the i-th show of this venue starting
      at or after `now`, seen through its artist. */
  function VenueUpcomingShows(st: Store, v: Venue, now: int): (r: seq<VenueShow>)
    requires Valid(st)
    ensures |r| == |Select(st.shows, OfVenue(v.id), Upcoming, now)|
    ensures forall i :: 0 <= i < |r| ==>
      r[i].startTime >= now && CarriesArtist(st, Select(st.shows, OfVenue(v.id), Upcoming, now)[i], r[i])
  {
    VenueShows(st, v, Upcoming, now)
  }

  /** `Artist.past_shows`: the same rule on `artist_id`, seen through venues. */
  function ArtistPastShows(st: Store, a: Artist, now: int): (r: seq<ArtistShow>)
    requires Valid(st)
    ensures |r| == |Select(st.shows, OfArtist(a.id), Past, now)|
    ensures forall i :: 0 <= i < |r| ==>
      r[i].startTime < now && CarriesVenue(st, Select(st.shows, OfArtist(a.id), Past, now)[i], r[i])
  {
    ArtistShows(st, a, Past, now)
  }

  /** `Artist.upcoming_shows`: the same rule on `artist_id`, seen through venues. */
  function ArtistUpcomingShows(st: Store, a: Artist, now: int): (r: seq<ArtistShow>)
    requires Valid(st)
    ensures |r| == |Select(st.shows, OfArtist(a.id), Upcoming, now)|
    ensures forall i :: 0 <= i < |r| ==>
      r[i].startTime >= now && CarriesVenue(st, Select(st.shows, OfArtist(a.id), Upcoming, now)[i], r[i])
  {
    ArtistShows(st, a, Upcoming, now)
  }

  /** A venue's past and upcoming lists together have one entry per show of
      the venue, when every show has a start time. */
  lemma VenuePartitionCount(st: Store, v: Venue, now: int)
    requires Valid(st)
    requires forall s :: s in st.shows ==> s.startTime.Some?
    ensures |VenuePastShows(st, v, now)| + |VenueUpcomingShows(st, v, now)| == |ShowsOf(st.shows, OfVenue(v.id))|
  {
    PartitionCovers(st.shows, OfVenue(v.id), now);
  }

  /** An artist's past and upcoming lists together have one entry per show of
      the artist, when every show has a start time. */
  lemma ArtistPartitionCount(st: Store, a: Artist, now: int)
    requires Valid(st)
    requires forall s :: s in st.shows ==> s.startTime.Some?
    ensures |ArtistPastShows(st, a, now)| + |ArtistUpcomingShows(st, a, now)| == |ShowsOf(st.shows, OfArtist(a.id))|
  {
    PartitionCovers(st.shows, OfArtist(a.id), now);
  }

  /** Adding a show to the table adds it to the end of the query result when
      it meets the query's conditions, and changes nothing otherwise. */
  lemma SelectAppend(shows: seq<Show>, s: Show, o: Owner, p: Period, now: int)
    ensures Select(shows + [s], o, p, now)
            == Select(shows, o, p, now) + (if References(s, o) && InPeriod(s, p, now) then [s] else [])
  {
    FilterAppend(shows, s, x => References(x, o) && InPeriod(x, p, now));
  }

  /** Scheduling a new show at or after `now` at a venue adds exactly one
      upcoming entry, for that show's artist, and leaves the past list alone. */
  lemma NewUpcomingShowCounted(st: Store, v: Venue, s: Show, now: int)
    requires Valid(st) && Valid(st.(shows := st.shows + [s]))
    requires s.venueId == v.id && s.startTime.Some? && s.startTime.value >= now
    ensures VenueUpcomingShows(st.(shows := st.shows + [s]), v, now)
            == VenueUpcomingShows(st, v, now) + [VenueShowOf(st.artists, s)]
    ensures VenuePastShows(st.(shows := st.shows + [s]), v, now) == VenuePastShows(st, v, now)
  {
    var st' := st.(shows := st.shows + [s]);
    SelectAppend(st.shows, s, OfVenue(v.id), Upcoming, now);
    SelectAppend(st.shows, s, OfVenue(v.id), Past, now);
    var before, after := VenueUpcomingShows(st, v, now), VenueUpcomingShows(st', v, now);
    assert |after| == |before| + 1;
    forall i | 0 <= i < |after| ensures after[i] == (before + [VenueShowOf(st.artists, s)])[i] {
    }
  }
}
