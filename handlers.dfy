/** The request handlers' own logic: the search response, the seeking flags
    read from submitted forms, and the edit submissions that overwrite a
    fixed list of fields of one row. */
module Handlers {
  import opened Wrappers
  import opened Seqs
  import opened Models
  import opened Serializers

  /** A submitted form: each field name with its first submitted value. */
  type Form = map<string, string>

  /** `request.form.get(key)`. */
  function Get(form: Form, key: string): Text
  {
    if key in form then Some(form[key]) else None
  }

  /** A check box read as `request.form.get(key) == 'y'`. */
  function Checked(form: Form, key: string): (r: bool)
    ensures r <==> key in form && form[key] == "y"
  {
    Get(form, key) == Some("y")
  }

  /** The `seeking_talent` value a new venue is created with: true exactly
      when the box was submitted as 'y', false when it is missing. */
  function CreateVenueSeekingTalent(form: Form): (r: bool)
    ensures r <==> "seeking_talent" in form && form["seeking_talent"] == "y"
    ensures "seeking_talent" !in form ==> !r
  {
    Checked(form, "seeking_talent")
  }

  // ---------------------------------------------------------------- search

  /** `{count, data}` of a search page. */
  datatype SearchResponse<T> = SearchResponse(count: nat, data: seq<T>)

  /** The ILIKE pattern `%term%`. */
  function LikePattern(term: string): string
  {
    "%" + term + "%"
  }

  /** The venues whose name the ILIKE comparison `ilike` accepts for
      `pattern`, in retrieval order. A NULL name never matches: ILIKE on NULL
      is not true. */
  function MatchingVenues(venues: seq<Venue>, pattern: string, ilike: (string, string) -> bool): (r: seq<Venue>)
    ensures forall v :: v in r <==> v in venues && v.name.Some? && ilike(v.name.value, pattern)
  {
    Filter(venues, (v: Venue) => v.name.Some? && ilike(v.name.value, pattern))
  }

  /** The artists whose non-NULL name `ilike` accepts for `pattern`. */
  function MatchingArtists(artists: seq<Artist>, pattern: string, ilike: (string, string) -> bool): (r: seq<Artist>)
    ensures forall a :: a in r <==> a in artists && a.name.Some? && ilike(a.name.value, pattern)
  {
    Filter(artists, (a: Artist) => a.name.Some? && ilike(a.name.value, pattern))
  }

  /** `search_venues`: the summaries of the matching venues and their number.
      The term is read without a default, so a missing term is formatted into
      the pattern as the text "None". */
  function SearchVenues(st: Store, now: int, searchTerm: Text, ilike: (string, string) -> bool): (r: SearchResponse<VenueView>)
    requires Valid(st)
    ensures r.count == |r.data|
    ensures var found := MatchingVenues(st.venues, LikePattern(searchTerm.GetOr("None")), ilike);
      |r.data| == |found| &&
      forall i :: 0 <= i < |r.data| ==> r.data[i] == VenueSummary(SerializeSummarizedVenueInstance(st, found[i], now))
  {
    var found := MatchingVenues(st.venues, LikePattern(searchTerm.GetOr("None")), ilike);
    var venues := SerializeVenue(st, now, Many(found), many := true);
    SearchResponse(|venues.items|, venues.items)
  }

  /** `search_artists`: the same, except that a missing term reads as "". */
  function SearchArtists(st: Store, now: int, searchTerm: Text, ilike: (string, string) -> bool): (r: SearchResponse<ArtistView>)
    requires Valid(st)
    ensures r.count == |r.data|
    ensures var found := MatchingArtists(st.artists, LikePattern(searchTerm.GetOr("")), ilike);
      |r.data| == |found| &&
      forall i :: 0 <= i < |r.data| ==> r.data[i] == ArtistSummary(SerializeSummarizedArtistInstance(st, found[i], now))
  {
    var found := MatchingArtists(st.artists, LikePattern(searchTerm.GetOr("")), ilike);
    var artists := SerializeArtist(st, now, Many(found), many := true);
    SearchResponse(|artists.items|, artists.items)
  }

  // ------------------------------------------------------------------ edit

  /** The attributes an edit submission overwrites. */
  datatype Field = Name | City | State | Phone | Website | FacebookLink | SeekingDescription | ImageLink | Genres

  /** The order in which the handlers assign them. */
  const EditedFields: seq<Field> := [Name, City, State, Phone, Website, FacebookLink, SeekingDescription, ImageLink, Genres]

  /** The form key and attribute name of a field. */
  function Key(f: Field): string
  {
    match f
    case Name => "name"
    case City => "city"
    case State => "state"
    case Phone => "phone"
    case Website => "website"
    case FacebookLink => "facebook_link"
    case SeekingDescription => "seeking_description"
    case ImageLink => "image_link"
    case Genres => "genres"
  }

  /** `getattr(artist, key)`. */
  function ArtistAttr(a: Artist, f: Field): Text
  {
    match f
    case Name => a.name
    case City => a.city
    case State => a.state
    case Phone => a.phone
    case Website => a.website
    case FacebookLink => a.facebookLink
    case SeekingDescription => a.seekingDescription
    case ImageLink => a.imageLink
    case Genres => a.genres
  }

  /** `setattr(artist, key, value)`: that attribute changes and nothing else. */
  function SetArtistAttr(a: Artist, f: Field, value: Text): (r: Artist)
    ensures ArtistAttr(r, f) == value
    ensures forall g :: g != f ==> ArtistAttr(r, g) == ArtistAttr(a, g)
    ensures r.id == a.id && r.seekingVenue == a.seekingVenue
  {
    match f
    case Name => a.(name := value)
    case City => a.(city := value)
    case State => a.(state := value)
    case Phone => a.(phone := value)
    case Website => a.(website := value)
    case FacebookLink => a.(facebookLink := value)
    case SeekingDescription => a.(seekingDescription := value)
    case ImageLink => a.(imageLink := value)
    case Genres => a.(genres := value)
  }

  /** `getattr(venue, key)`. */
  function VenueAttr(v: Venue, f: Field): Text
  {
    match f
    case Name => v.name
    case City => v.city
    case State => v.state
    case Phone => v.phone
    case Website => v.website
    case FacebookLink => v.facebookLink
    case SeekingDescription => v.seekingDescription
    case ImageLink => v.imageLink
    case Genres => v.genres
  }

  /** `setattr(venue, key, value)`: that attribute changes and nothing else. */
  function SetVenueAttr(v: Venue, f: Field, value: Text): (r: Venue)
    ensures VenueAttr(r, f) == value
    ensures forall g :: g != f ==> VenueAttr(r, g) == VenueAttr(v, g)
    ensures r.id == v.id && r.address == v.address && r.seekingTalent == v.seekingTalent
  {
    match f
    case Name => v.(name := value)
    case City => v.(city := value)
    case State => v.(state := value)
    case Phone => v.(phone := value)
    case Website => v.(website := value)
    case FacebookLink => v.(facebookLink := value)
    case SeekingDescription => v.(seekingDescription := value)
    case ImageLink => v.(imageLink := value)
    case Genres => v.(genres := value)
  }

  /** The artist row `b` is row `a` after an edit submission of `form`:
      same id, every listed field taken from the form (a missing field
      becomes NULL), seeking a venue exactly when the box was 'y'. */
  predicate ArtistEdited(a: Artist, b: Artist, form: Form)
  {
    && b.id == a.id
    && (forall f :: f in EditedFields ==> ArtistAttr(b, f) == Get(form, Key(f)))
    && b.seekingVenue == Checked(form, "seeking_venue")
  }

  /** The venue row `w` is row `v` after an edit submission whose seeking
      flag is `seeking`: same id and address, every listed field taken from
      the form. */
  predicate VenueEdited(v: Venue, w: Venue, form: Form, seeking: bool)
  {
    && w.id == v.id && w.address == v.address
    && (forall f :: f in EditedFields ==> VenueAttr(w, f) == Get(form, Key(f)))
    && w.seekingTalent == seeking
  }

  /** The `setattr` loop of `edit_artist_submission` followed by the
      assignment of `seeking_venue`. */
  method EditArtist(a: Artist, form: Form) returns (r: Artist)
    ensures ArtistEdited(a, r, form)
  {
    r := a;
    for i := 0 to |EditedFields|
      invariant r.id == a.id
      invariant forall j :: 0 <= j < i ==> ArtistAttr(r, EditedFields[j]) == Get(form, Key(EditedFields[j]))
    {
      r := SetArtistAttr(r, EditedFields[i], Get(form, Key(EditedFields[i])));
    }
    r := r.(seekingVenue := Checked(form, "seeking_venue"));
    assert forall f :: f in EditedFields ==> exists j :: 0 <= j < |EditedFields| && EditedFields[j] == f;
  }

  /** The `setattr` loop of `edit_venue_submission`: the listed fields come
      from the form; id, address and the seeking flag are left alone. */
  method SetVenueFields(v: Venue, form: Form) returns (r: Venue)
    ensures VenueEdited(v, r, form, v.seekingTalent)
  {
    r := v;
    for i := 0 to |EditedFields|
      invariant r.id == v.id && r.address == v.address && r.seekingTalent == v.seekingTalent
      invariant forall j :: 0 <= j < i ==> VenueAttr(r, EditedFields[j]) == Get(form, Key(EditedFields[j]))
    {
      r := SetVenueAttr(r, EditedFields[i], Get(form, Key(EditedFields[i])));
    }
    assert forall f :: f in EditedFields ==> exists j :: 0 <= j < |EditedFields| && EditedFields[j] == f;
  }

  /** Where `Artist.query.get(id)` finds its row. */
  function ArtistIndex(artists: seq<Artist>, id: int): (r: Option<nat>)
    ensures r.None? <==> !HasArtist(artists, id)
    ensures r.Some? ==> r.value < |artists| && artists[r.value].id == id
  {
    if artists == [] then None
    else if artists[0].id == id then Some(0)
    else
      match ArtistIndex(artists[1..], id)
      case None =>
        assert forall a :: a in artists ==> a == artists[0] || a in artists[1..];
        None
      case Some(k) => Some(k + 1)
  }

  /** Where `Venue.query.get(id)` finds its row. */
  function VenueIndex(venues: seq<Venue>, id: int): (r: Option<nat>)
    ensures r.None? <==> !HasVenue(venues, id)
    ensures r.Some? ==> r.value < |venues| && venues[r.value].id == id
  {
    if venues == [] then None
    else if venues[0].id == id then Some(0)
    else
      match VenueIndex(venues[1..], id)
      case None =>
        assert forall v :: v in venues ==> v == venues[0] || v in venues[1..];
        None
      case Some(k) => Some(k + 1)
  }

  /** How an edit submission ends: committed, rolled back (the page still
      redirects, with a failure message), or a server error because the id
      names no row. */
  datatype Outcome = Updated | RolledBack | ServerError

  /** `edit_artist_submission`: the row with that id is edited; every other
      row, the venues and the shows stay as they were. An unknown id fails
      with a server error and changes nothing. */
  method EditArtistSubmission(st: Store, artistId: int, form: Form) returns (outcome: Outcome, st': Store)
    requires Valid(st)
    ensures outcome != RolledBack
    ensures outcome == ServerError <==> !HasArtist(st.artists, artistId)
    ensures outcome == ServerError ==> st' == st
    ensures Valid(st')
    ensures st'.venues == st.venues && st'.shows == st.shows && |st'.artists| == |st.artists|
    ensures forall i :: 0 <= i < |st.artists| ==>
      if st.artists[i].id == artistId then ArtistEdited(st.artists[i], st'.artists[i], form)
      else st'.artists[i] == st.artists[i]
  {
    match ArtistIndex(st.artists, artistId)
    case None =>
      outcome, st' := ServerError, st;
    case Some(k) =>
      var edited := EditArtist(st.artists[k], form);
      st' := st.(artists := st.artists[k := edited]);
      outcome := Updated;
      assert forall i :: 0 <= i < |st'.artists| ==> st'.artists[i].id == st.artists[i].id;
      assert forall a :: a in st'.artists ==> a == edited || a in st.artists;
      assert forall a :: a in st.artists ==> a == st.artists[k] || a in st'.artists;
  }

  /** `edit_venue_submission` with the seeking flag read as the other
      handlers read it (`== 'y'`): the row with that id is edited, nothing
      else changes, and an unknown id fails with a server error. */
  method EditVenueSubmission(st: Store, venueId: int, form: Form) returns (outcome: Outcome, st': Store)
    requires Valid(st)
    ensures outcome != RolledBack
    ensures outcome == ServerError <==> !HasVenue(st.venues, venueId)
    ensures outcome == ServerError ==> st' == st
    ensures Valid(st')
    ensures st'.artists == st.artists && st'.shows == st.shows && |st'.venues| == |st.venues|
    ensures forall i :: 0 <= i < |st.venues| ==>
      if st.venues[i].id == venueId then VenueEdited(st.venues[i], st'.venues[i], form, Checked(form, "seeking_talent"))
      else st'.venues[i] == st.venues[i]
  {
    match VenueIndex(st.venues, venueId)
    case None =>
      outcome, st' := ServerError, st;
    case Some(k) =>
      var edited := SetVenueFields(st.venues[k], form);
      edited := edited.(seekingTalent := Checked(form, "seeking_talent"));
      st' := st.(venues := st.venues[k := edited]);
      outcome := Updated;
      assert forall i :: 0 <= i < |st'.venues| ==> st'.venues[i].id == st.venues[i].id;
      assert forall v :: v in st'.venues ==> v == edited || v in st.venues;
      assert forall v :: v in st.venues ==> v == st.venues[k] || v in st'.venues;
  }

  /** The Boolean column's view of `request.form.get('seeking_talent', False)`
      as the source writes it: a missing box gives Python's False, while a
      submitted box gives the string itself, which a Boolean column does not
      accept (None here: the flush raises). */
  function VenueSeekingAsWritten(form: Form): (r: Option<bool>)
    ensures r == Some(false) <==> "seeking_talent" !in form
    ensures r == None <==> "seeking_talent" in form
  {
    match Get(form, "seeking_talent")
    case None => Some(false)
    case Some(_) => None
  }

  /** `edit_venue_submission` as written: the raw form value goes into the
      Boolean column, so any submission with the box checked fails at commit
      and is rolled back, leaving the store unchanged. */
  method EditVenueSubmissionAsWritten(st: Store, venueId: int, form: Form) returns (outcome: Outcome, st': Store)
    requires Valid(st)
    ensures outcome == ServerError <==> !HasVenue(st.venues, venueId)
    ensures outcome == RolledBack <==> HasVenue(st.venues, venueId) && "seeking_talent" in form
    ensures outcome != Updated ==> st' == st
    ensures Valid(st')
    ensures st'.artists == st.artists && st'.shows == st.shows && |st'.venues| == |st.venues|
    ensures outcome == Updated ==> forall i :: 0 <= i < |st.venues| ==>
      if st.venues[i].id == venueId then VenueEdited(st.venues[i], st'.venues[i], form, false)
      else st'.venues[i] == st.venues[i]
  {
    match VenueIndex(st.venues, venueId)
    case None =>
      outcome, st' := ServerError, st;
    case Some(k) =>
      var edited := SetVenueFields(st.venues[k], form);
      match VenueSeekingAsWritten(form)
      case None =>
        outcome, st' := RolledBack, st;
      case Some(flag) =>
        edited := edited.(seekingTalent := flag);
        st' := st.(venues := st.venues[k := edited]);
        outcome := Updated;
        assert forall i :: 0 <= i < |st'.venues| ==> st'.venues[i].id == st.venues[i].id;
        assert forall v :: v in st'.venues ==> v == edited || v in st.venues;
        assert forall v :: v in st.venues ==> v == st.venues[k] || v in st'.venues;
  }

  /** The discrepancy: for a venue edited with the box checked, the source as
      written stores nothing the column accepts, while the intended reading
      sets `seeking_talent` to true. */
  lemma CheckedSeekingTalentRejected(form: Form)
    requires "seeking_talent" in form && form["seeking_talent"] == "y"
    ensures VenueSeekingAsWritten(form) == None
    ensures Checked(form, "seeking_talent")
  {
  }

  /** With the box absent the source as written and the intended reading
      agree: the venue is not seeking talent. */
  lemma UncheckedSeekingTalentAgrees(form: Form)
    requires "seeking_talent" !in form
    ensures VenueSeekingAsWritten(form) == Some(Checked(form, "seeking_talent"))
  {
  }
}
