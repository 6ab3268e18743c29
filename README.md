# Fyyur booking directory — a Dafny model of its show partition, serializers and handler logic

Fyyur lists venues and artists and the shows that link them. Its logic is thin. This model covers this logic:

- **Show partition** (`models.py`). A venue's or an artist's shows are split against a reference time `now`. Past shows have `start_time < now`. Upcoming shows have `start_time >= now`, so the boundary counts as upcoming. Only shows whose `venue_id` (or `artist_id`) is the entity's id are included. Each entry carries the *other* entity's id, name and image link.
- **Serializers** (`serializers/utils.py`, `serializers/serializers.py`).
  - A summary is `{id, name, num_upcoming_shows}`.
  - A detail copies a fixed list of attributes and adds both show lists and their counts. It also expands `genres` with Python's `split(',')`.
  - A show always serializes to one shape.
  - `many`/`summarized` choose the serializer and map it over a list.
- **Handler logic** (`app.py`).
  - The venues page groups venues by city in a dictionary loop.
  - A search response is `{count, data}`.
  - Create and edit submissions read the seeking check box.
  - Edit submissions overwrite nine fields with a `setattr` loop.

How the model represents the application:

- The database is a `Store` value with three sequences (venues, artists, shows) in retrieval order.
- `Valid(st)` is what the database enforces: unique primary keys in all three tables (venue, artist and show ids), and foreign keys that reference existing rows.
- Nullable text columns are `Option<string>`.
- `Show.start_time` is nullable too. An SQL comparison with NULL is never true, so a show without a start time is in neither partition (`Models.PartitionExcludes`). Past and upcoming cover all of an entity's shows only when every show has a start time (`Models.PartitionCovers`) and both lists are computed against the same `now`. The source reads the clock once per list; `Models.PartitionCoversTwoReadings` accounts for the shows that fall between two readings.
- `now` is a parameter. Timestamps are integers.
- The case-insensitive `ILIKE` match is a parameter `ilike` on non-NULL names; a NULL name never matches, as `NULL ILIKE …` is not true.

Module layout: `Wrappers` (Option), `Seqs` (order-preserving filter), `Genres` (split/join), `Models`, `Serializers`, `VenueListing` (the venues page) and `Handlers`.

Two details of the source are modelled as written:

- The detailed venue has no `address`, because the attribute list in `serializers/utils.py:41-44` leaves it out.
- The venue search reads `search_term` without a default, so a missing term is searched as the text `None`. The artist search defaults to the empty string.

The venue create (app.py:102) and the artist edit (app.py:192) both set the seeking flag exactly when the box is submitted as `'y'`. The venue edit instead stores the raw form value. The model follows the code and keeps the intended version beside it (see Findings).

## Model

| member | source | states |
|---|---|---|
| `Models.SeekingOnInsert` | models.py:33 | a non-null Boolean column with `default=False` stores true only when true is supplied, and false when nothing is supplied |
| `Models.ArtistOf` | models.py:75 | `show.artist` is a row of the Artist table whose id is the show's `artist_id` |
| `Models.VenueOf` | models.py:36 | `show.venue` is a row of the Venue table whose id is the show's `venue_id` |
| `Models.ArtistOfIsTheRow` | models.py:63 | since the id is the primary key, the row found is the only one with that id |
| `Models.VenueOfIsTheRow` | models.py:23 | the same for venues: `show.venue` finds the venue row itself |
| `Models.Select` | models.py:48 | the partition query returns exactly the shows that reference the entity and satisfy the period's time comparison (a NULL start time satisfies neither) |
| `Models.ShowsOf` | models.py:36 | the `shows` relationship holds exactly the shows whose foreign key is the entity's id |
| `Models.PartitionCovers` | models.py:41-57 | when every show has a start time, past and upcoming hold every show of the entity exactly once (as multisets), so their lengths add up to the entity's show count |
| `Models.BoundaryIsUpcoming` | models.py:48-57 | a show starting exactly at `now` is upcoming and never past |
| `Models.Unlisted` | models.py:48-57 | the shows of the entity that start at or after the past list's clock reading but before the upcoming list's |
| `Models.ClockGapDropsShow` | models.py:48-57 | a show of the entity that starts between the two clock readings is in neither list, although it is one of the entity's shows |
| `Models.PartitionCoversTwoReadings` | models.py:48-57 | with the past list read first, the two lists and the shows between the readings together count every show of the entity |
| `Models.PartitionExcludes` | models.py:48-57 | no show is both past and upcoming; a show of another entity and a show without a start time are in neither |
| `Models.VenueShows` | models.py:41-57 | one entry per selected show of the venue, in query order; entry i comes from a show of this venue in the period and carries that show's artist id, name, image link and start time |
| `Models.ArtistShows` | models.py:80-96 | one entry per selected show of the artist, in query order; entry i carries that show's venue id, name, image link and start time |
| `Models.VenuePastShows` | models.py:41-48 | `Venue.past_shows` has one entry per show of the venue before `now`; each entry is earlier than `now` and carries its show's artist |
| `Models.VenueUpcomingShows` | models.py:50-57 | `Venue.upcoming_shows` has one entry per show of the venue at or after `now`; each entry carries its show's artist |
| `Models.ArtistPastShows` | models.py:80-87 | `Artist.past_shows` follows the same rule on `artist_id`; each entry carries its show's venue |
| `Models.ArtistUpcomingShows` | models.py:89-96 | `Artist.upcoming_shows` follows the same rule on `artist_id`; each entry carries its show's venue |
| `Models.VenuePartitionCount` | models.py:41-57 | when every show has a start time, a venue's past and upcoming lists have as many entries together as the venue has shows |
| `Models.ArtistPartitionCount` | models.py:80-96 | the same for artists |
| `Models.SelectAppend` | models.py:57 | a newly added show joins the end of the query result when it meets the conditions, and changes nothing otherwise |
| `Models.NewUpcomingShowCounted` | models.py:50-57 | scheduling a show at or after `now` at a venue adds exactly one upcoming entry (for its artist) and leaves the past list unchanged |
| `Genres.Split` | serializers/utils.py:26 | `split(',')` gives at least one piece, and no piece contains the separator |
| `Genres.JoinSplit` | serializers/utils.py:26 | re-joining the pieces with the separator gives back the original string, including the empty string |
| `Genres.SplitCount` | serializers/utils.py:47 | there is one piece more than there are separators; the empty string gives a single empty tag |
| `Genres.SplitJoin` | serializers/utils.py:47 | splitting the join of a non-empty list of separator-free tags gives back the list |
| `Serializers.SerializeShowInstance` | serializers/utils.py:6-15 | the show's id and start time, venue id and name from `show.venue`, artist id, name and image link from `show.artist` |
| `Serializers.SerializeDetailedArtistInstance` | serializers/utils.py:18-30 | the listed attributes copied unchanged; the artist's past and upcoming lists; genres split at commas (their join is the stored string, and there is one tag more than commas); each count equals its list's length |
| `Serializers.SerializeSummarizedArtistInstance` | serializers/utils.py:33-36 | id and name copied; `num_upcoming_shows` is the number of the artist's shows at or after `now` |
| `Serializers.SerializeDetailedVenueInstance` | serializers/utils.py:39-51 | the listed attributes copied unchanged; the venue's past and upcoming lists; genres split at commas (their join is the stored string, and there is one tag more than commas); each count equals its list's length |
| `Serializers.SerializeSummarizedVenueInstance` | serializers/utils.py:54-57 | id and name copied; `num_upcoming_shows` is the number of the venue's shows at or after `now` |
| `Serializers.VenueCountsAgree` | serializers/utils.py:48-56 | the summary's upcoming count equals the detail's; when every show has a start time, the detail's two counts add up to the venue's shows |
| `Serializers.ArtistCountsAgree` | serializers/utils.py:27-35 | the same for artists |
| `Serializers.SerializeShow` | serializers/serializers.py:10-18 | always the single show shape: one result for one show, or a list as long as the input whose element i serializes show i |
| `Serializers.SerializeArtist` | serializers/serializers.py:21-30 | `summarized` (default true) selects the summary and false the detail; `many` (default false) gives one result or a list as long as the input whose element i serializes artist i |
| `Serializers.SerializeVenue` | serializers/serializers.py:33-42 | the same dispatch over the venue serializers |
| `VenueListing.Cities` | app.py:49-57 | the page's cities are distinct, and they are exactly the cities that some venue has |
| `VenueListing.MembersAreCity` | app.py:52-55 | a city's area holds exactly the venues of that city |
| `VenueListing.GroupByCity` | app.py:47-57 | the dictionary loop produces the specified grouping (one area per distinct city in insertion order, with the first state seen and the city's venues in input order), and the areas hold as many venues as the input |
| `VenueListing.NewCityStep` | app.py:49-53 | a venue of a new city opens a bucket with its own state and itself, and the city list grows by that city |
| `VenueListing.SeenCityStep` | app.py:54-55 | a venue of a city seen before is appended to that city's bucket, and the state is kept |
| `VenueListing.FirstStateIsFirstSeen` | app.py:49-52 | a city's state is that of the earliest venue in the city; later venues' states are ignored |
| `VenueListing.CitiesInFirstAppearanceOrder` | app.py:49-57 | cities are listed in order of first appearance: any venue of a later city is preceded by a venue of each earlier one |
| `VenueListing.GroupedSizes` | app.py:48-55 | the areas' sizes add up to the number of venues |
| `VenueListing.OneAreaPerVenue` | app.py:48-55 | each venue is in the area of its own city and in no other area |
| `VenueListing.AreaKeepsOrder` | app.py:52-55 | within an area, venues keep their input order: the area built from a prefix of the input is a prefix of the area |
| `VenueListing.AllDetails` | app.py:48 | one detail per stored venue, in order: entry i is the detailed serialization of venue i, so it has that venue's id, city and state |
| `VenueListing.ListVenues` | app.py:42-59 | the venues page is the grouping of every venue's detail, and its areas hold all stored venues |
| `Handlers.Checked` | app.py:192 | a check box reads true exactly when the field is present with the value `'y'` |
| `Handlers.CreateVenueSeekingTalent` | app.py:101-102 | a new venue seeks talent exactly when `seeking_talent` was submitted as `'y'`; an absent value gives false |
| `Handlers.MatchingVenues` | app.py:68 | the query returns exactly the venues whose name is not NULL and matches the pattern |
| `Handlers.MatchingArtists` | app.py:148 | the query returns exactly the artists whose name is not NULL and matches the pattern |
| `Handlers.SearchVenues` | app.py:67-71 | `count` equals the length of `data`, and `data` holds the summaries of the matching venues in order; a missing term is searched as `%None%` |
| `Handlers.SearchArtists` | app.py:147-151 | `count` equals the length of `data`, and `data` holds the summaries of the matching artists in order; a missing term is searched as `%%` |
| `Handlers.SetArtistAttr` | app.py:191 | `setattr` changes the named attribute to the value and leaves every other attribute, the id and the seeking flag alone |
| `Handlers.SetVenueAttr` | app.py:227 | `setattr` changes the named attribute and leaves every other attribute, the id, the address and the seeking flag alone |
| `Handlers.EditArtist` | app.py:186-192 | after the loop, each of the nine listed fields holds the form's value (NULL when absent), the id is unchanged, and `seeking_venue` is true exactly when the form says `'y'` |
| `Handlers.SetVenueFields` | app.py:223-227 | after the loop, each of the nine listed fields holds the form's value; id, address and seeking flag are unchanged |
| `Handlers.ArtistIndex` | app.py:186 | `Artist.query.get` finds no row exactly when no artist has the id, and otherwise a row with that id |
| `Handlers.VenueIndex` | app.py:222 | `Venue.query.get` finds no row exactly when no venue has the id, and otherwise a row with that id |
| `Handlers.EditArtistSubmission` | app.py:179-204 | an unknown id is a server error and changes nothing; otherwise only the artist with that id is edited (as above), and the venues and shows are unchanged; the store stays valid |
| `Handlers.EditVenueSubmission` | app.py:220-240 | the corrected venue edit: an unknown id is a server error; otherwise only that venue is edited, with `seeking_talent` true exactly when the form says `'y'`, and the store stays valid |
| `Handlers.VenueSeekingAsWritten` | app.py:228 | the value written to the Boolean column is false when the box is absent and is not a boolean when the box is present |
| `Handlers.EditVenueSubmissionAsWritten` | app.py:220-240 | the venue edit as written: with the box present the commit fails and the store is unchanged; with the box absent the venue is edited with `seeking_talent` false |
| `Handlers.CheckedSeekingTalentRejected` | app.py:228 | for a form with `seeking_talent = 'y'` the as-written value is rejected, while the intended flag is true |
| `Handlers.UncheckedSeekingTalentAgrees` | app.py:228 | with the box absent, the as-written and the intended flags agree (false) |

## Findings

| source | as written | input that shows it | evidently intended | confidence | as-written member | corrected member |
|---|---|---|---|---|---|---|
| app.py:228 | the venue edit assigns the submitted string itself (or Python's `False` when absent) to the Boolean `seeking_talent` column; SQLAlchemy's Boolean type rejects a value that is not a boolean when the session flushes, so the commit raises, the edit is rolled back and "couldn't be updated" is shown | an edit of an existing venue with `seeking_talent = 'y'` (the box checked) | `seeking_talent` is true exactly when the value is `'y'`, as in the artist edit (app.py:192) and the venue create (app.py:102) | not executed; medium, because it relies on the Boolean column type refusing non-boolean values, as SQLAlchemy does from version 1.2 on | `Handlers.EditVenueSubmissionAsWritten`, `Handlers.CheckedSeekingTalentRejected` | `Handlers.EditVenueSubmission` |

## Left out

- Flask routing, `render_template`, `flash`, `redirect`/`url_for` and the 404/500 error pages: web framework plumbing. The outcome of an edit (updated, rolled back, server error) stands in for the message and the status.
- Database sessions (add, commit, rollback, close), migrations and configuration. The one commit failure modelled is the Boolean column's refusal in the as-written venue edit. Constraint or connection failures are not modelled.
- `datetime.now()` is the parameter `now`.
- `Models.PartitionCovers`, `Models.VenuePartitionCount`, `Models.ArtistPartitionCount`, `Serializers.VenueCountsAgree` and `Serializers.ArtistCountsAgree` assume one clock reading for every list of an entity. The source calls `datetime.now()` once per list (models.py:48, 57, 87, 96), and the summary reads `upcoming_shows` again. A show that starts between two readings is then in neither list (`Models.ClockGapDropsShow`, `Models.PartitionCoversTwoReadings`), and the summary's count can differ from the detail's.
- `strftime(DATETIME_FORMAT)` and the `babel`/`dateutil` filter `format_datetime`. Show entries keep the integer timestamp that would be formatted.
- Case-insensitive `ILIKE` with `%`/`_` wildcards: the match is the parameter `ilike`, and only the pattern `%term%` is built.
- Row order: the database guarantees none. The model uses the order of the store's sequences.
- `create_venue_submission` beyond its seeking flag: building `Venue(**form)` and inserting it depends on the mapper's constructor.
- `create_artist_submission` inserts an empty `Artist()` and ignores the form; its only modelled consequence is the column default (`Models.SeekingOnInsert`).
- `create_show_submission` (`Show(**form)`) and `delete_venue` (deletion and cascading are the database's).
- The `artists()`, `shows()`, `show_venue`, `show_artist` and edit-form handlers only call the serializers, which are modelled (`Serializers.SerializeArtist`, `Serializers.SerializeShow`, `Serializers.SerializeVenue`). Their `query.get` on an unknown id is not modelled for these read-only pages.
- The `forms` module is not part of this model. A form is a map from field name to its first submitted value, which is what `request.form.get` returns. A multi-valued field therefore contributes only its first value.
- Serializers: the detail serializers require non-null genres, because `None.split` raises. All three dispatch functions (`SerializeShow`, `SerializeArtist`, `SerializeVenue`) require `many` to match the shape of the argument, because anything else raises.
- `Serializers.SerializeShowInstance` and `Serializers.SerializeShow` require the show to have a start time, because `strftime` on a NULL start time raises (serializers/utils.py:9). The shows page (app.py:278) therefore fails with a server error as soon as one show has no start time, and the model does not describe that failure.
