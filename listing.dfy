/** The venues page: every venue in detail, grouped by city. The handler
    builds a dictionary from city to `{state, venues}` in one pass over the
    venues, then lists its entries in insertion order. */
module VenueListing {
  import opened Wrappers
  import opened Seqs
  import opened Models
  import opened Serializers

  /** One entry of the page: a city, its state and its venues. */
  datatype Area = Area(city: Text, state: Text, venues: seq<VenueDetail>)

  /** The dictionary value kept per city while grouping. */
  datatype Bucket = Bucket(state: Text, venues: seq<VenueDetail>)

  /** The distinct cities of `vs`, in order of first appearance. */
  function Cities(vs: seq<VenueDetail>): (r: seq<Text>)
    ensures forall c :: c in r <==> exists v :: v in vs && v.city == c
    ensures forall i, j :: 0 <= i < j < |r| ==> r[i] != r[j]
  {
    if vs == [] then []
    else
      var prior := Cities(vs[..|vs| - 1]);
      var last := vs[|vs| - 1];
      assert vs == vs[..|vs| - 1] + [last];
      if last.city in prior then prior else prior + [last.city]
  }

  /** The venues of city `c`, in input order. */
  function Members(vs: seq<VenueDetail>, c: Text): seq<VenueDetail>
  {
    Filter(vs, (v: VenueDetail) => v.city == c)
  }

  /** An area holds exactly the venues of its city. */
  lemma MembersAreCity(vs: seq<VenueDetail>, c: Text)
    ensures forall v :: v in Members(vs, c) <==> v in vs && v.city == c
  {
  }

  /** The state recorded for city `c`: that of the venue which introduced
      the city. */
  function FirstState(vs: seq<VenueDetail>, c: Text): Text
    requires c in Cities(vs)
  {
    var prior := vs[..|vs| - 1];
    if c in Cities(prior) then FirstState(prior, c) else vs[|vs| - 1].state
  }

  /** The page as specified: one area per distinct city in first-appearance
      order, carrying the first state seen and all venues of the city. */
  function Grouped(vs: seq<VenueDetail>): seq<Area>
  {
    var cs := Cities(vs);
    seq(|cs|, i requires 0 <= i < |cs| => Area(cs[i], FirstState(vs, cs[i]), Members(vs, cs[i])))
  }

  /** How many venues the areas hold together. */
  function TotalVenues(areas: seq<Area>): nat
  {
    if areas == [] then 0 else TotalVenues(areas[..|areas| - 1]) + |areas[|areas| - 1].venues|
  }

  lemma MembersAppend(vs: seq<VenueDetail>, v: VenueDetail, c: Text)
    ensures Members(vs + [v], c) == Members(vs, c) + (if v.city == c then [v] else [])
  {
    FilterAppend(vs, v, (x: VenueDetail) => x.city == c);
  }

  /** What one more venue does to the specification: its city joins the
      list if new, its state is recorded only for a new city, and it joins
      the members of its city alone. */
  lemma StepSpec(prior: seq<VenueDetail>, v: VenueDetail)
    ensures Cities(prior + [v]) == if v.city in Cities(prior) then Cities(prior) else Cities(prior) + [v.city]
    ensures forall c :: c in Cities(prior + [v]) ==>
      FirstState(prior + [v], c) == if c in Cities(prior) then FirstState(prior, c) else v.state
    ensures forall c :: Members(prior + [v], c) == Members(prior, c) + (if v.city == c then [v] else [])
  {
    var vs := prior + [v];
    assert vs[..|vs| - 1] == prior;
    forall c ensures Members(vs, c) == Members(prior, c) + (if v.city == c then [v] else []) {
      MembersAppend(prior, v, c);
    }
  }

  /** `venues()`: the dictionary loop, keeping the cities in insertion order
      beside the dictionary as Python's dict does. */
  method GroupByCity(vs: seq<VenueDetail>) returns (areas: seq<Area>)
    ensures areas == Grouped(vs)
    ensures TotalVenues(areas) == |vs|
  {
    var data: map<Text, Bucket> := map[];
    var cities: seq<Text> := [];
    for k := 0 to |vs|
      invariant cities == Cities(vs[..k])
      invariant forall c :: c in data <==> c in cities
      invariant forall c :: c in data ==>
        data[c].state == FirstState(vs[..k], c) && data[c].venues == Members(vs[..k], c)
    {
      var venue := vs[k];
      assert vs[..k + 1] == vs[..k] + [venue];
      if venue.city !in data {
        NewCityStep(vs[..k], venue, cities, data);
        data := data[venue.city := Bucket(venue.state, [venue])];
        cities := cities + [venue.city];
      } else {
        SeenCityStep(vs[..k], venue, cities, data);
        data := data[venue.city := data[venue.city].(venues := data[venue.city].venues + [venue])];
      }
    }
    assert vs[..|vs|] == vs;
    areas := seq(|cities|, i requires 0 <= i < |cities| =>
      Area(cities[i], data[cities[i]].state, data[cities[i]].venues));
    DictIsGrouped(vs, cities, data, areas);
    GroupedSizes(vs);
  }

  /** A venue of a city seen before is appended to that city's bucket; the
      dictionary stays in step with the specification. */
  lemma SeenCityStep(prior: seq<VenueDetail>, v: VenueDetail, cities: seq<Text>, data: map<Text, Bucket>)
    requires cities == Cities(prior)
    requires forall c :: c in data <==> c in cities
    requires forall c :: c in data ==> data[c].state == FirstState(prior, c) && data[c].venues == Members(prior, c)
    requires v.city in data
    ensures cities == Cities(prior + [v])
    ensures var data' := data[v.city := data[v.city].(venues := data[v.city].venues + [v])];
      forall c :: c in data' ==>
        data'[c].state == FirstState(prior + [v], c) && data'[c].venues == Members(prior + [v], c)
  {
    StepSpec(prior, v);
    var data' := data[v.city := data[v.city].(venues := data[v.city].venues + [v])];
    forall c | c in data'
      ensures data'[c].state == FirstState(prior + [v], c) && data'[c].venues == Members(prior + [v], c)
    {
      if c != v.city {
        assert data'[c] == data[c];
      }
    }
  }

  /** A venue of a new city opens a bucket with its own state; the
      dictionary stays in step with the specification. */
  lemma NewCityStep(prior: seq<VenueDetail>, v: VenueDetail, cities: seq<Text>, data: map<Text, Bucket>)
    requires cities == Cities(prior)
    requires forall c :: c in data <==> c in cities
    requires forall c :: c in data ==> data[c].state == FirstState(prior, c) && data[c].venues == Members(prior, c)
    requires v.city !in data
    ensures cities + [v.city] == Cities(prior + [v])
    ensures var data' := data[v.city := Bucket(v.state, [v])];
      forall c :: c in data' ==>
        data'[c].state == FirstState(prior + [v], c) && data'[c].venues == Members(prior + [v], c)
  {
    StepSpec(prior, v);
    MembersOfUnseenCity(prior, v.city);
  }

  /** A city that does not occur has no venues. */
  lemma {:induction false} MembersOfUnseenCity(vs: seq<VenueDetail>, c: Text)
    requires c !in Cities(vs)
    ensures Members(vs, c) == []
  {
    if vs != [] {
      var prior, last := vs[..|vs| - 1], vs[|vs| - 1];
      assert vs == prior + [last];
      MembersOfUnseenCity(prior, c);
      MembersAppend(prior, last, c);
    }
  }

  /** Listing the finished dictionary in insertion order gives the page as
      specified. */
  lemma DictIsGrouped(vs: seq<VenueDetail>, cities: seq<Text>, data: map<Text, Bucket>, areas: seq<Area>)
    requires cities == Cities(vs)
    requires forall c :: c in data <==> c in cities
    requires forall c :: c in data ==> data[c].state == FirstState(vs, c) && data[c].venues == Members(vs, c)
    requires |areas| == |cities|
    requires forall i :: 0 <= i < |cities| ==>
      cities[i] in data && areas[i] == Area(cities[i], data[cities[i]].state, data[cities[i]].venues)
    ensures areas == Grouped(vs)
  {
  }

  /** The first state recorded for a city is the state of the earliest venue
      in that city; later venues' states are ignored. */
  lemma {:induction false} FirstStateIsFirstSeen(vs: seq<VenueDetail>, j: nat)
    requires j < |vs|
    requires forall k :: 0 <= k < j ==> vs[k].city != vs[j].city
    ensures vs[j].city in Cities(vs) && FirstState(vs, vs[j].city) == vs[j].state
  {
    var n := |vs|;
    var prior := vs[..n - 1];
    assert vs[j] in vs;
    if j < n - 1 {
      assert prior[j] == vs[j];
      assert prior[j] in prior;
      FirstStateIsFirstSeen(prior, j);
    }
  }

  /** Cities are listed in order of first appearance: any venue of a later
      city is preceded by a venue of every earlier one. */
  lemma {:induction false} CitiesInFirstAppearanceOrder(vs: seq<VenueDetail>, i: nat, j: nat, q: nat)
    requires i < j < |Cities(vs)|
    requires q < |vs| && vs[q].city == Cities(vs)[j]
    ensures exists p :: 0 <= p < q && vs[p].city == Cities(vs)[i]
  {
    var n := |vs|;
    var prior := vs[..n - 1];
    var last := vs[n - 1];
    var cs := Cities(prior);
    assert vs == prior + [last];
    if last.city in cs {
      if q < n - 1 {
        assert prior[q] == vs[q];
        CitiesInFirstAppearanceOrder(prior, i, j, q);
        var p :| 0 <= p < q && prior[p].city == cs[i];
        assert vs[p] == prior[p];
      } else {
        assert cs[j] in cs;
        var v :| v in prior && v.city == cs[j];
        var q' :| 0 <= q' < n - 1 && prior[q'] == v;
        CitiesInFirstAppearanceOrder(prior, i, j, q');
        var p :| 0 <= p < q' && prior[p].city == cs[i];
        assert vs[p] == prior[p];
      }
    } else if j < |cs| {
      if q == n - 1 {
        assert false;
      }
      assert prior[q] == vs[q];
      CitiesInFirstAppearanceOrder(prior, i, j, q);
      var p :| 0 <= p < q && prior[p].city == cs[i];
      assert vs[p] == prior[p];
    } else {
      assert cs[i] in cs;
      var v :| v in prior && v.city == cs[i];
      var p :| 0 <= p < n - 1 && prior[p] == v;
      if q < n - 1 {
        assert false;
      }
      assert vs[p] == prior[p];
    }
  }

  /** Appending a venue either adds it to the end of its city's area or opens
      a new area for its city at the end of the page. */
  lemma GroupedAppend(prior: seq<VenueDetail>, v: VenueDetail)
    ensures v.city in Cities(prior) ==>
      exists k :: 0 <= k < |Grouped(prior)| && Grouped(prior)[k].city == v.city &&
        Grouped(prior + [v]) == Grouped(prior)[k := Grouped(prior)[k].(venues := Grouped(prior)[k].venues + [v])]
    ensures v.city !in Cities(prior) ==>
      Grouped(prior + [v]) == Grouped(prior) + [Area(v.city, v.state, [v])]
  {
    var vs := prior + [v];
    assert vs[..|vs| - 1] == prior;
    var cs := Cities(prior);
    var g, g' := Grouped(prior), Grouped(vs);
    forall c ensures Members(vs, c) == Members(prior, c) + (if v.city == c then [v] else []) {
      MembersAppend(prior, v, c);
    }
    if v.city in cs {
      var k :| 0 <= k < |cs| && cs[k] == v.city;
      var h := g[k := g[k].(venues := g[k].venues + [v])];
      assert |g'| == |h|;
      forall i | 0 <= i < |g'| ensures g'[i] == h[i] {
        assert cs[i] in cs;
        if i != k {
          assert cs[i] != v.city;
        }
      }
    } else {
      MembersOfUnseenCity(prior, v.city);
      var h := g + [Area(v.city, v.state, [v])];
      assert |g'| == |h|;
      forall i | 0 <= i < |g'| ensures g'[i] == h[i] {
        if i < |cs| {
          assert cs[i] in cs;
        }
      }
    }
  }

  /** Adding one venue to one area adds one to the total. */
  lemma {:induction false} TotalVenuesAddOne(areas: seq<Area>, k: nat, v: VenueDetail)
    requires k < |areas|
    ensures TotalVenues(areas[k := areas[k].(venues := areas[k].venues + [v])]) == TotalVenues(areas) + 1
  {
    var updated := areas[k := areas[k].(venues := areas[k].venues + [v])];
    var n := |areas|;
    if k < n - 1 {
      assert updated[..n - 1] == areas[..n - 1][k := areas[k].(venues := areas[k].venues + [v])];
      TotalVenuesAddOne(areas[..n - 1], k, v);
    } else {
      assert updated[..n - 1] == areas[..n - 1];
    }
  }

  /** Every venue is in exactly one area, so the areas' sizes add up to the
      number of venues. */
  lemma {:induction false} GroupedSizes(vs: seq<VenueDetail>)
    ensures TotalVenues(Grouped(vs)) == |vs|
  {
    if vs != [] {
      var prior, v := vs[..|vs| - 1], vs[|vs| - 1];
      assert vs == prior + [v];
      GroupedSizes(prior);
      GroupedAppend(prior, v);
      if v.city in Cities(prior) {
        var k :| 0 <= k < |Grouped(prior)| && Grouped(prior)[k].city == v.city &&
          Grouped(prior + [v]) == Grouped(prior)[k := Grouped(prior)[k].(venues := Grouped(prior)[k].venues + [v])];
        TotalVenuesAddOne(Grouped(prior), k, v);
      } else {
        var g := Grouped(prior) + [Area(v.city, v.state, [v])];
        assert g[..|g| - 1] == Grouped(prior);
      }
    }
  }

  /** Each venue lies in the one area of its own city and in no other. */
  lemma OneAreaPerVenue(vs: seq<VenueDetail>, j: nat)
    requires j < |vs|
    ensures exists i :: 0 <= i < |Grouped(vs)| && Grouped(vs)[i].city == vs[j].city && vs[j] in Grouped(vs)[i].venues
    ensures forall i :: 0 <= i < |Grouped(vs)| && vs[j] in Grouped(vs)[i].venues ==> Grouped(vs)[i].city == vs[j].city
  {
    var cs := Cities(vs);
    assert vs[j] in vs;
    assert vs[j].city in cs;
    var i :| 0 <= i < |cs| && cs[i] == vs[j].city;
    assert Grouped(vs)[i].city == vs[j].city && vs[j] in Grouped(vs)[i].venues;
  }

  /** Within an area, venues keep their input order: the area built from a
      prefix of the input is a prefix of the area built from all of it. */
  lemma AreaKeepsOrder(vs: seq<VenueDetail>, k: nat, c: Text)
    requires k <= |vs|
    ensures Members(vs[..k], c) <= Members(vs, c)
  {
    FilterPrefix(vs, k, (v: VenueDetail) => v.city == c);
  }

  /** The `venues()` handler: all venues serialized in detail, then grouped. */
  method ListVenues(st: Store, now: int) returns (areas: seq<Area>)
    requires Valid(st)
    requires forall v :: v in st.venues ==> v.genres.Some?
    ensures areas == Grouped(AllDetails(st, now))
    ensures TotalVenues(areas) == |st.venues|
  {
    var views := SerializeVenue(st, now, Many(st.venues), many := true, summarized := false);
    var details := seq(|views.items|, i requires 0 <= i < |views.items| => views.items[i].detail);
    assert details == AllDetails(st, now);
    areas := GroupByCity(details);
  }

  /** Every venue of the store in detail, in retrieval order. */
  function AllDetails(st: Store, now: int): (r: seq<VenueDetail>)
    requires Valid(st)
    requires forall v :: v in st.venues ==> v.genres.Some?
    ensures |r| == |st.venues|
    ensures forall i :: 0 <= i < |r| ==> r[i] == SerializeDetailedVenueInstance(st, st.venues[i], now)
    ensures forall i :: 0 <= i < |r| ==>
      r[i].id == st.venues[i].id && r[i].city == st.venues[i].city && r[i].state == st.venues[i].state
  {
    seq(|st.venues|, i requires 0 <= i < |st.venues| => SerializeDetailedVenueInstance(st, st.venues[i], now))
  }
}
