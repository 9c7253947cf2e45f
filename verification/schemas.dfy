/** The response-object classes and their `ean_fields` tables:
    `ResponseObject` itself, `HotelSummary`, `HotelDetails`,
    `PropertyAmenity`, `Itinerary` and `ItineraryRequest::ItineraryQuery`.
    Every name is written as its words: `["hotel", "id"]` spells the wire
    name `hotelId` and the writer `hotel_id`. */
module Schemas {
  import opened Values
  import opened Strings
  import opened KeyCodec
  import opened ResponseObject
  import W = Vocabulary

  /** The words of one compound name. */
  type Spelling = ws: seq<Word> | |ws| >= 1 witness ["ab"]

  /** The wire names of a bucket. */
  function Names(ws: seq<Spelling>): (r: seq<string>)
    ensures |r| == |ws|
    ensures forall i :: 0 <= i < |ws| ==> r[i] == CamelWords(ws[i])
  {
    seq(|ws|, i requires 0 <= i < |ws| => CamelWords(ws[i]))
  }

  /** The writer names `attr_accessor` declares. */
  function Writers(ws: seq<Spelling>): set<string> {
    set w | w in ws :: Join(w, "_")
  }

  /** A class whose buckets and accessors are given as spellings. */
  function Spelled(name: string, integer: seq<Spelling>, text: seq<Spelling>, float: seq<Spelling>,
                   accessors: seq<Spelling>): Class
  {
    Class(name, Schema(Names(integer), Names(text), Names(float)), Writers(accessors))
  }

  lemma NameSpelled(ws: seq<Spelling>, n: string)
    requires n in Names(ws)
    ensures exists w :: w in ws && n == CamelWords(w)
  {
    var i :| 0 <= i < |Names(ws)| && Names(ws)[i] == n;
    assert ws[i] in ws;
  }

  lemma SpelledName(s: Schema, iw: seq<Spelling>, tw: seq<Spelling>, fw: seq<Spelling>, n: string)
    requires s == Schema(Names(iw), Names(tw), Names(fw)) && n in AllNames(s)
    ensures exists w :: w in iw + tw + fw && n == CamelWords(w)
  {
    if n in s.integer {
      NameSpelled(iw, n);
    } else if n in s.text {
      NameSpelled(tw, n);
    } else {
      NameSpelled(fw, n);
    }
  }

  /** Two names of different spellings differ. */
  lemma DistinctSpellings(a: Spelling, b: Spelling)
    requires a != b
    ensures CamelWords(a) != CamelWords(b)
  {
    if CamelWords(a) == CamelWords(b) {
      RubyizeWordsInjective(a, b);
    }
  }

  lemma SpelledDisjoint(a: seq<Spelling>, b: seq<Spelling>)
    requires forall w :: w in a ==> w !in b
    ensures forall n :: n in Names(a) ==> n !in Names(b)
  {
    forall n | n in Names(a)
      ensures n !in Names(b)
    {
      NameSpelled(a, n);
      var x :| x in a && n == CamelWords(x);
      if n in Names(b) {
        NameSpelled(b, n);
        var y :| y in b && n == CamelWords(y);
        DistinctSpellings(x, y);
      }
    }
  }

  /** Different spellings never share a writer. */
  lemma SpelledUnambiguous(iw: seq<Spelling>, tw: seq<Spelling>, fw: seq<Spelling>)
    ensures Unambiguous(Schema(Names(iw), Names(tw), Names(fw)))
  {
    var s := Schema(Names(iw), Names(tw), Names(fw));
    forall m, n | m in AllNames(s) && n in AllNames(s) && Rubyize(m) == Rubyize(n)
      ensures m == n
    {
      SameWriter(iw, tw, fw, m, n);
    }
  }

  lemma SameWriter(iw: seq<Spelling>, tw: seq<Spelling>, fw: seq<Spelling>, m: string, n: string)
    requires m in AllNames(Schema(Names(iw), Names(tw), Names(fw)))
    requires n in AllNames(Schema(Names(iw), Names(tw), Names(fw)))
    requires Rubyize(m) == Rubyize(n)
    ensures m == n
  {
    var s := Schema(Names(iw), Names(tw), Names(fw));
    SpelledName(s, iw, tw, fw, m);
    SpelledName(s, iw, tw, fw, n);
    var x: Spelling :| m == CamelWords(x);
    var y: Spelling :| n == CamelWords(y);
    RubyizeWordsInjective(x, y);
  }

  /** Every spelling in a bucket that is also an accessor has its writer. */
  lemma SpelledDeclared(name: string, iw: seq<Spelling>, tw: seq<Spelling>, fw: seq<Spelling>,
                        acc: seq<Spelling>)
    requires forall w :: w in iw + tw + fw ==> w in acc
    ensures Declared(Spelled(name, iw, tw, fw, acc))
  {
    var c := Spelled(name, iw, tw, fw, acc);
    forall n | n in AllNames(c.schema)
      ensures Rubyize(n) in c.accessors
    {
      SpelledName(c.schema, iw, tw, fw, n);
      var x :| x in iw + tw + fw && n == CamelWords(x);
      RubyizeWords(x);
    }
  }

  /** A spelled class is well formed when its buckets share no spelling and
      every spelling in them is declared as an accessor. */
  lemma SpelledWellFormed(name: string, iw: seq<Spelling>, tw: seq<Spelling>, fw: seq<Spelling>,
                          acc: seq<Spelling>)
    requires forall w :: w in iw ==> w !in tw && w !in fw
    requires forall w :: w in tw ==> w !in fw
    requires forall w :: w in iw + tw + fw ==> w in acc
    ensures WellFormed(Spelled(name, iw, tw, fw, acc))
  {
    SpelledDisjoint(iw, tw);
    SpelledDisjoint(iw, fw);
    SpelledDisjoint(tw, fw);
    SpelledUnambiguous(iw, tw, fw);
    SpelledDeclared(name, iw, tw, fw, acc);
  }

  // ResponseObject's own table (lib/suitcase/response_object.rb:57-64).

  const BaseFloats: seq<Spelling> := [[W.Hotel, W.Rating], [W.Latitude], [W.Longitude]]
  const BaseIntegers: seq<Spelling> := [[W.Property, W.Category], [W.Hotel, W.Id]]
  const BaseTexts: seq<Spelling> := [
    [W.Address1], [W.Airport, W.Code], [W.City], [W.Country, W.Code], [W.High, W.Rate],
    [W.Location, W.Description], [W.Low, W.Rate], [W.Name], [W.Postal, W.Code],
    [W.Rate, W.Currency, W.Code], [W.State, W.Province, W.Code]]

  /** `ResponseObject` declares no accessors. */
  const Base: Class := Spelled("Suitcase" + "::" + "ResponseObject", BaseIntegers, BaseTexts, BaseFloats, [])

  // HotelSummary (lib/suitcase/hotel_summary.rb).

  const SummaryFloats: seq<Spelling> := [
    [W.High, W.Rate], [W.Hotel, W.Rating], [W.Latitude], [W.Longitude], [W.Low, W.Rate]]
  const SummaryIntegers: seq<Spelling> := [[W.Property, W.Category], [W.Hotel, W.Id]]
  const SummaryTexts: seq<Spelling> := [
    [W.Address1], [W.Airport, W.Code], [W.City], [W.Country, W.Code], [W.Location, W.Description],
    [W.Name], [W.Postal, W.Code], [W.Rate, W.Currency, W.Code], [W.State, W.Province, W.Code]]
  const SummaryAccessors: seq<Spelling> := [
    [W.High, W.Rate], [W.Hotel, W.Rating], [W.Latitude], [W.Longitude], [W.Low, W.Rate],
    [W.Hotel, W.Id], [W.Property, W.Category],
    [W.Address1], [W.Airport, W.Code], [W.City], [W.Country, W.Code], [W.Location, W.Description],
    [W.Name], [W.Postal, W.Code], [W.Rate, W.Currency, W.Code], [W.State, W.Province, W.Code]]

  const HotelSummary: Class :=
    Spelled("Suitcase" + "::" + "HotelSummary", SummaryIntegers, SummaryTexts, SummaryFloats, SummaryAccessors)

  // HotelDetails (lib/suitcase/hotel_details.rb).

  const DetailsIntegers: seq<Spelling> := [[W.Number, W.Of, W.Floors], [W.Number, W.Of, W.Rooms]]
  const DetailsTexts: seq<Spelling> := [
    [W.Amenities, W.Description], [W.Area, W.Information], [W.Business, W.Amenities, W.Description],
    [W.Check, W.In, W.Instructions], [W.Check, W.In, W.Time], [W.Check, W.Out, W.Time],
    [W.Deposit, W.Credit, W.Cards, W.Accepted], [W.Dining, W.Description], [W.Driving, W.Directions],
    [W.Hotel, W.Policy], [W.Know, W.Before, W.You, W.Go, W.Description], [W.Location, W.Description],
    [W.Mandatory, W.Fees, W.Description], [W.National, W.Ratings, W.Description],
    [W.Native, W.Currency, W.Code], [W.Property, W.Description], [W.Property, W.Information],
    [W.Renovations, W.Description], [W.Room, W.Fees, W.Description], [W.Room, W.Information],
    [W.Room, W.Detail, W.Description]]
  const DetailsAccessors: seq<Spelling> := [
    [W.Number, W.Of, W.Floors], [W.Number, W.Of, W.Rooms],
    [W.Amenities, W.Description], [W.Area, W.Information], [W.Business, W.Amenities, W.Description],
    [W.Check, W.In, W.Instructions], [W.Check, W.In, W.Time], [W.Check, W.Out, W.Time],
    [W.Deposit, W.Credit, W.Cards, W.Accepted], [W.Dining, W.Description], [W.Driving, W.Directions],
    [W.Hotel, W.Policy], [W.Know, W.Before, W.You, W.Go, W.Description], [W.Location, W.Description],
    [W.Mandatory, W.Fees, W.Description], [W.National, W.Ratings, W.Description],
    [W.Native, W.Currency, W.Code], [W.Property, W.Description], [W.Property, W.Information],
    [W.Renovations, W.Description], [W.Room, W.Detail, W.Description], [W.Room, W.Fees, W.Description],
    [W.Room, W.Information]]

  const HotelDetails: Class :=
    Spelled("Suitcase" + "::" + "HotelDetails", DetailsIntegers, DetailsTexts, [], DetailsAccessors)

  // PropertyAmenity (lib/suitcase/property_amenity.rb).

  const AmenityAccessors: seq<Spelling> := [[W.Amenity, W.Id], [W.Amenity]]

  const PropertyAmenity: Class :=
    Spelled("Suitcase" + "::" + "PropertyAmenity", [[W.Amenity, W.Id]], [[W.Amenity]], [], AmenityAccessors)

  // Itinerary (lib/suitcase/itinerary.rb).

  const ItineraryTexts: seq<Spelling> := [
    [W.Affiliate, W.Confirmation, W.Id], [W.Api, W.Experience], [W.Credit, W.Card, W.Number],
    [W.Email], [W.Last, W.Name]]
  const ItineraryAccessors: seq<Spelling> := [
    [W.Affiliate, W.Confirmation, W.Id], [W.Api, W.Experience], [W.Credit, W.Card, W.Number],
    [W.Email], [W.Last, W.Name], [W.Itinerary, W.Id]]

  const Itinerary: Class :=
    Spelled("Suitcase" + "::" + "Itinerary", [[W.Itinerary, W.Id]], ItineraryTexts, [], ItineraryAccessors)

  // ItineraryRequest::ItineraryQuery (lib/suitcase/itinerary_request.rb:10-21).

  const QueryTexts: seq<Spelling> := [
    [W.Creation, W.Date, W.End], [W.Creation, W.Date, W.Start],
    [W.Departure, W.Date, W.End], [W.Departure, W.Date, W.Start]]

  /** As written: the class declares no accessors. */
  const ItineraryQuery: Class :=
    Spelled("Suitcase" + "::" + "ItineraryRequest" + "::" + "ItineraryQuery", [], QueryTexts, [], [])

  /** The class with a writer for each of its four fields. */
  const ItineraryQueryWithWriters: Class :=
    Spelled("Suitcase" + "::" + "ItineraryRequest" + "::" + "ItineraryQuery", [], QueryTexts, [], QueryTexts)

  /** `HotelSummary`: the buckets are disjoint, no two names share a writer,
      and every name, snake-cased, is a declared accessor. */
  lemma HotelSummaryWellFormed()
    ensures WellFormed(HotelSummary)
  {
    SummaryApart();
    SummaryCovered();
    SpelledWellFormed(HotelSummary.name, SummaryIntegers, SummaryTexts, SummaryFloats, SummaryAccessors);
  }

  lemma HotelDetailsWellFormed()
    ensures WellFormed(HotelDetails)
  {
    DetailsApart();
    DetailsCovered();
    SpelledWellFormed(HotelDetails.name, DetailsIntegers, DetailsTexts, [], DetailsAccessors);
  }

  lemma PropertyAmenityWellFormed()
    ensures WellFormed(PropertyAmenity)
  {
    SpelledWellFormed(PropertyAmenity.name, [[W.Amenity, W.Id]], [[W.Amenity]], [], AmenityAccessors);
  }

  lemma ItineraryWellFormed()
    ensures WellFormed(Itinerary)
  {
    SpelledWellFormed(Itinerary.name, [[W.Itinerary, W.Id]], ItineraryTexts, [], ItineraryAccessors);
  }

  lemma ItineraryQueryWithWritersWellFormed()
    ensures WellFormed(ItineraryQueryWithWriters)
  {
    SpelledWellFormed(ItineraryQueryWithWriters.name, [], QueryTexts, [], QueryTexts);
  }

  lemma SummaryApart()
    ensures forall w :: w in SummaryIntegers ==> w !in SummaryTexts && w !in SummaryFloats
    ensures forall w :: w in SummaryTexts ==> w !in SummaryFloats
  {
  }

  lemma SummaryCovered()
    ensures forall w :: w in SummaryIntegers + SummaryTexts + SummaryFloats ==> w in SummaryAccessors
  {
  }

  lemma DetailsApart()
    ensures forall w :: w in DetailsIntegers ==> w !in DetailsTexts && w !in []
    ensures forall w :: w in DetailsTexts ==> w !in []
  {
  }

  lemma DetailsCovered()
    ensures forall w :: w in DetailsIntegers + DetailsTexts + [] ==> w in DetailsAccessors
  {
  }

  /** `ResponseObject` itself declares no writers, so an instance can only
      be built from an object none of whose fields calls one. */
  lemma BaseStoresNothing(obj: Json)
    requires New(Base, obj).Ok?
    ensures New(Base, obj).value == map[]
  {
    NewDeclaredOnly(Base, obj);
  }

  /** `highRate` and `lowRate` are strings in `ResponseObject`'s table and
      floats, not strings, in `HotelSummary`'s. */
  lemma RatesMoved()
    ensures CamelWords([W.High, W.Rate]) in Base.schema.text
    ensures CamelWords([W.Low, W.Rate]) in Base.schema.text
    ensures CamelWords([W.High, W.Rate]) in HotelSummary.schema.float
    ensures CamelWords([W.Low, W.Rate]) in HotelSummary.schema.float
    ensures CamelWords([W.High, W.Rate]) !in HotelSummary.schema.text
    ensures CamelWords([W.Low, W.Rate]) !in HotelSummary.schema.text
  {
    assert Base.schema.text[4] == CamelWords([W.High, W.Rate]);
    assert Base.schema.text[6] == CamelWords([W.Low, W.Rate]);
    assert HotelSummary.schema.float[0] == CamelWords([W.High, W.Rate]);
    assert HotelSummary.schema.float[4] == CamelWords([W.Low, W.Rate]);
    HotelSummaryWellFormed();
  }

  /** `HotelDetails`, `PropertyAmenity` and `Itinerary` have an empty float
      bucket, so none of their attributes is ever float-converted. */
  lemma NoFloatAttributes(c: Class, obj: Json, a: string)
    requires c == HotelDetails || c == PropertyAmenity || c == Itinerary
    requires New(c, obj).Ok? && a in New(c, obj).value
    ensures !New(c, obj).value[a].FloatAttr?
  {
    NewEmptyBucket(c, obj, a, Float);
  }

  /** `PropertyAmenity.array_parse` reads the member `"PropertyAmenity"`. */
  lemma PropertyAmenityKey()
    ensures CollectionKey(PropertyAmenity) == "PropertyAmenity"
  {
    DemodulizeQualified("Suitcase", "PropertyAmenity");
  }

  /** One creation date, as the vendor would send it. */
  function CreationStart(date: string): Json {
    Obj([(CamelWords([W.Creation, W.Date, W.Start]), Str(date))])
  }

  /** As written, `ItineraryQuery.new` raises on any non-empty date: the
      class has a string bucket but no accessor to store it in. */
  lemma ItineraryQueryRaises()
    ensures New(ItineraryQuery, CreationStart("2012-01-01")) ==
      Err(NoMethodError(Join([W.Creation, W.Date, W.Start], "_") + "="))
  {
    var n := CamelWords([W.Creation, W.Date, W.Start]);
    var es := Entries(CreationStart("2012-01-01")).value;
    assert es == [(Str(n), Str("2012-01-01"))];
    assert ItineraryQuery.schema.text[1] == n;
    RubyizeWords([W.Creation, W.Date, W.Start]);
    assert Step(ItineraryQuery, Text, es[0], map[]).Err?;
  }

  /** With its four writers declared, the same date is stored. */
  lemma ItineraryQueryStores(date: string)
    requires |date| > 0
    ensures New(ItineraryQueryWithWriters, CreationStart(date)) ==
      Ok(map[Join([W.Creation, W.Date, W.Start], "_") := TextAttr(Str(date))])
  {
    var c := ItineraryQueryWithWriters;
    var ws := [W.Creation, W.Date, W.Start];
    var n, w := CamelWords(ws), Join(ws, "_");
    var es := Entries(CreationStart(date)).value;
    assert es == [(Str(n), Str(date))];
    assert Pass(c, Integer, es, map[]) == Ok(map[]);
    assert c.schema.text[1] == n;
    RubyizeWords(ws);
    assert ws in QueryTexts;
    assert w in c.accessors;
    var m := map[w := TextAttr(Str(date))];
    assert Step(c, Text, es[0], map[]) == Ok(m);
    assert Pass(c, Text, es, map[]) == Ok(m);
    assert Pass(c, Float, es, m) == Ok(m);
  }
}
