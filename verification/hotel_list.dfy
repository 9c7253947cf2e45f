/** The response side of `Hotel.find`: `parse_hotel_list`, `parse_rooms`,
    `Room#initialize`, and `handle`, which turns a vendor error node into
    the exception it raises. */
module HotelListing {
  import opened Values
  import opened Amenities

  /** `Room::Promotion`. */
  datatype Promotion = Promotion(id: Json, description: Json, details: Json)

  /** The instance variables of a `Hotel::Room`. */
  datatype Room = Room(
    roomTypeCode: Json,
    rateCode: Json,
    rateKey: Json,
    maxOccupancy: Json,
    quotedOccupancy: Json,
    minimumAge: Json,
    description: Json,
    promotion: Option<Promotion>,
    allotment: Json,
    available: Json,
    restricted: Json,
    expediaId: Json)

  /** `Room.new(room_details)`. The promotion is built into a local
      variable, so `@promotion` is never set: it stays `nil` (`None`)
      whatever `promoId` says. */
  function RoomNew(d: Json): (r: Result<Room>)
    ensures r.Ok? <==> Indexable(d)
  {
    match Index(d, "roomTypeCode")
    case Err(f) => Err(f)
    case Ok(code) =>
      Ok(Room(code, At(d, "rateCode"), At(d, "rateKey"), At(d, "maxRoomOccupancy"),
              At(d, "quotedRoomOccupancy"), At(d, "minGuestAge"), At(d, "roomDescription"), None,
              At(d, "currentAllotment"), At(d, "propertyAvailable"), At(d, "propertyRestricted"),
              At(d, "expediaPropertyId")))
  }

  /** A room object's fields are read under the vendor's names; a promotion
      in it is lost. */
  lemma RoomOfObject(fields: seq<(string, Json)>)
    ensures RoomNew(Obj(fields)).Ok?
    ensures var r := RoomNew(Obj(fields)).value;
      && r.roomTypeCode == Member(fields, "roomTypeCode")
      && r.rateCode == Member(fields, "rateCode")
      && r.rateKey == Member(fields, "rateKey")
      && r.maxOccupancy == Member(fields, "maxRoomOccupancy")
      && r.quotedOccupancy == Member(fields, "quotedRoomOccupancy")
      && r.minimumAge == Member(fields, "minGuestAge")
      && r.description == Member(fields, "roomDescription")
      && r.allotment == Member(fields, "currentAllotment")
      && r.available == Member(fields, "propertyAvailable")
      && r.restricted == Member(fields, "propertyRestricted")
      && r.expediaId == Member(fields, "expediaPropertyId")
      && r.promotion.None?
  {
  }

  /** `Room.new` over each value, in order; the first error stops. */
  function RoomAll(xs: seq<Json>): (r: Result<seq<Room>>)
    ensures r.Ok? <==> forall i :: 0 <= i < |xs| ==> Indexable(xs[i])
    ensures r.Ok? ==> |r.value| == |xs| && forall i :: 0 <= i < |xs| ==> RoomNew(xs[i]) == Ok(r.value[i])
  {
    if |xs| == 0 then Ok([])
    else
      var head :- RoomNew(xs[0]);
      var tail :- RoomAll(xs[1..]);
      assert forall i :: 1 <= i < |xs| ==> xs[i] == xs[1..][i - 1];
      Ok([head] + tail)
  }

  /** `parse_rooms(room_details)`: `[room_details["RoomRateDetails"]].flatten`
      mapped to rooms. */
  function ParseRooms(details: Json): Result<seq<Room>> {
    var rd :- Index(details, "RoomRateDetails");
    RoomAll(Flatten(Arr([rd])))
  }

  /** A lone rate object is read as a list of one: it parses exactly as the
      same object wrapped in an Array does. */
  lemma ParseRoomsSingle(fields: seq<(string, Json)>, x: Json)
    requires Member(fields, "RoomRateDetails") == x && !x.Arr?
    ensures ParseRooms(Obj(fields)) == RoomAll([x])
    ensures ParseRooms(Obj(fields)) == ParseRooms(Obj([("RoomRateDetails", Arr([x]))]))
  {
    SingletonFlatten(x);
    FlattenList([x]);
    assert Member([("RoomRateDetails", Arr([x]))], "RoomRateDetails") == Arr([x]);
  }

  /** A list of rate objects gives one room per object, in order. */
  lemma ParseRoomsList(fields: seq<(string, Json)>, xs: seq<Json>)
    requires Member(fields, "RoomRateDetails") == Arr(xs)
    requires forall i :: 0 <= i < |xs| ==> !xs[i].Arr?
    ensures ParseRooms(Obj(fields)) == RoomAll(xs)
  {
    FlattenList(xs);
  }

  /** The hotel's `address`: `address1`, or `[address1, address2].join(", ")`
      when `address2` is truthy. */
  function AddressOf(address1: Json, address2: Json): Result<Json> {
    if Truthy(address2) then
      var t :- JoinText([address1, address2], ", ");
      Ok(Str(t))
    else Ok(address1)
  }

  /** Two address lines are joined by a comma and a space; a missing second
      line leaves the first as it is, and a missing first line leaves a
      leading separator. */
  lemma Address(x: string, y: string, v: Json)
    ensures AddressOf(Str(x), Str(y)) == Ok(Str(x + ", " + y))
    ensures AddressOf(v, Null) == Ok(v)
    ensures AddressOf(Null, Str(y)) == Ok(Str(", " + y))
  {
    JoinTextAtoms([Str(x), Str(y)], ", ");
    assert AtomTexts([Str(x), Str(y)]) == [x, y];
    JoinTextAtoms([Null, Str(y)], ", ");
    assert AtomTexts([Null, Str(y)]) == ["", y];
    assert "" + ", " + y == ", " + y;
  }

  /** The instance variables `parse_hotel_list` sets on a `Hotel`. */
  datatype Hotel = Hotel(
    id: Json,
    name: Json,
    address: Json,
    city: Json,
    province: Json,
    postal: Json,
    country: Json,
    airport: Json,
    category: Json,
    rating: Json,
    confidenceRating: Json,
    amenities: seq<string>,
    tripadvisorRating: Json,
    locationDescription: Json,
    shortDescription: Json,
    highRate: Json,
    lowRate: Json,
    currency: Json,
    latitude: Json,
    longitude: Json,
    proximityDistance: Json,
    proximityUnit: Json,
    inDestination: Json,
    thumbnailPath: Json,
    eanUrl: Json,
    rooms: Option<seq<Room>>)

  /** `rooms` is parsed only when `RoomRateDetailsList` is truthy, and is
      left unset (`None`) otherwise. */
  function RoomsOf(list: Json): Result<Option<seq<Room>>> {
    if Truthy(list) then
      var rs :- ParseRooms(list);
      Ok(Some(rs))
    else Ok(None)
  }

  /** The `Hotel.new` block for one summary, in the order it assigns: the
      address join, then the amenity decoding, then the rooms. The
      proximity distance is read from `"promixityDistance"`, as spelled in
      the client. */
  function HotelNew(data: Json): Result<Hotel> {
    match Index(data, "hotelId")
    case Err(f) => Err(f)
    case Ok(_) =>
      var address :- AddressOf(At(data, "address1"), At(data, "address2"));
      var amenities :- ParseAmenities(At(data, "amenityMask"));
      var rooms :- RoomsOf(At(data, "RoomRateDetailsList"));
      Ok(Copied(data, address, amenities, rooms))
  }

  /** The fields the block copies straight from the summary, around the
      three it computes. */
  function Copied(data: Json, address: Json, amenities: seq<string>, rooms: Option<seq<Room>>): Hotel
    requires Indexable(data)
  {
    Hotel(
      At(data, "hotelId"), At(data, "name"), address, At(data, "city"), At(data, "stateProvinceCode"),
      At(data, "postalCode"), At(data, "countryCode"), At(data, "airportCode"),
      At(data, "propertyCategory"), At(data, "hotelRating"), At(data, "confidenceRating"), amenities,
      At(data, "tripAdvisorRating"), At(data, "locationDescription"), At(data, "shortDescription"),
      At(data, "highRate"), At(data, "lowRate"), At(data, "rateCurrencyCode"), At(data, "latitude"),
      At(data, "longitude"), At(data, "promixityDistance"), At(data, "proximityUnit"),
      At(data, "hotelInDestination"), At(data, "thumbNailUrl"), At(data, "deepLink"), rooms)
  }

  /** A summary object becomes a hotel exactly when its address lines join,
      its `amenityMask` is an Integer, and its room list, when present,
      parses. */
  lemma HotelNewOk(fields: seq<(string, Json)>)
    ensures HotelNew(Obj(fields)).Ok? <==>
      && AddressOf(Member(fields, "address1"), Member(fields, "address2")).Ok?
      && Member(fields, "amenityMask").Int?
      && (Truthy(Member(fields, "RoomRateDetailsList")) ==> ParseRooms(Member(fields, "RoomRateDetailsList")).Ok?)
  {
  }

  /** The decoded fields of a hotel: the amenity names of its mask, its
      joined address, and its rooms when listed. */
  lemma HotelDecoded(fields: seq<(string, Json)>)
    requires HotelNew(Obj(fields)).Ok?
    ensures var h := HotelNew(Obj(fields)).value;
      && Ok(h.address) == AddressOf(Member(fields, "address1"), Member(fields, "address2"))
      && Ok(h.amenities) == ParseAmenities(Member(fields, "amenityMask"))
      && Ok(h.rooms) == RoomsOf(Member(fields, "RoomRateDetailsList"))
  {
  }

  /** The renamed fields of a hotel, among them the proximity distance,
      read under the misspelled key: a correctly spelled
      `proximityDistance` is not read. */
  lemma HotelRenamed(fields: seq<(string, Json)>)
    requires HotelNew(Obj(fields)).Ok?
    ensures var h := HotelNew(Obj(fields)).value;
      && h.id == Member(fields, "hotelId")
      && h.province == Member(fields, "stateProvinceCode")
      && h.postal == Member(fields, "postalCode")
      && h.country == Member(fields, "countryCode")
      && h.airport == Member(fields, "airportCode")
      && h.category == Member(fields, "propertyCategory")
      && h.rating == Member(fields, "hotelRating")
      && h.tripadvisorRating == Member(fields, "tripAdvisorRating")
      && h.currency == Member(fields, "rateCurrencyCode")
      && h.proximityDistance == Member(fields, "promixityDistance")
      && h.inDestination == Member(fields, "hotelInDestination")
      && h.thumbnailPath == Member(fields, "thumbNailUrl")
      && h.eanUrl == Member(fields, "deepLink")
  {
    var d := Obj(fields);
    var h := HotelNew(d).value;
    assert h == Copied(d, h.address, h.amenities, h.rooms);
  }

  /** The fields a hotel keeps under the summary's own names, snake-cased. */
  lemma HotelSameNamed(fields: seq<(string, Json)>)
    requires HotelNew(Obj(fields)).Ok?
    ensures var h := HotelNew(Obj(fields)).value;
      && h.name == Member(fields, "name")
      && h.city == Member(fields, "city")
      && h.confidenceRating == Member(fields, "confidenceRating")
      && h.locationDescription == Member(fields, "locationDescription")
      && h.shortDescription == Member(fields, "shortDescription")
      && h.highRate == Member(fields, "highRate")
      && h.lowRate == Member(fields, "lowRate")
      && h.latitude == Member(fields, "latitude")
      && h.longitude == Member(fields, "longitude")
      && h.proximityUnit == Member(fields, "proximityUnit")
  {
    var d := Obj(fields);
    var h := HotelNew(d).value;
    assert h == Copied(d, h.address, h.amenities, h.rooms);
  }

  /** `Hotel.new` over each summary, in order; the first error stops. */
  function HotelAll(xs: seq<Json>): (r: Result<seq<Hotel>>)
    ensures r.Ok? <==> forall i :: 0 <= i < |xs| ==> HotelNew(xs[i]).Ok?
    ensures r.Ok? ==> |r.value| == |xs| && forall i :: 0 <= i < |xs| ==> HotelNew(xs[i]) == Ok(r.value[i])
  {
    MapResult(xs, HotelNew)
  }

  /** `handle(error)`: the exception raised for a vendor error node. A
      reservation counts as made whenever `itineraryId` is not `-1`,
      including when it is absent. */
  function Handle(error: Json): Fault {
    match Index(error, "presentationMessage")
    case Err(f) => f
    case Ok(message) =>
      var itinerary := At(error, "itineraryId");
      var made := itinerary != Int(-1);
      Raised(EanException(message, At(error, "verboseMessage"), At(error, "handling"), made,
                          if made then itinerary else Null, error))
  }

  /** For an error object, `handle` raises an `EANException` that carries
      the presentation message, the verbose message, the handling advice
      and the node itself; it reports a reservation, with the itinerary id,
      exactly when that id is not `-1`. */
  lemma HandleObject(fields: seq<(string, Json)>)
    ensures Handle(Obj(fields)).Raised?
    ensures var e := Handle(Obj(fields)).exception;
      && e.message == Member(fields, "presentationMessage")
      && e.verboseMessage == Member(fields, "verboseMessage")
      && e.recoverability == Member(fields, "handling")
      && e.raw == Obj(fields)
      && (e.reservationMade <==> Member(fields, "itineraryId") != Int(-1))
      && e.reservationId == (if e.reservationMade then Member(fields, "itineraryId") else Null)
  {
  }

  /** `parse_hotel_list`, from the parsed body on. */
  function ParseHotelList(parsed: Json): Result<seq<Hotel>> {
    var root :- Index(parsed, "HotelListResponse");
    var error :- Index(root, "EanWsError");
    if Truthy(error) then Err(Handle(error))
    else
      var list :- Index(root, "HotelList");
      var summary :- Index(list, "HotelSummary");
      HotelAll(Flatten(Arr([summary])))
  }

  /** A response whose root holds a truthy `EanWsError` never yields
      hotels: it raises what `handle` raises. */
  lemma ParseHotelListError(root: seq<(string, Json)>, rest: seq<(string, Json)>)
    requires Truthy(Member(root, "EanWsError"))
    ensures ParseHotelList(Obj([("HotelListResponse", Obj(root))] + rest)) == Err(Handle(Member(root, "EanWsError")))
  {
    var parsed := Obj([("HotelListResponse", Obj(root))] + rest);
    assert Member(parsed.fields, "HotelListResponse") == Obj(root);
  }

  /** The root of a list response with no vendor error. */
  function ListRoot(summary: Json): Json {
    Obj([("HotelListResponse", Obj([("HotelList", Obj([("HotelSummary", summary)]))]))])
  }

  /** The summaries of a list response without a vendor error. */
  lemma ParseListRoot(summary: Json)
    ensures ParseHotelList(ListRoot(summary)) == HotelAll(Flatten(Arr([summary])))
  {
    var list := Obj([("HotelSummary", summary)]);
    var root := Obj([("HotelList", list)]);
    assert Member(ListRoot(summary).fields, "HotelListResponse") == root;
    assert Member(root.fields, "EanWsError") == Null;
    assert Member(root.fields, "HotelList") == list;
    assert Member(list.fields, "HotelSummary") == summary;
  }

  /** A lone summary object is read as a list of one hotel, exactly as the
      same object wrapped in an Array is. */
  lemma ParseHotelListSingle(x: Json)
    requires !x.Arr?
    ensures ParseHotelList(ListRoot(x)) == HotelAll([x])
    ensures ParseHotelList(ListRoot(x)) == ParseHotelList(ListRoot(Arr([x])))
  {
    ParseListRoot(x);
    ParseListRoot(Arr([x]));
    SingletonFlatten(x);
    FlattenList([x]);
  }

  /** A list of summary objects gives one hotel per object, in order. */
  lemma ParseHotelListEach(xs: seq<Json>)
    requires forall i :: 0 <= i < |xs| ==> !xs[i].Arr?
    ensures ParseHotelList(ListRoot(Arr(xs))) == HotelAll(xs)
  {
    ParseListRoot(Arr(xs));
    FlattenList(xs);
  }

  /** A root without a `HotelList` member (and without a vendor error)
      raises: `nil["HotelSummary"]` has no `[]`. */
  lemma ParseHotelListNoList(root: seq<(string, Json)>, rest: seq<(string, Json)>)
    requires !Truthy(Member(root, "EanWsError"))
    requires Member(root, "HotelList") == Null
    ensures ParseHotelList(Obj([("HotelListResponse", Obj(root))] + rest)) == Err(NoMethodError("[]"))
  {
    var parsed := Obj([("HotelListResponse", Obj(root))] + rest);
    assert Member(parsed.fields, "HotelListResponse") == Obj(root);
  }

  /** With no `HotelSummary` member the list is `[nil]`, and reading a hotel
      from `nil` raises. */
  lemma ParseHotelListNoSummary()
    ensures ParseHotelList(ListRoot(Null)) == Err(NoMethodError("[]"))
  {
    ParseListRoot(Null);
    SingletonFlatten(Null);
    assert HotelNew(Null) == Err(NoMethodError("[]"));
  }
}
