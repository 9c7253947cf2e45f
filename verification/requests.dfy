/** The request classes: the generic `EanRequest` with its
    `ItineraryRequest` subclass, the stand-alone `HotelInfoRequest`, and the
    request Hash `PaymentOption.find` builds. The HTTP exchange itself is a
    parameter: each request takes the response body as already parsed. */
module Requests {
  import opened Values
  import opened Strings
  import opened KeyCodec
  import opened Query
  import opened ResponseObject
  import opened Schemas
  import opened HotelImages
  import D = Dates
  import W = Vocabulary

  // ---------------------------------------------------------------------
  // Key translation

  /** `ruby_req_params.each { |k, v| req_params[eanize_key(k)] = v }`: each
      key, Symbol or String, is replaced by the String of its eanized name,
      and the entries are assigned in order into an empty Hash. */
  function Translate(p: Params): (r: Params)
    ensures Distinct(r)
    ensures forall k :: k in KeysOf(r) ==> k.Txt?
  {
    if |p| == 0 then []
    else
      var k := Txt(EanizeLower(p[|p| - 1].0.name));
      var rest := Translate(p[..|p| - 1]);
      PutDistinct(rest, k, p[|p| - 1].1);
      Put(rest, k, p[|p| - 1].1)
  }

  /** The value of the last entry whose key eanizes to `name`. */
  function Latest(p: Params, name: string): Option<Scalar> {
    if |p| == 0 then None
    else if EanizeLower(p[|p| - 1].0.name) == name then Some(p[|p| - 1].1)
    else Latest(p[..|p| - 1], name)
  }

  /** The translated Hash holds String keys only, and under each the value
      of the last caller entry that eanizes to it: a later key overwrites an
      earlier one with the same wire name. */
  lemma {:induction false} TranslateGet(p: Params, k: Key)
    ensures Get(Translate(p), k) == if k.Txt? then Latest(p, k.name) else None
  {
    if |p| > 0 {
      TranslateGet(p[..|p| - 1], k);
    }
  }

  /** When no two caller keys share a wire name, translation renames every
      key in place and keeps the order. */
  lemma {:induction false} TranslateInOrder(p: Params)
    requires forall i, j :: 0 <= i < j < |p| ==> EanizeLower(p[i].0.name) != EanizeLower(p[j].0.name)
    ensures |Translate(p)| == |p|
    ensures forall i :: 0 <= i < |p| ==> Translate(p)[i] == (Txt(EanizeLower(p[i].0.name)), p[i].1)
  {
    if |p| > 0 {
      var init := p[..|p| - 1];
      var last := p[|p| - 1];
      var k := Txt(EanizeLower(last.0.name));
      assert forall i :: 0 <= i < |init| ==> init[i] == p[i];
      TranslateInOrder(init);
      var t := Translate(init);
      FreshName(t, k);
      assert Translate(p) == t + [(k, last.1)];
      forall i | 0 <= i < |p|
        ensures (t + [(k, last.1)])[i] == (Txt(EanizeLower(p[i].0.name)), p[i].1)
      {
        if i < |init| {
          assert (t + [(k, last.1)])[i] == t[i];
        }
      }
    }
  }

  /** A key none of whose entries matches is not a key of the Hash. */
  lemma FreshName(t: Params, k: Key)
    requires forall i :: 0 <= i < |t| ==> t[i].0 != k
    ensures k !in KeysOf(t)
  {
    KeysOfIndex(t, k);
  }

  /** A Symbol key and a String key with the same name land on one entry,
      and the later value wins. */
  lemma TranslateCollide(n: string, a: Scalar, b: Scalar)
    ensures Translate([(Sym(n), a), (Txt(n), b)]) == [(Txt(EanizeLower(n)), b)]
  {
    var p := [(Sym(n), a), (Txt(n), b)];
    assert p[..1] == [(Sym(n), a)];
    var k := Txt(EanizeLower(n));
    var none: Params := [];
    assert p[..1][..0] == none;
    assert Translate(p[..1]) == [(k, a)];
    assert Put([(k, a)], k, b) == [(k, b)];
  }

  // ---------------------------------------------------------------------
  // Signing and addressing

  const InfoPath := "/ean-services/rs/hotel/v3/info?"
  const ItinPath := "/ean-services/rs/hotel/v3/itin?"

  /** What a request sends: the host, the path with its query string, and
      the Hash as `provision_request` leaves it. */
  datatype Call = Call(baseUrl: string, path: string, params: Params)

  /** Translating the caller's Hash, signing it, and appending its query
      string to `prefix`. */
  function Signed(config: Config, p: Params, prefix: string): Call {
    var prov := Provision(config, Translate(p), false);
    Call(prov.baseUrl, prefix + prov.query, prov.params)
  }

  lemma CredentialSymbols(config: Config)
    ensures forall k :: k in KeysOf(Credentials(config, true)) ==> k.Sym?
  {
    var c := Credentials(config, true);
    forall k | k in KeysOf(c)
      ensures k.Sym?
    {
      KeysOfIndex(c, k);
    }
  }

  /** A request goes to the non-booking host. Since every translated key is
      a String and every credential key a Symbol, no caller entry replaces
      a credential: the kept caller entries come first, in order, and the
      set credentials follow, `apiExperience` included. The query string
      after the path reads back as exactly those entries. */
  lemma SignedSends(config: Config, p: Params, prefix: string)
    ensures Signed(config, p, prefix).baseUrl == BaseUrl(config, false)
    ensures Signed(config, p, prefix).params == DeleteNil(Translate(p)) + DeleteNil(Credentials(config, true))
    ensures |prefix| <= |Signed(config, p, prefix).path|
    ensures Signed(config, p, prefix).path[..|prefix|] == prefix
    ensures ParseQuery(Signed(config, p, prefix).path[|prefix|..]) == Some(Expected(Signed(config, p, prefix).params))
  {
    var t := Translate(p);
    CredentialSymbols(config);
    assert KeysOf(t) !! KeysOf(Credentials(config, true));
    SignAppends(config, t, true);
    var call := Signed(config, p, prefix);
    assert call.path[|prefix|..] == Render(call.params);
    QueryRoundTrip(call.params);
  }

  // ---------------------------------------------------------------------
  // EanRequest and ItineraryRequest

  /** An `EanRequest` class: the base class under its own name, or the
      `ItineraryRequest` subclass with its overrides. */
  datatype RequestClass = Generic(name: string) | ItineraryRequest

  function ResponseObjectName(c: RequestClass): string {
    match c
    case Generic(name) => Demodulize(name)
    case ItineraryRequest => "HotelItineraryResponse"
  }

  /** The path `relative_uri` puts in front of the query string. */
  function PathOf(c: RequestClass): string {
    if c.ItineraryRequest? then ItinPath else InfoPath
  }

  /** `request_specific_parse`, which neither class overrides. */
  function RequestSpecificParse(c: RequestClass, root: Json): Json {
    root
  }

  /** `parse(body)`: the member named after the class when it is truthy,
      and an empty Hash otherwise. */
  function Parse(c: RequestClass, parsed: Json): (r: Result<Json>)
    ensures r.Ok? <==> Indexable(parsed)
  {
    var root :- Index(parsed, ResponseObjectName(c));
    if Truthy(root) then Ok(RequestSpecificParse(c, root)) else Ok(Obj([]))
  }

  /** A class `m::n` finds its response under `n`, the last segment of its
      name. */
  lemma ParseNamed(m: string, n: string, fields: seq<(string, Json)>, v: Json)
    requires ':' !in n
    requires Lookup(fields, n) == Some(v) && Truthy(v)
    ensures Parse(Generic(m + "::" + n), Obj(fields)) == Ok(v)
  {
    DemodulizeQualified(m, n);
  }

  /** The itinerary request reads `HotelItineraryResponse` instead. */
  lemma ParseItinerary(fields: seq<(string, Json)>, v: Json)
    requires Lookup(fields, "HotelItineraryResponse") == Some(v) && Truthy(v)
    ensures Parse(ItineraryRequest, Obj(fields)) == Ok(v)
  {
  }

  /** A missing, `nil` or `false` member parses to an empty Hash. */
  lemma ParseNothing(c: RequestClass, fields: seq<(string, Json)>)
    requires !Truthy(Member(fields, ResponseObjectName(c)))
    ensures Parse(c, Obj(fields)) == Ok(Obj([]))
  {
  }

  /** `Result.new(url, req_params, body, value)`, keeping what was sent and
      the parsed value. */
  datatype Reply<T> = Reply(call: Call, value: T)

  /** `self.request(ruby_req_params)` given the parsed response body: the
      call goes out whatever the body, and parsing it decides the outcome. */
  function Request(config: Config, c: RequestClass, p: Params, response: Json): (r: Result<Reply<Json>>)
    ensures r.Ok? <==> Indexable(response)
    ensures r.Ok? ==> r.value.call == Signed(config, p, PathOf(c))
    ensures r.Ok? ==> Parse(c, response) == Ok(r.value.value)
  {
    var value :- Parse(c, response);
    Ok(Reply(Signed(config, p, PathOf(c)), value))
  }

  /** `initialize(ruby_req_params)`: no request at all for `nil` or `false`,
      otherwise the request's outcome as `@result`. */
  function EanRequestNew(config: Config, c: RequestClass, p: Option<Params>, response: Json)
    : (r: Result<Option<Reply<Json>>>)
    ensures p.None? ==> r == Ok(None)
    ensures p.Some? ==> (r.Ok? <==> Request(config, c, p.value, response).Ok?)
    ensures p.Some? && r.Ok? ==> r.value == Some(Request(config, c, p.value, response).value)
  {
    if p.None? then Ok(None)
    else
      var reply :- Request(config, c, p.value, response);
      Ok(Some(reply))
  }

  /** The itinerary request's default Hash: a window from a week before
      `today` to `today`, both as ISO 8601 dates. */
  function ItineraryDefaults(today: D.Date): Params
    requires D.Valid(today) && D.Ordinal(today) > 7
  {
    [(Sym(Join([W.Creation, W.Date, W.Start], "_")), Str(D.Iso8601(D.MinusDays(today, 7)))),
     (Sym(Join([W.Creation, W.Date, W.End], "_")), Str(D.Iso8601(today)))]
  }

  /** `ItineraryRequest.new` with no argument. */
  function ItineraryNewDefault(config: Config, today: D.Date, response: Json): (r: Result<Option<Reply<Json>>>)
    requires D.Valid(today) && D.Ordinal(today) > 7
    ensures r.Ok? <==> Indexable(response)
    ensures r.Ok? ==> r.value.Some? && r.value.value.call == Signed(config, ItineraryDefaults(today), ItinPath)
  {
    EanRequestNew(config, ItineraryRequest, Some(ItineraryDefaults(today)), response)
  }

  /** The default window is sent under the wire names of the start and end
      fields of `ItineraryQuery`, and it reads back as two dates seven days
      apart, the later one `today`. */
  lemma ItineraryWindow(today: D.Date)
    requires D.Valid(today) && D.Ordinal(today) > 7
    ensures var t := Translate(ItineraryDefaults(today));
      |t| == 2 && t[0].0 == Txt(ItineraryQuery.schema.text[1]) && t[1].0 == Txt(ItineraryQuery.schema.text[0]) &&
      t[0].1.Str? && t[1].1.Str? &&
      D.ParseIso(t[1].1.s) == Some(today) &&
      D.ParseIso(t[0].1.s).Some? && D.Valid(D.ParseIso(t[0].1.s).value) &&
      D.Ordinal(D.ParseIso(t[0].1.s).value) == D.Ordinal(today) - 7
  {
    var start := D.MinusDays(today, 7);
    ItineraryTranslated(D.Iso8601(start), D.Iso8601(today));
    assert ItineraryQuery.schema.text == Names(QueryTexts);
    D.IsoRoundTrip(today);
    D.IsoRoundTrip(start);
  }

  /** The two default keys become the two distinct lowerCamel names. */
  lemma ItineraryTranslated(from: string, to: string)
    ensures Translate([(Sym(Join([W.Creation, W.Date, W.Start], "_")), Str(from)),
                       (Sym(Join([W.Creation, W.Date, W.End], "_")), Str(to))]) ==
      [(Txt(CamelWords([W.Creation, W.Date, W.Start])), Str(from)),
       (Txt(CamelWords([W.Creation, W.Date, W.End])), Str(to))]
  {
    var start: Spelling := [W.Creation, W.Date, W.Start];
    var end: Spelling := [W.Creation, W.Date, W.End];
    EanizeWords(start);
    EanizeWords(end);
    DistinctSpellings(start, end);
    var p := [(Sym(Join(start, "_")), Str(from)), (Sym(Join(end, "_")), Str(to))];
    var first := [(Txt(CamelWords(start)), Str(from))];
    var none: Params := [];
    assert p[..1][..0] == none;
    assert Translate(p[..1]) == first;
    assert KeysOf(first) == {Txt(CamelWords(start))};
  }

  // ---------------------------------------------------------------------
  // HotelInfoRequest

  /** What `parse_info` collects; `None` where it sets nothing. */
  datatype Info = Info(
    hotelImages: Option<seq<Attrs>>,
    propertyAmenities: Option<seq<Attrs>>,
    hotelDetails: Option<Attrs>,
    hotelSummary: Option<Attrs>,
    customerSessionId: Option<Json>)

  const NoInfo := Info(None, None, None, None, None)

  /** `eanize_key(:customer_session_id)`. */
  const SessionKey: string := EanizeLower(Join([W.Customer, W.Session, W.Id], "_"))

  lemma SessionKeyName()
    ensures SessionKey == "customerSessionId"
  {
    EanizeWords([W.Customer, W.Session, W.Id]);
    CustomerSessionId();
  }

  lemma CustomerSessionId()
    ensures CamelWords([W.Customer, W.Session, W.Id]) == "customerSessionId"
  {
    assert [W.Customer, W.Session, W.Id][1..] == [W.Session, W.Id];
    assert [W.Session, W.Id][1..] == [W.Id];
    assert ToUpper('s') == 'S';
    assert ToUpper('i') == 'I';
    assert CamelTail([W.Id]) == "Id";
    assert CamelTail([W.Session, W.Id]) == "SessionId";
  }

  lemma HotelIdName()
    ensures EanizeLower(Join([W.Hotel, W.Id], "_")) == "hotelId"
  {
    EanizeWords([W.Hotel, W.Id]);
    assert [W.Hotel, W.Id][1..] == [W.Id];
    assert ToUpper('i') == 'I';
    assert CamelTail([W.Id]) == "Id";
  }

  /** `x = parse(root[key]) if root[key]`: `None` when the member is missing,
      `nil` or `false`. */
  function Part<T>(root: Json, key: string, parse: Json -> Result<T>): (r: Result<Option<T>>)
    ensures root.Obj? && !Truthy(Member(root.fields, key)) ==> r == Ok(None)
    ensures root.Obj? && Truthy(Member(root.fields, key)) ==> (r.Ok? <==> parse(Member(root.fields, key)).Ok?)
    ensures root.Obj? && Truthy(Member(root.fields, key)) && r.Ok? ==> r.value == Some(parse(Member(root.fields, key)).value)
  {
    var node :- Index(root, key);
    if !Truthy(node) then Ok(None)
    else
      var v :- parse(node);
      Ok(Some(v))
  }

  /** `HotelImage.array_parse`, which `HotelImage` does not define. */
  function MissingArrayParse(node: Json): Result<seq<Attrs>> {
    Err(NoMethodError("array_parse"))
  }

  function AmenityList(node: Json): Result<seq<Attrs>> {
    ArrayParse(PropertyAmenity, node)
  }

  function DetailsOf(node: Json): Result<Attrs> {
    New(HotelDetails, node)
  }

  function SummaryOf(node: Json): Result<Attrs> {
    New(HotelSummary, node)
  }

  /** The parts of a truthy root, the images read by `images`. */
  function InfoOf(root: Json, images: Json -> Result<seq<Attrs>>): Result<Info> {
    var imgs :- Part(root, "HotelImages", images);
    var amenities :- Part(root, "PropertyAmenities", AmenityList);
    var details :- Part(root, "HotelDetails", DetailsOf);
    var summary :- Part(root, "HotelSummary", SummaryOf);
    var session :- Index(root, SessionKey);
    Ok(Info(imgs, amenities, details, summary, Some(session)))
  }

  lemma InfoOfParts(root: Json, images: Json -> Result<seq<Attrs>>)
    ensures InfoOf(root, images).Ok? <==>
      Part(root, "HotelImages", images).Ok? && Part(root, "PropertyAmenities", AmenityList).Ok? &&
      Part(root, "HotelDetails", DetailsOf).Ok? && Part(root, "HotelSummary", SummaryOf).Ok? &&
      Index(root, SessionKey).Ok?
    ensures InfoOf(root, images).Ok? ==> InfoOf(root, images).value == Info(
      Part(root, "HotelImages", images).value, Part(root, "PropertyAmenities", AmenityList).value,
      Part(root, "HotelDetails", DetailsOf).value, Part(root, "HotelSummary", SummaryOf).value,
      Some(Index(root, SessionKey).value))
  {
  }

  function ParseInfoWith(parsed: Json, images: Json -> Result<seq<Attrs>>): Result<Info> {
    var root :- Index(parsed, "HotelInformationResponse");
    if !Truthy(root) then Ok(NoInfo) else InfoOf(root, images)
  }

  /** `parse_info(body)` as written: images go to `HotelImage.array_parse`. */
  function ParseInfoAsWritten(parsed: Json): Result<Info> {
    ParseInfoWith(parsed, MissingArrayParse)
  }

  /** `parse_info(body)` with the images read by `HotelImage.images`, which
      parses the same `HotelImages` node. */
  function ParseInfo(parsed: Json): Result<Info> {
    ParseInfoWith(parsed, Images)
  }

  /** The root carries a truthy `HotelImages` node. */
  predicate HasImages(root: Json) {
    Index(root, "HotelImages").Ok? && Truthy(Index(root, "HotelImages").value)
  }

  /** The response carries a truthy root with a truthy `HotelImages` node. */
  predicate ImagesPresent(parsed: Json) {
    Index(parsed, "HotelInformationResponse").Ok? &&
    Truthy(Index(parsed, "HotelInformationResponse").value) &&
    HasImages(Index(parsed, "HotelInformationResponse").value)
  }

  lemma InfoOfAsWritten(root: Json)
    ensures HasImages(root) ==> InfoOf(root, MissingArrayParse) == Err(NoMethodError("array_parse"))
    ensures !HasImages(root) ==> InfoOf(root, MissingArrayParse) == InfoOf(root, Images)
  {
    if !HasImages(root) {
      assert Part(root, "HotelImages", MissingArrayParse) == Part(root, "HotelImages", Images);
    }
  }

  /** As written, every response with images raises `NoMethodError`; on
      every other response the two readings agree. */
  lemma ParseInfoAsWrittenRaises(parsed: Json)
    ensures ImagesPresent(parsed) ==> ParseInfoAsWritten(parsed) == Err(NoMethodError("array_parse"))
    ensures !ImagesPresent(parsed) ==> ParseInfoAsWritten(parsed) == ParseInfo(parsed)
  {
    var root := Index(parsed, "HotelInformationResponse");
    if root.Ok? && Truthy(root.value) {
      InfoOfAsWritten(root.value);
    }
  }

  function SampleInfo(): Json {
    Obj([("HotelInformationResponse", Obj([("HotelImages", Obj([("HotelImage", Arr([]))]))]))])
  }

  /** The smallest such response: one with an empty image list. */
  lemma ParseInfoSample()
    ensures ParseInfoAsWritten(SampleInfo()) == Err(NoMethodError("array_parse"))
    ensures ParseInfo(SampleInfo()) == Ok(Info(Some([]), None, None, None, Some(Null)))
  {
    var images := Obj([("HotelImage", Arr([]))]);
    var root := Obj([("HotelImages", images)]);
    assert Index(root, "HotelImages") == Ok(images);
    assert Images(images) == Ok([]) by {
      assert MapItems(Arr([])) == Ok([]);
    }
    assert Part(root, "HotelImages", Images) == Ok(Some([]));
    assert Index(root, SessionKey) == Ok(Null) by {
      SessionKeyName();
    }
  }

  /** Without a truthy `HotelInformationResponse` nothing is set. */
  lemma ParseInfoNothing(fields: seq<(string, Json)>)
    requires !Truthy(Member(fields, "HotelInformationResponse"))
    ensures ParseInfo(Obj(fields)) == Ok(NoInfo)
    ensures ParseInfoAsWritten(Obj(fields)) == Ok(NoInfo)
  {
  }

  /** Under a Hash root the reading succeeds exactly when every truthy
      part parses by its class. */
  lemma ParseInfoOk(fields: seq<(string, Json)>, root: seq<(string, Json)>)
    requires Lookup(fields, "HotelInformationResponse") == Some(Obj(root))
    ensures ParseInfo(Obj(fields)).Ok? <==>
      (Truthy(Member(root, "HotelImages")) ==> Images(Member(root, "HotelImages")).Ok?) &&
      (Truthy(Member(root, "PropertyAmenities")) ==> ArrayParse(PropertyAmenity, Member(root, "PropertyAmenities")).Ok?) &&
      (Truthy(Member(root, "HotelDetails")) ==> New(HotelDetails, Member(root, "HotelDetails")).Ok?) &&
      (Truthy(Member(root, "HotelSummary")) ==> New(HotelSummary, Member(root, "HotelSummary")).Ok?)
  {
    assert ParseInfo(Obj(fields)) == InfoOf(Obj(root), Images);
    InfoOfParts(Obj(root), Images);
  }

  /** Each part is set exactly when its node is truthy, and then holds that
      node parsed by its class; the session id is always set, to `nil` when
      absent. */
  lemma ParseInfoParts(fields: seq<(string, Json)>, root: seq<(string, Json)>)
    requires Lookup(fields, "HotelInformationResponse") == Some(Obj(root))
    requires ParseInfo(Obj(fields)).Ok?
    ensures var info := ParseInfo(Obj(fields)).value;
      (info.hotelImages.Some? <==> Truthy(Member(root, "HotelImages"))) &&
      (info.propertyAmenities.Some? <==> Truthy(Member(root, "PropertyAmenities"))) &&
      (info.hotelDetails.Some? <==> Truthy(Member(root, "HotelDetails"))) &&
      (info.hotelSummary.Some? <==> Truthy(Member(root, "HotelSummary")))
    ensures ParseInfo(Obj(fields)).value.customerSessionId == Some(Member(root, "customerSessionId"))
    ensures var info := ParseInfo(Obj(fields)).value;
      info.hotelDetails.Some? ==> New(HotelDetails, Member(root, "HotelDetails")) == Ok(info.hotelDetails.value)
    ensures var info := ParseInfo(Obj(fields)).value;
      info.hotelSummary.Some? ==> New(HotelSummary, Member(root, "HotelSummary")) == Ok(info.hotelSummary.value)
  {
    SessionKeyName();
    assert ParseInfo(Obj(fields)) == InfoOf(Obj(root), Images);
    InfoOfParts(Obj(root), Images);
  }

  /** An image list parses to one image per element, in order. */
  lemma ParseInfoImages(fields: seq<(string, Json)>, root: seq<(string, Json)>,
                        imageFields: seq<(string, Json)>, items: seq<Json>)
    requires Lookup(fields, "HotelInformationResponse") == Some(Obj(root))
    requires Lookup(root, "HotelImages") == Some(Obj(imageFields))
    requires Lookup(imageFields, "HotelImage") == Some(Arr(items))
    requires ParseInfo(Obj(fields)).Ok?
    ensures var imgs := ParseInfo(Obj(fields)).value.hotelImages;
      imgs.Some? && |imgs.value| == |items| &&
      forall i :: 0 <= i < |items| ==> ImageNew(items[i]) == Ok(imgs.value[i])
  {
    assert ParseInfo(Obj(fields)) == InfoOf(Obj(root), Images);
    InfoOfParts(Obj(root), Images);
    ImagesEach(imageFields, items);
  }

  /** `HotelInfoRequest.request`'s default Hash. */
  const InfoDefaults: Params := [(Sym(Join([W.Hotel, W.Id], "_")), Int(106347))]

  /** The default request asks for hotel 106347 under `hotelId`. */
  lemma InfoDefaultsSent(config: Config)
    ensures Signed(config, InfoDefaults, InfoPath).params ==
      [(Txt("hotelId"), Int(106347))] + DeleteNil(Credentials(config, true))
  {
    var sent: Params := [(Txt("hotelId"), Int(106347))];
    InfoDefaultsTranslated();
    assert DeleteNil(sent) == sent by {
      assert sent[1..] == [];
    }
    SignedSends(config, InfoDefaults, InfoPath);
  }

  lemma InfoDefaultsTranslated()
    ensures Translate(InfoDefaults) == [(Txt("hotelId"), Int(106347))]
  {
    HotelIdName();
    assert InfoDefaults[..0] == [];
  }

  /** `HotelInfoRequest.request(ruby_req_params)`. */
  function InfoRequest(config: Config, p: Params, response: Json): (r: Result<Reply<Info>>)
    ensures r.Ok? <==> ParseInfo(response).Ok?
    ensures r.Ok? ==> r.value.call == Signed(config, p, InfoPath) && r.value.value == ParseInfo(response).value
  {
    var info :- ParseInfo(response);
    Ok(Reply(Signed(config, p, InfoPath), info))
  }

  /** A `HotelInfoRequest` instance: `@result` and the four parts copied
      out of it. */
  datatype InfoRequestState = InfoRequestState(
    result: Option<Reply<Info>>,
    hotelImages: Option<seq<Attrs>>,
    propertyAmenities: Option<seq<Attrs>>,
    hotelDetails: Option<Attrs>,
    hotelSummary: Option<Attrs>)

  /** `HotelInfoRequest.new(ruby_req_params)`. */
  function InfoNew(config: Config, p: Option<Params>, response: Json): (r: Result<InfoRequestState>)
    ensures p.None? ==> r == Ok(InfoRequestState(None, None, None, None, None))
    ensures p.Some? ==> (r.Ok? <==> ParseInfo(response).Ok?)
    ensures p.Some? && r.Ok? ==> r.value.result.Some? && r.value.result.value.call == Signed(config, p.value, InfoPath)
    ensures p.Some? && r.Ok? ==> var info := ParseInfo(response).value;
      r.value.hotelImages == info.hotelImages && r.value.propertyAmenities == info.propertyAmenities &&
      r.value.hotelDetails == info.hotelDetails && r.value.hotelSummary == info.hotelSummary
  {
    if p.None? then Ok(InfoRequestState(None, None, None, None, None))
    else
      var reply :- InfoRequest(config, p.value, response);
      var info := reply.value;
      Ok(InfoRequestState(Some(reply), info.hotelImages, info.propertyAmenities, info.hotelDetails, info.hotelSummary))
  }

  // ---------------------------------------------------------------------
  // PaymentOption

  /** `PaymentOption.new(code, name)`. */
  datatype PaymentOption = PaymentOption(code: Json, name: Json)

  function OrNil(o: Option<Scalar>): Scalar {
    if o.Some? then o.value else Null
  }

  /** The Hash `find(payment_hash)` builds before it fails. */
  function PaymentParams(payment: Params): Params {
    var cc := OrNil(Get(payment, Sym("currency_code")));
    var locale := OrNil(Get(payment, Sym("locale")));
    Put(Put([], Sym("currencyCode"), cc), Sym("locale"), locale)
  }

  /** The payment query carries the currency code and the locale, in that
      order and only where set, and no credential: the two keys are not
      among the credential keys. */
  lemma PaymentQuery(config: Config, payment: Params)
    ensures ParseQuery(Render(PaymentParams(payment))) == Some(
      Expected([(Sym("currencyCode"), OrNil(Get(payment, Sym("currency_code")))),
                (Sym("locale"), OrNil(Get(payment, Sym("locale"))))]))
    ensures KeysOf(PaymentParams(payment)) !! KeysOf(Credentials(config, true))
  {
    var q := PaymentParams(payment);
    PaymentEntries(payment);
    QueryRoundTrip(q);
    var c := Credentials(config, true);
    forall k | k in KeysOf(c)
      ensures k !in KeysOf(q)
    {
      KeysOfIndex(c, k);
      KeysOfIndex(q, k);
    }
  }

  /** The payment Hash holds the two renamed entries, in order. */
  lemma PaymentEntries(payment: Params)
    ensures PaymentParams(payment) == [(Sym("currencyCode"), OrNil(Get(payment, Sym("currency_code")))),
                                       (Sym("locale"), OrNil(Get(payment, Sym("locale"))))]
  {
    var cc := OrNil(Get(payment, Sym("currency_code")));
    var none: Params := [];
    assert Put(none, Sym("currencyCode"), cc) == [(Sym("currencyCode"), cc)];
  }
}
