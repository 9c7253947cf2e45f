# suitcase EAN client — a Dafny model

This project models the pure data-mapping core of `suitcase`, a Ruby client
for the EAN (Expedia Affiliate Network) hotel API. It covers the parts that turn
caller parameters into request query strings and parsed JSON responses into
hotels, rooms, images and response objects:

- **Requests.** The `Hotel.find` parameter builders are modelled: the `roomN` occupancy
  encoding, the availability and destination hashes, and the hotel-list
  query. So are the key codec (`eanize_key` / `rubyize_key`), the shared
  `provision_request` signer with its base-URL choice, the generic
  `EanRequest` envelope and its two subclasses (hotel information and
  itineraries), and the payment-option query string.
- **Responses.** The hotel-list parser (`parse_hotel_list`, `parse_rooms`,
  `Room#initialize`, `handle`) is modelled, along with the amenity bit-mask
  decoder and the schema-driven
  `ResponseObject#initialize` with its `array_parse`. The per-class
  `ean_fields` tables of `HotelSummary`, `HotelDetails`, `PropertyAmenity`,
  `Itinerary` and `ItineraryQuery` are modelled, and so is the hand-written
  `HotelImage`.

A parsed JSON value is the datatype `Values.Json`
(`Null | Bool | Int | Str | Arr | Obj`). An `Obj` keeps its members in order. A
Ruby request Hash is `Query.Params`, an ordered list of `(Key, Scalar)`
pairs. `Key` tells a Symbol key (`Sym`) from a String key (`Txt`), because
Ruby treats `:hotelId` and `"hotelId"` as different Hash keys. `h[k] = v`
is `Query.Put`: it updates the entry in place, or appends a new one.
Whatever Ruby raises (`NoMethodError`, the `EANException` from `handle`) is
an `Err` of `Values.Result`.

The modules follow the source files:

| module | file |
|---|---|
| `Numbers`, `Strings` | integer and string helpers (`to_s`, `to_i`, `split`, `join`) |
| `Values` | `Json`, `Result`, Ruby's truthiness, `[]`, `map`, `flatten`, `join` |
| `UrlEncoding` | `urlencode`: UTF-8 bytes, each byte outside the unreserved set percent-escaped |
| `KeyCodec` | `lib/suitcase/utils.rb` `eanize_key`/`rubyize_key`, ActiveSupport `camelize`/`underscore`/`demodulize` on the keys the client uses |
| `Query` | `lib/suitcase/utils.rb` `base_url`, `provision_request`; the `key=value&…` query string |
| `Amenities` | `lib/suitcase/hotel.rb` `AMENITIES`, `parse_amenities` |
| `HotelSearch` | `lib/suitcase/hotel.rb` `find`, `room_group_params`, `availability_hash`, `destination_hash`, `hotel_list` |
| `HotelListing` | `lib/suitcase/hotel.rb` `parse_hotel_list`, `parse_rooms`, `handle`, `Room` |
| `ResponseObject` | `lib/suitcase/response_object.rb` |
| `Vocabulary`, `Schemas` | the `ean_fields` tables and accessors of the response classes |
| `HotelImages` | `lib/suitcase/hotel_image.rb` |
| `Dates` | `Date.today - 7.days` and `Date#iso8601` for the itinerary default window |
| `Requests` | `lib/suitcase/ean_request.rb`, `hotel_info_request.rb`, `itinerary_request.rb`, `payment_option.rb` |

Several quirks of the code are reproduced as written:

- `proximity_distance` is read from `"promixityDistance"`.
- `Room#initialize` builds its promotion into a local variable, so
  `@promotion` is never set.
- `handle` counts a missing `itineraryId` (`nil != -1`) as a reservation
  made.
- A room whose `:children` is `nil` renders as `"2,"`.
- `false` values are dropped from query strings.
- A Symbol key and a String key with the same name collapse into one
  request parameter. Caller keys are Strings after translation and the
  credentials are Symbols, so a caller can never override `cid` or
  `apiKey`.

Three behaviours of the code are easy to miss, and the model follows the
code:

- `array_parse` does not wrap a single object into a list; it maps over
  the object's pairs.
- A wrong-typed value in a response object raises `NoMethodError` instead
  of being skipped.
- `rubyize_key` keeps a leading `@`.

## Model

| member | source | states |
|---|---|---|
| Amenities.ParseAmenities | lib/suitcase/hotel.rb:257-259 | decoding succeeds exactly when the mask is an Integer; nil, `true` and `false` raise `NoMethodError` on `>` (their `&` gives a boolean, which has no `>`), an Array raises `TypeError` from `Array#&`, and a String or Hash raises `NoMethodError` on `&` |
| Amenities.ParseAmenitiesSpec | lib/suitcase/hotel.rb:6-35 | for any table whose i-th entry is 2^i, a name is returned iff its table entry's bit is set in the mask (two's complement for negative masks), and the names come out in table declaration order |
| Amenities.TablePowers | lib/suitcase/hotel.rb:6-35 | the `AMENITIES` table has 28 entries and entry i carries the bit 2^i |
| Amenities.TableNames | lib/suitcase/hotel.rb:6-35 | no amenity name appears twice in the table |
| Amenities.BitAndPow2 | lib/suitcase/hotel.rb:258 | `mask & 2^k` is 2^k when bit k of the mask is set and 0 otherwise, so `(mask & amask) > 0` tests one bit |
| Amenities.MaskRoundTrip | lib/suitcase/hotel.rb:6-259 | encoding a set of names as a bit mask and decoding it gives back exactly the names of the set that are in the table |
| Amenities.MaskZero | lib/suitcase/hotel.rb:257-259 | mask 0 decodes to no amenities |
| Amenities.MaskAll | lib/suitcase/hotel.rb:257-259 | a mask with all 28 bits set decodes to every name, in table order |
| Amenities.MaskTwelve | lib/suitcase/hotel.rb:257-259 | a mask with exactly bits 2 and 3 (such as 12) decodes to `hot_tub`, `internet_access` |
| HotelSearch.RoomGroup | lib/suitcase/hotel.rb:111-121 | no rooms give an empty Hash; otherwise room i (0-based) is the entry `"room{i+1}"` with the room's joined text, in room order, one entry per room, and encoding fails exactly when some room's text cannot be formed |
| HotelSearch.RoomGroupKeys | lib/suitcase/hotel.rb:114-117 | the room keys are distinct String keys |
| HotelSearch.RoomKeyInjective | lib/suitcase/hotel.rb:115-116 | different room numbers give different keys |
| HotelSearch.RoomTextOf | lib/suitcase/hotel.rb:116-117 | a room of `a` adults with children aged `c1…cn` reads `"a,c1,…,cn"` |
| HotelSearch.RoomTextNoChildren | lib/suitcase/hotel.rb:116-117 | a room without `:children` still gets the separator: `"a,"` |
| HotelSearch.Availability | lib/suitcase/hotel.rb:126-131 | the Hash is empty unless arrival, departure and rooms are all truthy; otherwise it holds `arrivalDate`, `departureDate`, the room entries and `numberOfResults`, in that order, with distinct keys |
| HotelSearch.AvailabilityEmpty | lib/suitcase/hotel.rb:127 | a successful availability Hash is empty iff the search is dateless |
| HotelSearch.AvailabilityKeys | lib/suitcase/hotel.rb:128-130 | every availability key is a room String key or one of `arrivalDate`, `departureDate`, `numberOfResults` |
| HotelSearch.Destination | lib/suitcase/hotel.rb:92-94 | exactly one entry: `hotelIdList` holding the list when one is given, otherwise `destinationString` holding the location |
| HotelSearch.FindParamsShape | lib/suitcase/hotel.rb:81-88 | the find Hash is the two flags, then the availability entries, then the destination, with distinct keys; it fails exactly when the room encoding fails |
| HotelSearch.FindKeys | lib/suitcase/hotel.rb:81-88 | no key the caller's search produces is `cid`, `apiKey` or `minorRev` |
| HotelSearch.CredentialKeys | lib/suitcase/hotel.rb:156-158 | the hotel list adds exactly `cid`, `apiKey` and `minorRev`, not `apiExperience` |
| HotelSearch.HotelListParams | lib/suitcase/hotel.rb:155-171 | the list request goes to the non-booking host and sends the caller's non-nil entries followed by the non-nil credentials |
| HotelSearch.HotelListQuery | lib/suitcase/hotel.rb:161-168 | the path's query string decodes to the key/value texts of exactly the truthy remaining entries, in order |
| HotelSearch.FindSends | lib/suitcase/hotel.rb:81-171 | `find` signs the flags, availability and destination Hash and sends their non-nil entries plus the credentials |
| HotelListing.RoomNew | lib/suitcase/hotel.rb:346-365 | building a room succeeds exactly when the details can be indexed with `[]` |
| HotelListing.RoomOfObject | lib/suitcase/hotel.rb:346-365 | any Hash builds a room, and each of the eleven fields is copied from its vendor key: `roomTypeCode`, `rateCode`, `rateKey`, `maxRoomOccupancy`, `quotedRoomOccupancy`, `minGuestAge`, `roomDescription`, `currentAllotment`, `propertyAvailable`, `propertyRestricted`, `expediaPropertyId`; the promotion is never set |
| HotelListing.RoomAll | lib/suitcase/hotel.rb:229 | one room per details element, in order; it fails iff some element cannot be indexed |
| HotelListing.ParseRoomsSingle | lib/suitcase/hotel.rb:227-230 | a single `RoomRateDetails` object is parsed exactly like a one-element list |
| HotelListing.ParseRoomsList | lib/suitcase/hotel.rb:227-230 | a list of room details is parsed element by element |
| HotelListing.Address | lib/suitcase/hotel.rb:188-191 | the address is `address1`, or `address1 + ", " + address2` when `address2` is present (a nil `address1` joins as empty text) |
| HotelListing.HotelNewOk | lib/suitcase/hotel.rb:185-216 | a hotel builds iff its address joins, its `amenityMask` is an Integer and its room list (when present) parses |
| HotelListing.HotelDecoded | lib/suitcase/hotel.rb:188-216 | the hotel's address, amenities and rooms are the joined address, the decoded mask and the parsed room list (absent when the node is) |
| HotelListing.HotelRenamed | lib/suitcase/hotel.rb:186-211 | the thirteen renamed fields are read from their vendor keys: `id` from `hotelId`, `province` from `stateProvinceCode`, `postal` from `postalCode`, `country` from `countryCode`, `airport` from `airportCode`, `category` from `propertyCategory`, `rating` from `hotelRating`, `tripadvisor_rating` from `tripAdvisorRating`, `currency` from `rateCurrencyCode`, `proximity_distance` from the misspelt `promixityDistance`, `in_destination` from `hotelInDestination`, `thumbnail_path` from `thumbNailUrl` and `ean_url` from `deepLink` |
| HotelListing.HotelSameNamed | lib/suitcase/hotel.rb:187-210 | the ten fields named like their keys are read from them: `name`, `city`, `confidenceRating`, `locationDescription`, `shortDescription`, `highRate`, `lowRate`, `latitude`, `longitude`, `proximityUnit` |
| HotelListing.HotelAll | lib/suitcase/hotel.rb:184-218 | one hotel per summary, in order; it fails iff some summary fails |
| HotelListing.HandleObject | lib/suitcase/hotel.rb:237-250 | `handle` always raises; the exception copies message, verbose message, handling and raw node, and reports a reservation, with `reservation_id` = `itineraryId`, exactly when `itineraryId != -1` |
| HotelListing.ParseHotelListError | lib/suitcase/hotel.rb:180-182 | a truthy `EanWsError` makes the parse raise what `handle` raises for that node |
| HotelListing.ParseHotelListSingle | lib/suitcase/hotel.rb:183 | a single `HotelSummary` object is parsed exactly like a one-element list |
| HotelListing.ParseHotelListEach | lib/suitcase/hotel.rb:183-218 | a list of summaries is parsed one hotel per element |
| HotelListing.ParseHotelListNoSummary | lib/suitcase/hotel.rb:183-186 | a `HotelList` without `HotelSummary` flattens to `[nil]`, and reading the first hotel's `hotelId` from nil raises `NoMethodError` on `[]` |
| HotelListing.ParseHotelListNoList | lib/suitcase/hotel.rb:180-183 | a response without `EanWsError` and without `HotelList` raises `NoMethodError` on `[]` when `HotelSummary` is read from nil |
| Query.BaseUrl | lib/suitcase/utils.rb:12-22 | the development flag gives the dev host whatever the booking flag; otherwise booking gives `https://book.api.ean.com` and non-booking `http://api.ean.com` |
| KeyCodec.Eanize | lib/suitcase/utils.rb:34-42 | `"upper"` gives UpperCamel, `"at"` gives `@` + lowerCamel, any other style lowerCamel |
| KeyCodec.LowerRoundTrip | lib/suitcase/utils.rb:26-42 | for snake_case keys of lowercase words, `rubyize_key(eanize_key(k)) == k` |
| KeyCodec.UpperRoundTrip | lib/suitcase/utils.rb:26-42 | the same round trip through the `"upper"` style |
| KeyCodec.AtKeepsPrefix | lib/suitcase/utils.rb:26-42 | through the `"at"` style the round trip keeps the `@`: it gives `"@" + k` |
| KeyCodec.LowerCamelRoundTrip | lib/suitcase/utils.rb:26-42 | for lowerCamel wire names, `eanize_key(rubyize_key(w)) == w` |
| KeyCodec.UpperCamelRoundTrip | lib/suitcase/utils.rb:26-42 | for UpperCamel wire names the `"upper"` style restores the name |
| KeyCodec.RubyizeWordsInjective | lib/suitcase/utils.rb:26-28 | distinct word lists never share a snake_case name |
| KeyCodec.EanizeWords | lib/suitcase/utils.rb:34-42 | eanizing words joined by `_` gives the words in lowerCamel case |
| KeyCodec.DemodulizeQualified | lib/suitcase/response_object.rb:38-40 | `demodulize` of `"M::N"` is `N` |
| KeyCodec.DemodulizeUnscoped | lib/suitcase/response_object.rb:38-40 | a demodulized name never contains `::` |
| Query.Put | lib/suitcase/utils.rb:50-53 | `h[k] = v` makes `k` map to `v`, leaves every other key alone, and appends only a new key |
| Query.Sign | lib/suitcase/utils.rb:49-54 | after signing, every credential maps to its value (unless nil), every other key keeps its non-nil value, no nil value is left, and keys stay distinct |
| Query.SignAppends | lib/suitcase/utils.rb:49-54 | when the caller's keys are not credential keys, the signed Hash is the caller's non-nil entries followed by the non-nil credentials |
| Query.Provision | lib/suitcase/utils.rb:49-63 | the query string parses back to exactly the truthy entries left after the four credentials are set and the nil entries deleted, in order, and is empty iff none is left; no nil value remains; for a Hash without repeated keys, each credential key holds its credential and every other key keeps the caller's value (nil ones removed); the host is `base_url(booking)` |
| Query.DeleteNilGet | lib/suitcase/utils.rb:54 | `delete_if { v == nil }` removes exactly the nil values and keeps every other lookup |
| Query.QueryRoundTrip | lib/suitcase/utils.rb:56-59 | splitting the string at `&` and `=` and decoding gives back one key/value pair per truthy entry, in insertion order, with `true` as `"true"`; the string is empty iff no entry is truthy |
| Query.PairsAreKept | lib/suitcase/utils.rb:56-59 | one `key=value` piece per truthy entry and nothing else; no piece contains `&` |
| Query.RenderIgnoresNil | lib/suitcase/utils.rb:54-59 | deleting nil entries first does not change the string |
| Query.MergeGet | lib/suitcase/hotel.rb:85 | `merge` keeps both key sets, takes the right-hand value on shared keys, and keeps keys distinct |
| UrlEncoding.DecodeEncode | lib/suitcase/utils.rb:58 | URL-decoding an encoded text gives its UTF-8 bytes |
| UrlEncoding.EncodeFree | lib/suitcase/utils.rb:58 | an encoded text never contains `&`, `=` or `,` |
| ResponseObject.Coerce | lib/suitcase/response_object.rb:12-20 | a nil or false value skips the writer; an integer-bucket value stores `to_i`, a string-bucket value is stored only when non-empty, a float-bucket value stores its `to_f`; a value lacking `to_i`/`empty?` raises |
| ResponseObject.CoerceIntText | lib/suitcase/response_object.rb:13 | an integer sent as its decimal text stores the same integer as the integer itself |
| ResponseObject.Step | lib/suitcase/response_object.rb:12-20 | one writer call stores the coerced value under the snake_case name and nothing else; a missing writer raises |
| ResponseObject.PassOk | lib/suitcase/response_object.rb:12-20 | a bucket pass succeeds iff every selected entry coerces and has a writer |
| ResponseObject.PassLast | lib/suitcase/response_object.rb:12-20 | the value stored is the one from the last entry that calls that writer |
| ResponseObject.NewOk | lib/suitcase/response_object.rb:11-21 | construction succeeds iff the input answers `select` and every entry passes all three buckets |
| ResponseObject.NewProvenance | lib/suitcase/response_object.rb:11-21 | every stored attribute has a declared writer and comes from some input entry in that attribute's bucket |
| ResponseObject.NewDeclaredOnly | lib/suitcase/response_object.rb:11-21 | input keys in no bucket are ignored: only declared attributes are ever set |
| ResponseObject.NewField | lib/suitcase/response_object.rb:11-21 | in a well-formed class, a bucket key's attribute is set iff its value passes the guard, and holds the coerced value; absent keys leave attributes unset |
| ResponseObject.NewOkDeclared | lib/suitcase/response_object.rb:11-21 | for a class with a writer for every field, construction from a Hash fails iff some bucket value cannot be coerced |
| ResponseObject.NewEmptyBucket | lib/suitcase/response_object.rb:18-20 | a class with an empty bucket never stores a value of that kind |
| ResponseObject.NewAll | lib/suitcase/response_object.rb:31-33 | one object per element, in order; it fails iff some element fails |
| ResponseObject.ArrayParse | lib/suitcase/response_object.rb:30-35 | a nil or false collection gives `[]` |
| ResponseObject.ArrayParseMissing | lib/suitcase/response_object.rb:30-35 | a collection lacking `collection_key` (or holding nil there) gives `[]` |
| ResponseObject.ArrayParseEach | lib/suitcase/response_object.rb:31-33 | a list under `collection_key` yields one object per element, in order |
| ResponseObject.ArrayParseSingle | lib/suitcase/response_object.rb:31-33 | a single object under the key is mapped over its pairs, not wrapped: one result per member |
| Schemas.BaseStoresNothing | lib/suitcase/response_object.rb:57-64 | the base class declares no writers, so a plain `ResponseObject` stores nothing |
| Schemas.RatesMoved | lib/suitcase/response_object.rb:58-60 | `highRate`/`lowRate` are strings in the default table but floats, not strings, for `HotelSummary` |
| Schemas.HotelSummaryWellFormed | lib/suitcase/hotel_summary.rb:8-24 | the summary buckets are disjoint, no two fields share a writer, and every field snake-cased is a declared accessor |
| Schemas.HotelDetailsWellFormed | lib/suitcase/hotel_details.rb:8-22 | the same for `HotelDetails` |
| Schemas.PropertyAmenityWellFormed | lib/suitcase/property_amenity.rb:7-21 | the same for `PropertyAmenity` (`amenity_id`, `amenity`) |
| Schemas.ItineraryWellFormed | lib/suitcase/itinerary.rb:5-19 | the same for `Itinerary` |
| Schemas.NoFloatAttributes | lib/suitcase/hotel_details.rb:15-22 | `HotelDetails`, `PropertyAmenity` and `Itinerary` objects never hold a float attribute |
| Schemas.PropertyAmenityKey | lib/suitcase/response_object.rb:38-40 | `PropertyAmenity`'s collection key is `"PropertyAmenity"` |
| Schemas.ItineraryQueryRaises | lib/suitcase/itinerary_request.rb:10-21 | building an `ItineraryQuery` with a creation date raises `NoMethodError` for `creation_date_start=` |
| Schemas.ItineraryQueryStores | lib/suitcase/itinerary_request.rb:14-16 | with writers declared, the same input stores the date under `creation_date_start` |
| HotelImages.AttributeNamesWire | lib/suitcase/hotel_image.rb:36-43 | the wire names are the lowerCamel `eanize_key` of the snake_case names (`hotel_image_id` → `hotelImageId`) |
| HotelImages.AttributeNamesRoundTrip | lib/suitcase/hotel_image.rb:36-43 | each wire name snake-cases back to the Ruby name at the same position |
| HotelImages.ImageNewIsNew | lib/suitcase/hotel_image.rb:23-30 | building an image is the response object's construction over the image's own name table, whose float bucket is empty |
| HotelImages.ImageField | lib/suitcase/hotel_image.rb:24-29 | an integer field is stored as `to_i` when non-nil and a string field only when non-empty; otherwise the attribute stays unset |
| HotelImages.ImageNewOk | lib/suitcase/hotel_image.rb:23-30 | building an image fails iff some named field cannot be coerced |
| HotelImages.ImagesEach | lib/suitcase/hotel_image.rb:15-20 | a `"HotelImage"` list yields one image per element, in order |
| HotelImages.ImagesMissing | lib/suitcase/hotel_image.rb:15-20 | a missing or nil `"HotelImage"` gives `[]` |
| Dates.MinusDays | lib/suitcase/itinerary_request.rb:35 | `d - k.days` is a valid date exactly k days earlier |
| Dates.IsoRoundTrip | lib/suitcase/itinerary_request.rb:35 | `iso8601` text reads back as the same date |
| Dates.IsoLength | lib/suitcase/itinerary_request.rb:35 | a date before year 10000 prints as ten characters |
| Requests.TranslateGet | lib/suitcase/ean_request.rb:19 | after translation every key is a String, and each maps to the value of the last caller entry whose key eanizes to it |
| Requests.TranslateInOrder | lib/suitcase/ean_request.rb:19 | when no two caller keys eanize alike, translation renames each key to its lowerCamel form in place and keeps the order |
| Requests.TranslateCollide | lib/suitcase/ean_request.rb:19 | a Symbol key and a String key with the same name become one entry holding the later value |
| Requests.SignedSends | lib/suitcase/ean_request.rb:16-23 | a request goes to the non-booking host, sends the translated non-nil entries followed by the non-nil credentials, and its path is the class prefix followed by a query decoding to exactly those entries |
| Requests.CredentialSymbols | lib/suitcase/utils.rb:50-53 | every credential key is a Symbol, so no translated caller key can override one |
| Requests.Parse | lib/suitcase/ean_request.rb:27-34 | parsing fails only when the body cannot be indexed with `[]` |
| Requests.ParseNamed | lib/suitcase/ean_request.rb:27-44 | for a class `M::N`, the result is the value under `N`, unchanged |
| Requests.ParseItinerary | lib/suitcase/itinerary_request.rb:30-32 | the itinerary request reads `"HotelItineraryResponse"`, not its class name |
| Requests.ParseNothing | lib/suitcase/ean_request.rb:27-34 | a missing or falsy root gives an empty Hash |
| Requests.Request | lib/suitcase/ean_request.rb:16-49 | a request succeeds iff the body can be indexed; it records the signed call under the class's path and the parsed root |
| Requests.EanRequestNew | lib/suitcase/ean_request.rb:52-56 | nil params make no request; otherwise the result is the request's |
| Requests.ItineraryNewDefault | lib/suitcase/itinerary_request.rb:26-37 | the default itinerary request signs the default window under `/ean-services/rs/hotel/v3/itin?` |
| Requests.ItineraryWindow | lib/suitcase/itinerary_request.rb:14-35 | the default query sends `creationDateStart` and `creationDateEnd` (two of the `ItineraryQuery` fields) as ISO dates: the end reads back as today, the start as the date exactly 7 days earlier |
| Requests.ParseInfoAsWrittenRaises | lib/suitcase/hotel_info_request.rb:14-25 | as written, any body with truthy `HotelImages` raises `NoMethodError` for `array_parse`; any other body parses as with `HotelImage.images` |
| Requests.ParseInfoSample | lib/suitcase/hotel_info_request.rb:18 | a concrete body with an empty `HotelImages` node raises as written and parses to empty images when corrected |
| Requests.ParseInfoNothing | lib/suitcase/hotel_info_request.rb:14-25 | without `HotelInformationResponse` the result is an empty Hash |
| Requests.ParseInfoOk | lib/suitcase/hotel_info_request.rb:17-23 | the parse succeeds iff each present part (images, amenities, details, summary) parses |
| Requests.ParseInfoParts | lib/suitcase/hotel_info_request.rb:18-22 | each of the four parts is set iff its node is truthy, details and summary are the response objects built from their nodes, and `customer_session_id` is always set from `"customerSessionId"`, possibly to nil |
| Requests.ParseInfoImages | lib/suitcase/hotel_info_request.rb:18 | the images are one `HotelImage` per element of `HotelImages.HotelImage`, in order |
| Requests.SessionKeyName | lib/suitcase/hotel_info_request.rb:22 | the session key `eanize_key(:customer_session_id)` is `"customerSessionId"` |
| Requests.InfoRequest | lib/suitcase/hotel_info_request.rb:34-41 | the info request succeeds iff its body parses, and records the signed call under `/ean-services/rs/hotel/v3/info?` and the parsed parts |
| Requests.InfoDefaultsSent | lib/suitcase/hotel_info_request.rb:34-39 | the default parameters send `hotelId=106347` followed by the credentials |
| Requests.InfoNew | lib/suitcase/hotel_info_request.rb:44-52 | nil params leave every field unset; otherwise exactly the four parsed parts are copied |
| Requests.PaymentQuery | lib/suitcase/payment_option.rb:21-37 | the payment query sends `currencyCode` from `currency_code` and `locale` from `locale`, in that order, only where truthy, with no credential key |

## Left out

- HTTP is left out: `Patron::Session`, `req.get`, the 30-second timeout and
  assigning the base URL to the session are network I/O. Requests stop at
  the host, path and parameters they would send, and the response body is
  an input.
- `JSON.parse` of the body text is left out; parsers take a parsed `Json`.
- `urlencode` is a foreign call into Patron. It is modelled as UTF-8
  percent-encoding of every byte outside the unreserved set.
- ActiveSupport `camelize`/`underscore` are modelled only for keys made of
  lowercase letters, digits and single underscores. Acronym inflections are
  left out.
- `to_f` has no floating point. A float-bucket value is stored as
  `FloatAttr(raw)`, the value it was converted from.
- `Suitcase.configuration` becomes the `Config` parameter, and
  `Date.today` becomes the `today` parameter.
- `PaymentOption.find` calls `base_url` and `parse_hotel_list`, which that
  class does not define, so it raises after building its Hash. Only the
  renamed Hash (`Requests.PaymentParams`) and the query string are
  modelled. `PaymentOption#initialize` is the constructor of the
  `PaymentOption` datatype.
- `Hotel.hotel_id_list` (lib/suitcase/hotel.rb:99-101) is not part of this
  model: nothing in the modelled code calls it.
- `Hotel.base_url` (lib/suitcase/hotel.rb:268-278) duplicates
  `Utils.base_url`, which is modelled.
- `Result` and `Hotel::Result` are plain records. They appear as the
  `Reply` and `Call` datatypes.
- The accessors that are never assigned are left out (`ruby_fields`,
  `hotel_id`, `room_types`, `suppliers`), and so is `lib/suitcase.rb`,
  which only holds `require` lines.
- Room occupancy is typed: each room is an `Occupancy(adults, children)`.
  Keys of the room Hash other than `:adults` and `:children` are not read
  by the source, so they are not represented.
- `Array#join` of a Hash element is out of scope and gives an
  `Unmodelled` error.
- A JSON object with a repeated key reads the first occurrence in the
  model (`Member`), whereas `JSON.parse` keeps the last one. The lemmas
  about whole Hashes state their facts for Hashes without repeated keys.
- Fractional JSON numbers are not inputs: `Json` has no Float value. In
  Ruby a Float in a String bucket would raise and one in an Integer bucket
  would truncate; neither path is modelled.

## Findings

| source | as written | input that shows it | evidently intended | confidence | as-written member | corrected member |
|---|---|---|---|---|---|---|
| lib/suitcase/hotel_info_request.rb:18 | `HotelImage.array_parse(root["HotelImages"])`, but `HotelImage` is not a `ResponseObject` and defines only `images`, so the call raises `NoMethodError` | a `HotelInformationResponse` whose `HotelImages` is `{"HotelImage": []}` | `HotelImage.images(root["HotelImages"])`, one image per element | not executed | Requests.ParseInfoAsWrittenRaises | Requests.ParseInfoImages |
| lib/suitcase/itinerary_request.rb:10-21 | `ItineraryQuery` declares string fields but no `attr_accessor`, so constructing one from any non-empty field calls a missing writer | `{"creationDateStart": "2012-01-01"}` | writers for the four date fields, so the value is stored | not executed | Schemas.ItineraryQueryRaises | Schemas.ItineraryQueryStores |
