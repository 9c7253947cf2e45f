/** The words of the vendor's field names and of the client's accessor
    names. Each is checked once, here, to be a lower-case word. */
module Vocabulary {
  import opened KeyCodec

  const Accepted: Word := "accepted"
  const Address1: Word := "address1"
  const Affiliate: Word := "affiliate"
  const Airport: Word := "airport"
  const Amenities: Word := "amenities"
  const Amenity: Word := "amenity"
  const Api: Word := "api"
  const Area: Word := "area"
  const Before: Word := "before"
  const Business: Word := "business"
  const Byte: Word := "byte"
  const Caption: Word := "caption"
  const Card: Word := "card"
  const Cards: Word := "cards"
  const Category: Word := "category"
  const Check: Word := "check"
  const City: Word := "city"
  const Code: Word := "code"
  const Confirmation: Word := "confirmation"
  const Country: Word := "country"
  const Creation: Word := "creation"
  const Credit: Word := "credit"
  const Currency: Word := "currency"
  const Customer: Word := "customer"
  const Date: Word := "date"
  const Departure: Word := "departure"
  const Deposit: Word := "deposit"
  const Description: Word := "description"
  const Detail: Word := "detail"
  const Dining: Word := "dining"
  const Directions: Word := "directions"
  const Driving: Word := "driving"
  const Email: Word := "email"
  const End: Word := "end"
  const Experience: Word := "experience"
  const Fees: Word := "fees"
  const Floors: Word := "floors"
  const Go: Word := "go"
  const Height: Word := "height"
  const High: Word := "high"
  const Hotel: Word := "hotel"
  const Id: Word := "id"
  const Image: Word := "image"
  const In: Word := "in"
  const Information: Word := "information"
  const Instructions: Word := "instructions"
  const Itinerary: Word := "itinerary"
  const Know: Word := "know"
  const Last: Word := "last"
  const Latitude: Word := "latitude"
  const Location: Word := "location"
  const Longitude: Word := "longitude"
  const Low: Word := "low"
  const Mandatory: Word := "mandatory"
  const Name: Word := "name"
  const National: Word := "national"
  const Native: Word := "native"
  const Number: Word := "number"
  const Of: Word := "of"
  const Out: Word := "out"
  const Policy: Word := "policy"
  const Postal: Word := "postal"
  const Property: Word := "property"
  const Province: Word := "province"
  const Rate: Word := "rate"
  const Rating: Word := "rating"
  const Ratings: Word := "ratings"
  const Renovations: Word := "renovations"
  const Room: Word := "room"
  const Rooms: Word := "rooms"
  const Session: Word := "session"
  const Size: Word := "size"
  const Start: Word := "start"
  const State: Word := "state"
  const Supplier: Word := "supplier"
  const Thumbnail: Word := "thumbnail"
  const Time: Word := "time"
  const Type: Word := "type"
  const Url: Word := "url"
  const Width: Word := "width"
  const You: Word := "you"
}
