/** `HotelImage`: one image of a hotel, built from the vendor's image
    object with an integer and a string pass, and `HotelImage.images`,
    which builds the list under `"HotelImage"`. The class is not a
    `ResponseObject`, but its two passes are the response object's first
    two, over its own `attribute_names` table. */
module HotelImages {
  import opened Values
  import opened Strings
  import opened KeyCodec
  import opened ResponseObject
  import opened Schemas
  import W = Vocabulary

  /** The integer names of `attribute_names` (lib/suitcase/hotel_image.rb:37). */
  const ImageIntegers: seq<Spelling> := [
    [W.Byte, W.Size], [W.Category], [W.Height], [W.Hotel, W.Image, W.Id], [W.Supplier, W.Id],
    [W.Type], [W.Width]]

  /** The string names (lib/suitcase/hotel_image.rb:38). */
  const ImageTexts: seq<Spelling> := [[W.Caption], [W.Name], [W.Thumbnail, W.Url], [W.Url]]

  /** The two `attr_accessor` lines. */
  const ImageAccessors: seq<Spelling> := ImageIntegers + ImageTexts

  /** The symbols `attribute_names` starts from for a type: the integer
      list for `:integer`, the string list for `:string`, none for any
      other type (`Float` stands for every other symbol). */
  function ImageSpellings(k: Kind): seq<Spelling> {
    match k
    case Integer => ImageIntegers
    case Text => ImageTexts
    case Float => []
  }

  /** `attribute_names(ruby_format, type)`: the snake_case symbols as
      strings, or their lowerCamel `eanize_key` when `ruby_format` is
      false. */
  function AttributeNames(rubyFormat: bool, k: Kind): (r: seq<string>)
    ensures |r| == |ImageSpellings(k)|
  {
    var ws := ImageSpellings(k);
    if rubyFormat then seq(|ws|, i requires 0 <= i < |ws| => Join(ws[i], "_"))
    else seq(|ws|, i requires 0 <= i < |ws| => EanizeLower(Join(ws[i], "_")))
  }

  /** The wire names are the words in lowerCamel case. */
  lemma AttributeNamesWire(k: Kind)
    ensures AttributeNames(false, k) == Names(ImageSpellings(k))
  {
    var ws := ImageSpellings(k);
    forall i | 0 <= i < |ws|
      ensures AttributeNames(false, k)[i] == Names(ws)[i]
    {
      EanizeWords(ws[i]);
    }
  }

  /** Each wire name snake-cases back to the Ruby name at the same place,
      and distinct Ruby names stay distinct on the wire. */
  lemma AttributeNamesRoundTrip(k: Kind, i: nat)
    requires i < |ImageSpellings(k)|
    ensures Rubyize(AttributeNames(false, k)[i]) == AttributeNames(true, k)[i]
  {
    var ws := ImageSpellings(k);
    EanizeWords(ws[i]);
    RubyizeWords(ws[i]);
  }

  /** The image class, with `attribute_names(false, type)` as its buckets. */
  const Image: Class := Class(
    "Suitcase" + "::" + "HotelImage",
    Schema(AttributeNames(false, Integer), AttributeNames(false, Text), AttributeNames(false, Float)),
    Writers(ImageAccessors))

  lemma ImageSpelled()
    ensures Image == Spelled("Suitcase" + "::" + "HotelImage", ImageIntegers, ImageTexts, [], ImageAccessors)
  {
    AttributeNamesWire(Integer);
    AttributeNamesWire(Text);
    AttributeNamesWire(Float);
  }

  /** Every image field has its writer, and no two fields share one. */
  lemma ImageWellFormed()
    ensures WellFormed(Image)
  {
    ImageSpelled();
    ImageApart();
    SpelledWellFormed(Image.name, ImageIntegers, ImageTexts, [], ImageAccessors);
  }

  lemma ImageApart()
    ensures forall w :: w in ImageIntegers ==> w !in ImageTexts
  {
  }

  /** `HotelImage.new(ean_options)`: the integer pass, then the string
      pass; there is no float pass. */
  function ImageNew(obj: Json): Result<Attrs> {
    var es :- Entries(obj);
    var a1 :- Pass(Image, Integer, es, map[]);
    Pass(Image, Text, es, a1)
  }

  /** With no float names, the two passes are the whole of a response
      object's `initialize`. */
  lemma ImageNewIsNew(obj: Json)
    ensures ImageNew(obj) == New(Image, obj)
  {
    if Entries(obj).Ok? {
      var es := Entries(obj).value;
      if Pass(Image, Integer, es, map[]).Ok? {
        var a1 := Pass(Image, Integer, es, map[]).value;
        if Pass(Image, Text, es, a1).Ok? {
          PassNothing(Image, Float, es, Pass(Image, Text, es, a1).value);
        }
      }
    }
  }

  /** The fields of an image object: each integer or string field that the
      guard admits is stored under its snake_case name, converted; a field
      the guard skips is not stored. */
  lemma ImageField(fields: seq<(string, Json)>, i: nat, k: Kind)
    requires UniqueKeys(fields) && ImageNew(Obj(fields)).Ok?
    requires i < |fields| && fields[i].0 in AttributeNames(false, k)
    ensures Coerce(k, fields[i].1).Ok?
    ensures var r := ImageNew(Obj(fields)).value;
      var x := Coerce(k, fields[i].1).value;
      (Rubyize(fields[i].0) in r <==> x.Some?) &&
      (x.Some? ==> r[Rubyize(fields[i].0)] == x.value)
  {
    ImageNewIsNew(Obj(fields));
    ImageWellFormed();
    assert Bucket(Image.schema, k) == AttributeNames(false, k);
    NewField(Image, fields, i, k);
  }

  /** An image object raises only on a wrong-typed value: a non-`nil`
      integer field without `to_i` or a non-`nil` string field without
      `empty?`. */
  lemma ImageNewOk(fields: seq<(string, Json)>)
    ensures ImageNew(Obj(fields)).Ok? <==>
      forall i, k :: 0 <= i < |fields| && fields[i].0 in AttributeNames(false, k) ==> Coerce(k, fields[i].1).Ok?
  {
    ImageNewIsNew(Obj(fields));
    ImageWellFormed();
    assert forall k :: Bucket(Image.schema, k) == AttributeNames(false, k);
    NewOkDeclared(Image, fields);
  }

  /** `HotelImage.new` over each item, in order. */
  function ImageAll(items: seq<Json>): Result<seq<Attrs>> {
    if |items| == 0 then Ok([])
    else
      var head :- ImageNew(items[0]);
      var tail :- ImageAll(items[1..]);
      Ok([head] + tail)
  }

  lemma {:induction false} ImageAllIsNewAll(items: seq<Json>)
    ensures ImageAll(items) == NewAll(Image, items)
  {
    if |items| > 0 {
      ImageNewIsNew(items[0]);
      ImageAllIsNewAll(items[1..]);
    }
  }

  /** `HotelImage.images(parsed)`: the images under `"HotelImage"` when
      `parsed` and that member are truthy, and `[]` otherwise. */
  function Images(parsed: Json): Result<seq<Attrs>> {
    if !Truthy(parsed) then Ok([])
    else
      var node :- Index(parsed, "HotelImage");
      if !Truthy(node) then Ok([])
      else
        var items :- MapItems(node);
        ImageAll(items)
  }

  /** `images` is the response object's `array_parse` for the image class:
      its collection key is the demodulized class name. */
  lemma ImagesIsArrayParse(parsed: Json)
    ensures Images(parsed) == ArrayParse(Image, parsed)
  {
    DemodulizeQualified("Suitcase", "HotelImage");
    assert CollectionKey(Image) == "HotelImage";
    if Truthy(parsed) && Index(parsed, "HotelImage").Ok? {
      var node := Index(parsed, "HotelImage").value;
      if Truthy(node) && MapItems(node).Ok? {
        ImageAllIsNewAll(MapItems(node).value);
      }
    }
  }

  /** An Array of image objects gives one image per element, in order; no
      `"HotelImage"` member gives none. */
  lemma ImagesEach(fields: seq<(string, Json)>, items: seq<Json>)
    requires Lookup(fields, "HotelImage") == Some(Arr(items))
    ensures Images(Obj(fields)).Ok? <==> forall i :: 0 <= i < |items| ==> ImageNew(items[i]).Ok?
    ensures var r := Images(Obj(fields));
      r.Ok? ==> |r.value| == |items| && forall i :: 0 <= i < |items| ==> ImageNew(items[i]) == Ok(r.value[i])
  {
    ImagesIsArrayParse(Obj(fields));
    DemodulizeQualified("Suitcase", "HotelImage");
    ArrayParseEach(Image, fields, items);
    forall i | 0 <= i < |items|
      ensures ImageNew(items[i]) == New(Image, items[i])
    {
      ImageNewIsNew(items[i]);
    }
  }

  lemma ImagesMissing(fields: seq<(string, Json)>)
    requires Lookup(fields, "HotelImage").None? || Lookup(fields, "HotelImage") == Some(Null)
    ensures Images(Obj(fields)) == Ok([])
  {
  }
}
