/** The request side of `Hotel.find`: the `roomN` occupancy encoding, the
    availability and destination parameters, and the request `hotel_list`
    sends. */
module HotelSearch {
  import opened Values
  import opened Strings
  import opened Numbers
  import opened Query

  /** One entry of `params[:rooms]`: `room[:adults]` and `room[:children]`
      (`nil` when the Hash lacks them). */
  datatype Occupancy = Occupancy(adults: Json, children: Json)

  /** The search parameters `find` reads. `rooms` is `None` when
      `params[:rooms]` is `nil` or `false`. */
  datatype Search = Search(
    hotelIdList: Scalar,
    location: Scalar,
    arrival: Scalar,
    departure: Scalar,
    numberOfResults: Scalar,
    rooms: Option<seq<Occupancy>>,
    includeDetails: Scalar,
    feeBreakdown: Scalar)

  /** `[room[:adults], room[:children]].flatten.join(",")`. */
  function RoomText(o: Occupancy): Result<string> {
    JoinText(Flatten(Arr([o.adults, o.children])), ",")
  }

  /** The String key `"room#{n}"`. */
  function RoomKey(n: nat): Key {
    Txt("room" + IntText(n))
  }

  lemma RoomKeyInjective(m: nat, n: nat)
    ensures RoomKey(m) == RoomKey(n) ==> m == n
  {
    if RoomKey(m) == RoomKey(n) {
      assert ("room" + IntText(m))[4..] == IntText(m);
      assert ("room" + IntText(n))[4..] == IntText(n);
      IntTextInjective(m, n);
    }
  }

  /** The `each_with_index` loop from room `i` on, writing into `acc`. */
  function RoomGroupFrom(rs: seq<Occupancy>, i: nat, acc: Params): Result<Params>
    requires i <= |rs|
    decreases |rs| - i
  {
    if i == |rs| then Ok(acc)
    else
      var t :- RoomText(rs[i]);
      RoomGroupFrom(rs, i + 1, Put(acc, RoomKey(i + 1), Str(t)))
  }

  /** `room_group_params(rooms)`. */
  function RoomGroupParams(rooms: Option<seq<Occupancy>>): Result<Params> {
    if rooms.None? then Ok([]) else RoomGroupFrom(rooms.value, 0, [])
  }

  /** `acc` holds rooms `0 .. n-1` under keys `room1 .. roomn`, in order. */
  predicate RoomsListed(rs: seq<Occupancy>, acc: Params, n: nat) {
    && n <= |rs| && |acc| == n
    && forall j :: 0 <= j < n ==> RoomText(rs[j]).Ok? && acc[j] == (RoomKey(j + 1), Str(RoomText(rs[j]).value))
  }

  lemma RoomKeyFresh(rs: seq<Occupancy>, acc: Params, i: nat)
    requires RoomsListed(rs, acc, i)
    ensures RoomKey(i + 1) !in KeysOf(acc)
  {
    KeysOfIndex(acc, RoomKey(i + 1));
    forall j | 0 <= j < i
      ensures acc[j].0 != RoomKey(i + 1)
    {
      RoomKeyInjective(j + 1, i + 1);
    }
  }

  lemma {:induction false} RoomGroupFromSpec(rs: seq<Occupancy>, i: nat, acc: Params)
    requires RoomsListed(rs, acc, i)
    ensures RoomGroupFrom(rs, i, acc).Ok? <==> forall j :: i <= j < |rs| ==> RoomText(rs[j]).Ok?
    ensures RoomGroupFrom(rs, i, acc).Ok? ==> RoomsListed(rs, RoomGroupFrom(rs, i, acc).value, |rs|)
    decreases |rs| - i
  {
    if i < |rs| && RoomText(rs[i]).Ok? {
      var e := (RoomKey(i + 1), Str(RoomText(rs[i]).value));
      RoomKeyFresh(rs, acc, i);
      var acc' := Put(acc, e.0, e.1);
      assert acc' == acc + [e];
      assert RoomsListed(rs, acc', i + 1);
      RoomGroupFromSpec(rs, i + 1, acc');
    }
  }

  /** Room `i` (0-based) goes under `room{i+1}`, as its adults count and
      child ages joined by commas; the keys are distinct Strings. Without
      rooms there are no entries. */
  lemma RoomGroup(rs: seq<Occupancy>)
    ensures RoomGroupParams(None) == Ok([])
    ensures RoomGroupParams(Some(rs)).Ok? <==> forall j :: 0 <= j < |rs| ==> RoomText(rs[j]).Ok?
    ensures var r := RoomGroupParams(Some(rs));
      r.Ok? ==> |r.value| == |rs|
    ensures var r := RoomGroupParams(Some(rs));
      r.Ok? ==> forall j :: 0 <= j < |rs| ==> r.value[j] == (RoomKey(j + 1), Str(RoomText(rs[j]).value))
  {
    RoomGroupFromSpec(rs, 0, []);
  }

  /** The room entries have distinct keys, all of them Strings. */
  lemma RoomGroupKeys(rs: seq<Occupancy>)
    requires RoomGroupParams(Some(rs)).Ok?
    ensures Distinct(RoomGroupParams(Some(rs)).value)
    ensures forall k :: k in KeysOf(RoomGroupParams(Some(rs)).value) ==> k.Txt?
  {
    RoomGroup(rs);
    var r := RoomGroupParams(Some(rs)).value;
    RoomKeysDistinct(r);
    TxtKeys(r);
  }

  lemma RoomKeysDistinct(r: Params)
    requires forall j :: 0 <= j < |r| ==> r[j].0 == RoomKey(j + 1)
    ensures Distinct(r)
  {
    forall i, j | 0 <= i < j < |r|
      ensures r[i].0 != r[j].0
    {
      RoomKeyInjective(i + 1, j + 1);
    }
  }

  lemma TxtKeys(r: Params)
    requires forall j :: 0 <= j < |r| ==> r[j].0.Txt?
    ensures forall k :: k in KeysOf(r) ==> k.Txt?
  {
    forall k | k in KeysOf(r)
      ensures k.Txt?
    {
      KeysOfIndex(r, k);
    }
  }

  /** The integers as Json values. */
  function Ints(cs: seq<int>): (r: seq<Json>)
    ensures |r| == |cs| && forall i :: 0 <= i < |cs| ==> r[i] == Int(cs[i])
  {
    seq(|cs|, i requires 0 <= i < |cs| => Int(cs[i]))
  }

  /** The texts of the integers. */
  function IntTexts(cs: seq<int>): (r: seq<string>)
    ensures |r| == |cs| && forall i :: 0 <= i < |cs| ==> r[i] == IntText(cs[i])
  {
    seq(|cs|, i requires 0 <= i < |cs| => IntText(cs[i]))
  }

  /** `[a, [c1, c2, ...]].flatten` for atoms. */
  lemma FlattenRoom(a: Json, cs: seq<Json>)
    requires !a.Arr? && forall i :: 0 <= i < |cs| ==> !cs[i].Arr?
    ensures Flatten(Arr([a, Arr(cs)])) == [a] + cs
  {
    assert Flatten(Arr([a, Arr(cs)])) == Flatten(a) + FlattenSeq([Arr(cs)]);
    assert FlattenSeq([Arr(cs)]) == Flatten(Arr(cs)) + FlattenSeq([]);
    FlattenAtoms(cs);
  }

  /** A room of `a` adults and children aged `cs` reads `a,c1,c2,...`. */
  lemma RoomTextOf(a: int, cs: seq<int>)
    ensures RoomText(Occupancy(Int(a), Arr(Ints(cs)))) == Ok(Join([IntText(a)] + IntTexts(cs), ","))
  {
    var xs := [Int(a)] + Ints(cs);
    FlattenRoom(Int(a), Ints(cs));
    assert RoomText(Occupancy(Int(a), Arr(Ints(cs)))) == JoinText(xs, ",");
    JoinTextAtoms(xs, ",");
    RoomAtomTexts(a, cs);
  }

  lemma RoomAtomTexts(a: int, cs: seq<int>)
    ensures forall i :: 0 <= i < |[Int(a)] + Ints(cs)| ==> !([Int(a)] + Ints(cs))[i].Arr? && !([Int(a)] + Ints(cs))[i].Obj?
    ensures AtomTexts([Int(a)] + Ints(cs)) == [IntText(a)] + IntTexts(cs)
  {
    IntsAtoms(cs);
    AtomTextsCons(Int(a), Ints(cs));
  }

  /** The integers are atoms, and their texts are their decimal texts. */
  lemma IntsAtoms(cs: seq<int>)
    ensures forall i :: 0 <= i < |Ints(cs)| ==> !Ints(cs)[i].Arr? && !Ints(cs)[i].Obj?
    ensures AtomTexts(Ints(cs)) == IntTexts(cs)
  {
  }

  lemma AtomTextsCons(x: Json, ys: seq<Json>)
    requires !x.Arr? && !x.Obj?
    requires forall i :: 0 <= i < |ys| ==> !ys[i].Arr? && !ys[i].Obj?
    ensures forall i :: 0 <= i < |[x] + ys| ==> !([x] + ys)[i].Arr? && !([x] + ys)[i].Obj?
    ensures AtomTexts([x] + ys) == [AtomText(x)] + AtomTexts(ys)
  {
    var xs := [x] + ys;
    assert forall i :: 1 <= i < |xs| ==> xs[i] == ys[i - 1];
  }

  /** A room without a `:children` entry still gets the separator: `nil`
      joins as the empty text, so the value ends in a comma. */
  lemma RoomTextNoChildren(a: int)
    ensures RoomText(Occupancy(Int(a), Null)) == Ok(IntText(a) + ",")
  {
    var xs := [Int(a), Null];
    assert Flatten(Arr(xs)) == FlattenSeq(xs);
    FlattenAtoms(xs);
    assert RoomText(Occupancy(Int(a), Null)) == JoinText(xs, ",");
    JoinTextAtoms(xs, ",");
    var ts := AtomTexts(xs);
    assert ts[1..] == [""];
    assert Join(ts, ",") == IntText(a) + "," + "";
    assert IntText(a) + "," + "" == IntText(a) + ",";
  }

  /** Arrival, departure and rooms all given. */
  predicate Dated(s: Search) {
    Truthy(s.arrival) && Truthy(s.departure) && s.rooms.Some?
  }

  /** `availability_hash(params)`. */
  function AvailabilityHash(s: Search): Result<Params> {
    if !Dated(s) then Ok([])
    else
      var rooms :- RoomGroupParams(s.rooms);
      Ok(Merge(Merge([(Sym("arrivalDate"), s.arrival), (Sym("departureDate"), s.departure)], rooms),
               [(Sym("numberOfResults"), s.numberOfResults)]))
  }

  /** The availability entries when all three are given. */
  function Dates(s: Search): Params {
    [(Sym("arrivalDate"), s.arrival), (Sym("departureDate"), s.departure)]
  }

  function Count(s: Search): Params {
    [(Sym("numberOfResults"), s.numberOfResults)]
  }

  /** Without arrival, departure and rooms the availability Hash is empty;
      with them it is `arrivalDate`, `departureDate`, one `roomN` per room
      and `numberOfResults`, in that order, with no key repeated. */
  lemma Availability(s: Search)
    ensures !Dated(s) ==> AvailabilityHash(s) == Ok([])
    ensures Dated(s) ==> (AvailabilityHash(s).Ok? <==> RoomGroupParams(s.rooms).Ok?)
    ensures Dated(s) && AvailabilityHash(s).Ok? ==>
      AvailabilityHash(s).value == Dates(s) + RoomGroupParams(s.rooms).value + Count(s)
    ensures AvailabilityHash(s).Ok? ==> Distinct(AvailabilityHash(s).value)
  {
    if Dated(s) && RoomGroupParams(s.rooms).Ok? {
      AvailabilityDated(s);
    }
  }

  /** The availability Hash is empty exactly when a date or the rooms are
      missing. */
  lemma AvailabilityEmpty(s: Search)
    requires AvailabilityHash(s).Ok?
    ensures |AvailabilityHash(s).value| == 0 <==> !Dated(s)
  {
    Availability(s);
  }

  lemma AvailabilityDated(s: Search)
    requires Dated(s) && RoomGroupParams(s.rooms).Ok?
    ensures AvailabilityHash(s) == Ok(Dates(s) + RoomGroupParams(s.rooms).value + Count(s))
    ensures Distinct(Dates(s) + RoomGroupParams(s.rooms).value + Count(s))
  {
    var dates, rooms, count := Dates(s), RoomGroupParams(s.rooms).value, Count(s);
    RoomGroupKeys(s.rooms.value);
    TwoKeys(dates);
    OneKey(count);
    MergeThree(dates, rooms, count);
  }

  lemma OneKey(p: Params)
    requires |p| == 1
    ensures KeysOf(p) == {p[0].0} && Distinct(p)
  {
    KeysOfCons(p);
  }

  lemma TwoKeys(p: Params)
    requires |p| == 2 && p[0].0 != p[1].0
    ensures KeysOf(p) == {p[0].0, p[1].0} && Distinct(p)
  {
    KeysOfCons(p);
    KeysOfCons(p[1..]);
  }

  /** Merging Hashes with no key in common appends them. */
  lemma MergeThree(a: Params, b: Params, c: Params)
    requires Distinct(a) && Distinct(b) && Distinct(c)
    requires KeysOf(a) !! KeysOf(b) && (KeysOf(a) + KeysOf(b)) !! KeysOf(c)
    ensures Merge(Merge(a, b), c) == a + b + c
    ensures Distinct(a + b + c)
  {
    MergeFresh(a, b);
    KeysOfConcat(a, b);
    MergeFresh(a + b, c);
    FreshConcat(a, b, c);
  }

  /** Concatenating Hashes with no key in common keeps keys distinct. */
  lemma FreshConcat(a: Params, b: Params, c: Params)
    requires Distinct(a) && Distinct(b) && Distinct(c)
    requires KeysOf(a) !! KeysOf(b) && KeysOf(a + b) !! KeysOf(c)
    ensures Distinct(a + b) && Distinct(a + b + c)
  {
    DistinctConcat(a, b);
    DistinctConcat(a + b, c);
  }

  lemma DistinctConcat(a: Params, b: Params)
    requires Distinct(a) && Distinct(b) && KeysOf(a) !! KeysOf(b)
    ensures Distinct(a + b)
  {
    var r := a + b;
    forall i, j | 0 <= i < j < |r|
      ensures r[i].0 != r[j].0
    {
      if i < |a| && j >= |a| {
        KeysOfIndex(a, r[i].0);
        KeysOfIndex(b, r[j].0);
        assert r[j] == b[j - |a|];
      } else if i >= |a| {
        assert r[i] == b[i - |a|] && r[j] == b[j - |a|];
      }
    }
  }

  /** `destination_hash(params)`. */
  function DestinationHash(s: Search): Params {
    if Truthy(s.hotelIdList) then [(Sym("hotelIdList"), s.hotelIdList)]
    else [(Sym("destinationString"), s.location)]
  }

  /** One key: the id list when one is given, and otherwise the location,
      even when that is `nil`. */
  lemma Destination(s: Search)
    ensures |DestinationHash(s)| == 1
    ensures Get(DestinationHash(s), Sym("hotelIdList")).Some? <==> Truthy(s.hotelIdList)
    ensures Get(DestinationHash(s), Sym("destinationString")).Some? <==> !Truthy(s.hotelIdList)
    ensures Truthy(s.hotelIdList) ==> Get(DestinationHash(s), Sym("hotelIdList")) == Some(s.hotelIdList)
    ensures !Truthy(s.hotelIdList) ==> Get(DestinationHash(s), Sym("destinationString")) == Some(s.location)
  {
  }

  /** The two flags `find` starts from. */
  function Flags(s: Search): Params {
    [(Sym("includeDetails"), s.includeDetails), (Sym("includeHotelFeeBreakdown"), s.feeBreakdown)]
  }

  /** The `req_params` Hash `find` passes to `hotel_list`. */
  function FindParams(s: Search): Result<Params> {
    var avail :- AvailabilityHash(s);
    Ok(Merge(Merge(Flags(s), avail), DestinationHash(s)))
  }

  /** The flags, then the availability entries, then the destination: no
      key is overwritten, and every key is distinct. */
  lemma FindParamsShape(s: Search)
    ensures FindParams(s).Ok? <==> AvailabilityHash(s).Ok?
    ensures FindParams(s).Ok? ==>
      FindParams(s).value == Flags(s) + AvailabilityHash(s).value + DestinationHash(s)
    ensures FindParams(s).Ok? ==> Distinct(FindParams(s).value)
  {
    if AvailabilityHash(s).Ok? {
      var f, a, d := Flags(s), AvailabilityHash(s).value, DestinationHash(s);
      Availability(s);
      AvailabilityKeys(s);
      TwoKeys(f);
      OneKey(d);
      MergeThree(f, a, d);
    }
  }

  /** The availability Hash uses none of the flag, destination or
      credential keys: its Symbols are the two dates and the count, and
      the rest are Strings. */
  lemma AvailabilityKeys(s: Search)
    requires AvailabilityHash(s).Ok?
    ensures forall k :: k in KeysOf(AvailabilityHash(s).value) ==>
      k.Txt? || k in {Sym("arrivalDate"), Sym("departureDate"), Sym("numberOfResults")}
  {
    Availability(s);
    if Dated(s) {
      var dates, rooms, count := Dates(s), RoomGroupParams(s.rooms).value, Count(s);
      RoomGroupKeys(s.rooms.value);
      TwoKeys(dates);
      OneKey(count);
      KeysOfConcat(dates, rooms);
      KeysOfConcat(dates + rooms, count);
    }
  }

  /** What `hotel_list` sends: the host, the path with its query string,
      and the parameter Hash as it is left after signing. */
  datatype ListCall = ListCall(baseUrl: string, path: string, params: Params)

  /** `hotel_list(req_params)`, up to the network call. */
  function HotelListCall(config: Config, p: Params): ListCall {
    var signed := Sign(config, p, false);
    ListCall(BaseUrl(config, false), "/ean-services/rs/hotel/v3/list?" + Render(signed), signed)
  }

  /** The list call goes to the non-booking host, and its Hash is the
      caller's non-nil entries followed by the non-nil `cid`, `apiKey` and
      `minorRev`. */
  lemma HotelListParams(config: Config, p: Params)
    requires Distinct(p)
    requires KeysOf(p) !! KeysOf(Credentials(config, false))
    ensures HotelListCall(config, p).baseUrl == BaseUrl(config, false)
    ensures HotelListCall(config, p).params == DeleteNil(p) + DeleteNil(Credentials(config, false))
  {
    SignAppends(config, p, false);
  }

  /** The query string of the list call reads back as exactly the entries
      of its Hash that are neither nil nor false, in order. */
  lemma HotelListQuery(config: Config, p: Params)
    ensures var call := HotelListCall(config, p);
      ParseQuery(call.path[|"/ean-services/rs/hotel/v3/list?"|..]) == Some(Expected(call.params))
  {
    var signed := Sign(config, p, false);
    var prefix := "/ean-services/rs/hotel/v3/list?";
    assert (prefix + Render(signed))[|prefix|..] == Render(signed);
    QueryRoundTrip(signed);
  }

  /** `Hotel.find(params)`, up to the network call. */
  function Find(config: Config, s: Search): Result<ListCall> {
    var p :- FindParams(s);
    Ok(HotelListCall(config, p))
  }

  /** The keys of a search Hash: none is a credential key. */
  lemma FindKeys(s: Search)
    requires FindParams(s).Ok?
    ensures KeysOf(FindParams(s).value) !! {Sym("cid"), Sym("apiKey"), Sym("minorRev")}
  {
    FindParamsShape(s);
    AvailabilityKeys(s);
    NoCredentialKeys(Flags(s), AvailabilityHash(s).value, DestinationHash(s));
  }

  lemma NoCredentialKeys(f: Params, a: Params, d: Params)
    requires |f| == 2 && f[0].0 == Sym("includeDetails") && f[1].0 == Sym("includeHotelFeeBreakdown")
    requires forall k :: k in KeysOf(a) ==>
      k.Txt? || k in {Sym("arrivalDate"), Sym("departureDate"), Sym("numberOfResults")}
    requires |d| == 1 && d[0].0 in {Sym("hotelIdList"), Sym("destinationString")}
    ensures KeysOf(f + a + d) !! {Sym("cid"), Sym("apiKey"), Sym("minorRev")}
  {
    TwoKeys(f);
    OneKey(d);
    KeysOfConcat(f, a);
    KeysOfConcat(f + a, d);
  }

  /** A search sends its flags, availability and destination entries that
      are not nil, then the credentials. */
  lemma FindSends(config: Config, s: Search)
    requires FindParams(s).Ok?
    ensures Find(config, s).Ok?
    ensures Find(config, s).value.params ==
      DeleteNil(Flags(s) + AvailabilityHash(s).value + DestinationHash(s)) + DeleteNil(Credentials(config, false))
  {
    FindParamsShape(s);
    FindKeys(s);
    CredentialKeys(config);
    HotelListParams(config, FindParams(s).value);
  }

  /** The list call signs with `cid`, `apiKey` and `minorRev` only: unlike
      `provision_request` it adds no `apiExperience`. */
  lemma CredentialKeys(config: Config)
    ensures KeysOf(Credentials(config, false)) == {Sym("cid"), Sym("apiKey"), Sym("minorRev")}
  {
    var c := Credentials(config, false);
    assert c == [(Sym("cid"), config.cid), (Sym("apiKey"), config.apiKey), (Sym("minorRev"), config.minorRev)];
    KeysOfCons(c);
    KeysOfCons(c[1..]);
    KeysOfCons(c[2..]);
  }
}
