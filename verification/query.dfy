/** Request parameters as an ordered Ruby Hash, the query string built from
    them (`Utils.provision_request`, the same code inlined in
    `Hotel.hotel_list`, and `PaymentOption.query_string`), and the choice of
    host (`base_url`). */
module Query {
  import opened Values
  import opened Strings
  import opened UrlEncoding

  /** Ruby Hash keys: the Symbol `:cid` and the String `"cid"` are different
      keys that render the same way. */
  datatype Key = Sym(name: string) | Txt(name: string)

  /** An ordered Hash of request parameters. */
  type Params = seq<(Key, Scalar)>

  function KeysOf(p: Params): set<Key> {
    if |p| == 0 then {} else {p[0].0} + KeysOf(p[1..])
  }

  predicate Distinct(p: Params) {
    forall i, j :: 0 <= i < j < |p| ==> p[i].0 != p[j].0
  }

  lemma {:induction false} KeysOfIndex(p: Params, k: Key)
    ensures k in KeysOf(p) <==> exists i :: 0 <= i < |p| && p[i].0 == k
  {
    if |p| > 0 {
      KeysOfIndex(p[1..], k);
      if k in KeysOf(p[1..]) {
        var i :| 0 <= i < |p[1..]| && p[1..][i].0 == k;
        assert p[i + 1].0 == k;
      }
    }
  }

  lemma {:induction false} KeysOfConcat(a: Params, b: Params)
    ensures KeysOf(a + b) == KeysOf(a) + KeysOf(b)
  {
    if |a| > 0 {
      assert (a + b)[1..] == a[1..] + b;
      KeysOfConcat(a[1..], b);
    } else {
      assert a + b == b;
    }
  }

  lemma KeysOfCons(p: Params)
    requires |p| > 0
    ensures KeysOf(p) == {p[0].0} + KeysOf(p[1..])
  {
  }

  /** A Hash without repeated keys: its first key is not among the rest. */
  lemma DistinctHead(p: Params)
    requires Distinct(p) && |p| > 0
    ensures p[0].0 !in KeysOf(p[1..]) && Distinct(p[1..])
  {
    KeysOfIndex(p[1..], p[0].0);
    forall j | 0 <= j < |p[1..]|
      ensures p[1..][j].0 != p[0].0
    {
      assert p[1..][j] == p[j + 1];
    }
  }

  /** `p[k]` (absent is `None`). */
  function Get(p: Params, k: Key): (r: Option<Scalar>)
    ensures r.Some? <==> k in KeysOf(p)
  {
    if |p| == 0 then None
    else if p[0].0 == k then Some(p[0].1)
    else Get(p[1..], k)
  }

  lemma {:induction false} GetAt(p: Params, i: nat)
    requires Distinct(p) && i < |p|
    ensures Get(p, p[i].0) == Some(p[i].1)
  {
    if i > 0 {
      GetAt(p[1..], i - 1);
    }
  }

  /** `p[k] = v`: an existing key keeps its place and takes the new value, a
      new key goes last. */
  function Put(p: Params, k: Key, v: Scalar): (r: Params)
    ensures Get(r, k) == Some(v)
    ensures forall k' :: k' != k ==> Get(r, k') == Get(p, k')
    ensures KeysOf(r) == KeysOf(p) + {k}
    ensures k !in KeysOf(p) ==> r == p + [(k, v)]
  {
    if |p| == 0 then [(k, v)]
    else if p[0].0 == k then [(k, v)] + p[1..]
    else
      var rest := Put(p[1..], k, v);
      assert ([p[0]] + rest)[1..] == rest;
      assert p == [p[0]] + p[1..];
      [p[0]] + rest
  }

  lemma {:induction false} PutDistinct(p: Params, k: Key, v: Scalar)
    requires Distinct(p)
    ensures Distinct(Put(p, k, v))
  {
    if |p| > 0 && p[0].0 != k {
      DistinctHead(p);
      PutDistinct(p[1..], k, v);
      var r := Put(p, k, v);
      var rest := Put(p[1..], k, v);
      assert r == [p[0]] + rest;
      assert p[0].0 !in KeysOf(rest);
      forall i, j | 0 <= i < j < |r|
        ensures r[i].0 != r[j].0
      {
        if i == 0 {
          KeysOfIndex(rest, r[j].0);
          assert rest[j - 1] == r[j];
        } else {
          assert r[i] == rest[i - 1] && r[j] == rest[j - 1];
        }
      }
    }
  }

  /** `p.merge(q)`: the entries of `q` put into `p` one after another. */
  function Merge(p: Params, q: Params): (r: Params)
    decreases |q|
  {
    if |q| == 0 then p else Merge(Put(p, q[0].0, q[0].1), q[1..])
  }

  /** A merged key takes the merged-in value; every other key keeps its own. */
  lemma {:induction false} MergeGet(p: Params, q: Params)
    ensures KeysOf(Merge(p, q)) == KeysOf(p) + KeysOf(q)
    ensures Distinct(p) ==> Distinct(Merge(p, q))
    ensures Distinct(q) ==> forall k :: k in KeysOf(q) ==> Get(Merge(p, q), k) == Get(q, k)
    ensures forall k :: k !in KeysOf(q) ==> Get(Merge(p, q), k) == Get(p, k)
    decreases |q|
  {
    if |q| > 0 {
      var p' := Put(p, q[0].0, q[0].1);
      if Distinct(p) {
        PutDistinct(p, q[0].0, q[0].1);
      }
      if Distinct(q) {
        DistinctHead(q);
      }
      MergeGet(p', q[1..]);
    }
  }

  /** Merging fresh keys appends them in order. */
  lemma {:induction false} MergeFresh(p: Params, q: Params)
    requires Distinct(q)
    requires KeysOf(p) !! KeysOf(q)
    ensures Merge(p, q) == p + q
    decreases |q|
  {
    if |q| > 0 {
      var head, tail := q[0], q[1..];
      DistinctHead(q);
      KeysOfCons(q);
      assert head.0 !in KeysOf(p);
      var p' := Put(p, head.0, head.1);
      assert p' == p + [head];
      assert KeysOf(p') == KeysOf(p) + {head.0};
      assert KeysOf(p') !! KeysOf(tail);
      assert Merge(p, q) == Merge(p', tail);
      MergeFresh(p', tail);
      HeadTail(q);
      ConcatAssoc(p, [head], tail);
    }
  }

  /** `p.delete_if { |k, v| v == nil }`. */
  function DeleteNil(p: Params): (r: Params)
    ensures forall i :: 0 <= i < |r| ==> !r[i].1.Null?
    ensures KeysOf(r) <= KeysOf(p)
  {
    if |p| == 0 then []
    else if p[0].1.Null? then DeleteNil(p[1..])
    else [p[0]] + DeleteNil(p[1..])
  }

  /** A present value unless it is nil. */
  function NonNil(o: Option<Scalar>): Option<Scalar> {
    if o.Some? && !o.value.Null? then o else None
  }

  /** Deletion keeps every non-nil value and forgets the nil ones. */
  lemma {:induction false} DeleteNilGet(p: Params)
    ensures Distinct(p) ==> Distinct(DeleteNil(p))
    ensures Distinct(p) ==> forall k :: Get(DeleteNil(p), k) == NonNil(Get(p, k))
  {
    if |p| > 0 && Distinct(p) {
      DistinctHead(p);
      DeleteNilGet(p[1..]);
      var rest := DeleteNil(p[1..]);
      assert p[0].0 !in KeysOf(rest);
      if !p[0].1.Null? {
        var r := [p[0]] + rest;
        assert r[1..] == rest;
        forall i, j | 0 <= i < j < |r|
          ensures r[i].0 != r[j].0
        {
          if i == 0 {
            KeysOfIndex(rest, r[j].0);
            assert rest[j - 1] == r[j];
          } else {
            assert r[i] == rest[i - 1] && r[j] == rest[j - 1];
          }
        }
      }
    }
  }

  /** `value == true ? "true" : value`. */
  function Rendered(v: Scalar): Scalar {
    if v == Bool(true) then Str("true") else v
  }

  /** `urlencode(key.to_s) + "=" + urlencode(value.to_s)`. */
  function PairText(k: Key, v: Scalar): string {
    Encode(k.name) + "=" + Encode(AtomText(Rendered(v)))
  }

  /** The `map { ... if value }.compact` step: one pair per entry whose
      value is neither nil nor false. */
  function Pairs(p: Params): seq<string> {
    if |p| == 0 then []
    else if Truthy(Rendered(p[0].1)) then [PairText(p[0].0, p[0].1)] + Pairs(p[1..])
    else Pairs(p[1..])
  }

  /** The query string: the pairs joined by `&`. */
  function Render(p: Params): string {
    Join(Pairs(p), "&")
  }

  /** The entries that make it into a query string, in order. */
  function Kept(p: Params): (r: Params)
    ensures |r| <= |p|
    ensures forall i :: 0 <= i < |r| ==> Truthy(r[i].1)
  {
    if |p| == 0 then []
    else if Truthy(p[0].1) then [p[0]] + Kept(p[1..])
    else Kept(p[1..])
  }

  /** One read-back pair of a query string, as bytes. */
  datatype QueryPair = QueryPair(key: seq<byte>, value: seq<byte>)

  function ParsePair(piece: string): Option<QueryPair> {
    var kv := SplitOn(piece, '=');
    if |kv| != 2 then None
    else match (Decode(kv[0]), Decode(kv[1]))
      case (Some(k), Some(v)) => Some(QueryPair(k, v))
      case _ => None
  }

  function ParsePairs(pieces: seq<string>): Option<seq<QueryPair>> {
    if |pieces| == 0 then Some([])
    else match (ParsePair(pieces[0]), ParsePairs(pieces[1..]))
      case (Some(x), Some(xs)) => Some([x] + xs)
      case _ => None
  }

  /** Reads a query string back: split on `&`, then on `=`, then decode. */
  function ParseQuery(q: string): Option<seq<QueryPair>> {
    if q == "" then Some([]) else ParsePairs(SplitOn(q, '&'))
  }

  /** What the query string should say about `p`: the UTF-8 key and value
      text of every entry whose value is neither nil nor false. */
  function Expected(p: Params): seq<QueryPair> {
    if |p| == 0 then []
    else if Truthy(p[0].1) then [QueryPair(Utf8(p[0].0.name), Utf8(AtomText(p[0].1)))] + Expected(p[1..])
    else Expected(p[1..])
  }

  lemma {:induction false} PairsAreKept(p: Params)
    ensures |Pairs(p)| == |Kept(p)|
    ensures forall i :: 0 <= i < |Pairs(p)| ==> '&' !in Pairs(p)[i]
    ensures |Pairs(p)| > 0 ==> '=' in Pairs(p)[0]
  {
    if |p| > 0 {
      PairsAreKept(p[1..]);
      var ps := Pairs(p[1..]);
      if Truthy(p[0].1) {
        assert Truthy(Rendered(p[0].1));
        var x := PairText(p[0].0, p[0].1);
        PairParses(p[0].0, p[0].1);
        assert Pairs(p) == [x] + ps;
        AllFreeCons(x, ps, '&');
        assert x[|Encode(p[0].0.name)|] == '=';
      } else {
        assert !Truthy(Rendered(p[0].1));
      }
    }
  }

  /** `true` renders as the text `"true"`, which is its own text anyway. */
  lemma RenderedText(v: Scalar)
    ensures AtomText(Rendered(v)) == AtomText(v)
  {
  }

  /** An encoded `key=value` piece holds no `&` and reads back as the two
      byte strings. */
  lemma EncodedPairParses(x: string, y: string)
    ensures '&' !in Encode(x) + "=" + Encode(y)
    ensures ParsePair(Encode(x) + "=" + Encode(y)) == Some(QueryPair(Utf8(x), Utf8(y)))
  {
    var a := Encode(x);
    var b := Encode(y);
    EncodeFree(x, '=');
    EncodeFree(y, '=');
    EncodeFree(x, '&');
    EncodeFree(y, '&');
    assert a + "=" + b == a + ['='] + b;
    SplitOnPrefix(a, b, '=');
    SplitOnFree(b, '=');
    assert SplitOn(a + "=" + b, '=') == [a, b];
    DecodeEncode(x);
    DecodeEncode(y);
  }

  lemma PairParses(k: Key, v: Scalar)
    ensures '&' !in PairText(k, v)
    ensures ParsePair(PairText(k, v)) == Some(QueryPair(Utf8(k.name), Utf8(AtomText(v))))
  {
    RenderedText(v);
    EncodedPairParses(k.name, AtomText(Rendered(v)));
  }

  lemma {:induction false} ParsePairsOfPairs(p: Params)
    ensures ParsePairs(Pairs(p)) == Some(Expected(p))
  {
    if |p| > 0 {
      ParsePairsOfPairs(p[1..]);
      if Truthy(p[0].1) {
        var ps := Pairs(p);
        assert Truthy(Rendered(p[0].1));
        assert ps[0] == PairText(p[0].0, p[0].1) && ps[1..] == Pairs(p[1..]);
        PairParses(p[0].0, p[0].1);
      } else {
        assert !Truthy(Rendered(p[0].1));
      }
    }
  }

  /** The query string holds exactly one `key=value` pair per entry whose
      value is neither nil nor false, in order, and nothing else: reading it
      back gives those keys and the text of those values. */
  lemma QueryRoundTrip(p: Params)
    ensures ParseQuery(Render(p)) == Some(Expected(p))
    ensures Render(p) == "" <==> |Kept(p)| == 0
  {
    PairsAreKept(p);
    var ps := Pairs(p);
    ParsePairsOfPairs(p);
    if |ps| == 0 {
    } else {
      JoinNonEmpty(ps, "&");
      SplitJoin(ps, '&');
    }
  }

  lemma {:induction false} JoinNonEmpty(parts: seq<string>, sep: string)
    requires |parts| >= 1 && '=' in parts[0]
    ensures Join(parts, sep) != ""
  {
    if |parts| > 1 {
      assert Join(parts, sep)[..|parts[0]|] == parts[0];
    }
  }

  /** Deleting nil entries first does not change the query string. */
  lemma {:induction false} RenderIgnoresNil(p: Params)
    ensures Pairs(DeleteNil(p)) == Pairs(p)
  {
    if |p| > 0 {
      RenderIgnoresNil(p[1..]);
    }
  }

  /** The process-wide settings `Suitcase.configuration` supplies. */
  datatype Config = Config(
    cid: Scalar,
    apiKey: Scalar,
    minorRev: Scalar,
    apiExperience: Scalar,
    development: bool)

  /** `base_url(booking)`. */
  function BaseUrl(config: Config, booking: bool): (url: string)
    ensures config.development ==> url == "http://dev.api.ean.com"
    ensures !config.development && booking ==> url == "https://book.api.ean.com"
    ensures !config.development && !booking ==> url == "http://api.ean.com"
  {
    if config.development then "http://dev.api.ean.com"
    else if booking then "https://book.api.ean.com"
    else "http://api.ean.com"
  }

  /** The credential entries `hotel_list` sets (`withExperience` false) and
      `provision_request` sets (`withExperience` true), in that order. */
  function Credentials(config: Config, withExperience: bool): (c: Params)
    ensures Distinct(c)
  {
    [(Sym("cid"), config.cid), (Sym("apiKey"), config.apiKey), (Sym("minorRev"), config.minorRev)]
    + (if withExperience then [(Sym("apiExperience"), config.apiExperience)] else [])
  }

  /** What `provision_request` leaves behind: the request Hash as it was
      modified in place, the query string it returns, and the host it set. */
  datatype Provisioned = Provisioned(params: Params, query: string, baseUrl: string)

  /** The credential assignments, the nil deletion and the rendering shared
      by `hotel_list` and `provision_request`. */
  function Sign(config: Config, p: Params, withExperience: bool): (r: Params)
    ensures forall i :: 0 <= i < |r| ==> !r[i].1.Null?
    ensures Distinct(p) ==> forall i :: 0 <= i < |Credentials(config, withExperience)| ==>
      var (k, v) := Credentials(config, withExperience)[i];
      Get(r, k) == NonNil(Some(v))
    ensures Distinct(p) ==> forall k :: k !in KeysOf(Credentials(config, withExperience)) ==>
      Get(r, k) == NonNil(Get(p, k))
    ensures Distinct(p) ==> Distinct(r)
    ensures Pairs(r) == Pairs(Merge(p, Credentials(config, withExperience)))
  {
    var c := Credentials(config, withExperience);
    var m := Merge(p, c);
    MergeGet(p, c);
    DeleteNilGet(m);
    forall i | 0 <= i < |c|
      ensures Get(c, c[i].0) == Some(c[i].1)
    {
      GetAt(c, i);
    }
    RenderIgnoresNil(m);
    DeleteNil(m)
  }

  /** `provision_request(req_params, session, booking)`: the four
      credentials are set before the nil entries are deleted, and the query
      string holds one pair per truthy entry left, in order. */
  function Provision(config: Config, p: Params, booking: bool): (r: Provisioned)
    ensures ParseQuery(r.query) == Some(Expected(r.params))
    ensures r.query == "" <==> |Kept(r.params)| == 0
    ensures forall i :: 0 <= i < |r.params| ==> !r.params[i].1.Null?
    ensures Distinct(p) ==> Distinct(r.params)
    ensures Distinct(p) ==> forall i :: 0 <= i < |Credentials(config, true)| ==>
      Get(r.params, Credentials(config, true)[i].0) == NonNil(Some(Credentials(config, true)[i].1))
    ensures Distinct(p) ==> forall k :: k !in KeysOf(Credentials(config, true)) ==>
      Get(r.params, k) == NonNil(Get(p, k))
    ensures r.baseUrl == BaseUrl(config, booking)
  {
    var signed := Sign(config, p, true);
    QueryRoundTrip(signed);
    Provisioned(signed, Render(signed), BaseUrl(config, booking))
  }

  /** When the caller's Hash holds none of the credential keys, the kept
      caller entries come first, in their order, and the credentials that
      are set follow in the order cid, apiKey, minorRev, apiExperience. */
  lemma {:induction false} SignAppends(config: Config, p: Params, withExperience: bool)
    requires Distinct(p)
    requires KeysOf(p) !! KeysOf(Credentials(config, withExperience))
    ensures Sign(config, p, withExperience) == DeleteNil(p) + DeleteNil(Credentials(config, withExperience))
  {
    var c := Credentials(config, withExperience);
    MergeFresh(p, c);
    DeleteNilConcat(p, c);
  }

  lemma {:induction false} DeleteNilConcat(p: Params, q: Params)
    ensures DeleteNil(p + q) == DeleteNil(p) + DeleteNil(q)
  {
    if |p| > 0 {
      assert (p + q)[1..] == p[1..] + q;
      DeleteNilConcat(p[1..], q);
    } else {
      assert p + q == q;
    }
  }
}
