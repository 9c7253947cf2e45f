/** Parsed JSON values as the Ruby client sees them, Ruby's truthiness, the
    few core-library operations the client applies to them (`[]`, `map`,
    `select`, `flatten`, `join`), and the errors those operations raise. */
module Values {
  import opened Numbers
  import opened Strings

  datatype Option<+T> = None | Some(value: T)

  /** What `JSON.parse` yields. Objects keep their members in order. */
  datatype Json =
    | Null
    | Bool(b: bool)
    | Int(i: int)
    | Str(s: string)
    | Arr(items: seq<Json>)
    | Obj(fields: seq<(string, Json)>)

  /** A value that is not a collection; request parameters are scalars. */
  type Scalar = v: Json | v.Null? || v.Bool? || v.Int? || v.Str? witness Null

  /** The exception `Hotel.handle` raises for a vendor error node. */
  datatype EanException = EanException(
    message: Json,
    verboseMessage: Json,
    recoverability: Json,
    reservationMade: bool,
    reservationId: Json,
    raw: Json)

  /** Why an operation did not return. */
  datatype Fault =
    | NoMethodError(name: string)  // the receiver has no such method
    | TypeError(detail: string)
    | Raised(exception: EanException)
    | Unmodelled(what: string)       // Ruby behaviour this model does not spell out

  datatype Result<+T> = Ok(value: T) | Err(fault: Fault) {
    predicate IsFailure() {
      Err?
    }

    function PropagateFailure<U>(): Result<U>
      requires Err?
    {
      Err(fault)
    }

    function Extract(): T
      requires Ok?
    {
      value
    }
  }

  /** Only `nil` and `false` are false in Ruby. */
  predicate Truthy(v: Json) {
    !(v.Null? || v == Bool(false))
  }

  function Keys(fields: seq<(string, Json)>): set<string> {
    set i | 0 <= i < |fields| :: fields[i].0
  }

  /** A Ruby Hash has each key once. */
  predicate UniqueKeys(fields: seq<(string, Json)>) {
    forall i, j :: 0 <= i < j < |fields| ==> fields[i].0 != fields[j].0
  }

  function Lookup(fields: seq<(string, Json)>, k: string): (r: Option<Json>)
    ensures r.Some? <==> k in Keys(fields)
  {
    if |fields| == 0 then None
    else if fields[0].0 == k then Some(fields[0].1)
    else
      var r := Lookup(fields[1..], k);
      assert Keys(fields) == {fields[0].0} + Keys(fields[1..]);
      r
  }

  lemma {:induction false} LookupAt(fields: seq<(string, Json)>, i: nat)
    requires UniqueKeys(fields) && i < |fields|
    ensures Lookup(fields, fields[i].0) == Some(fields[i].1)
  {
    if i > 0 {
      LookupAt(fields[1..], i - 1);
    }
  }

  predicate IsSubstring(needle: string, hay: string) {
    needle <= hay || (|hay| > 0 && IsSubstring(needle, hay[1..]))
  }

  /** `v[key]` for a String key. A Hash answers the member or nil, a String
      answers the key when it occurs in it, an Array or Integer refuses the
      argument type, and the rest have no `[]`. */
  function Index(v: Json, key: string): (r: Result<Json>)
    ensures r.Ok? <==> Indexable(v)
    ensures v.Obj? ==> r.Ok? && r.value == Member(v.fields, key)
    ensures (v.Null? || v.Bool?) ==> r == Err(NoMethodError("[]"))
  {
    match v
    case Obj(fields) => Ok(Member(fields, key))
    case Str(s) => Ok(if IsSubstring(key, s) then Str(key) else Null)
    case Arr(_) => Err(TypeError("no implicit conversion of String into Integer"))
    case Int(_) => Err(TypeError("no implicit conversion of String into Integer"))
    case _ => Err(NoMethodError("[]"))
  }

  /** The receivers `v[key]` accepts with a String key. */
  predicate Indexable(v: Json) {
    v.Obj? || v.Str?
  }

  /** `h[key]` for a Hash: the member's value, or `nil` when absent. */
  function Member(fields: seq<(string, Json)>, key: string): Json {
    match Lookup(fields, key)
    case Some(x) => x
    case None => Null
  }

  /** `v[key]` on a receiver known to accept it. */
  function At(v: Json, key: string): Json
    requires Indexable(v)
  {
    Index(v, key).value
  }

  /** The items `v.map` visits: the elements of an Array, and a two-element
      `[key, value]` Array per member of a Hash. */
  function MapItems(v: Json): (r: Result<seq<Json>>)
    ensures v.Arr? ==> r == Ok(v.items)
    ensures v.Obj? ==> r.Ok? && |r.value| == |v.fields|
  {
    match v
    case Arr(items) => Ok(items)
    case Obj(fields) => Ok(seq(|fields|, i requires 0 <= i < |fields| => Arr([Str(fields[i].0), fields[i].1])))
    case _ => Err(NoMethodError("map"))
  }

  /** `xs.map { |x| f(x) }` where `f` may raise: the first error stops the
      map. */
  function MapResult<T>(xs: seq<Json>, f: Json -> Result<T>): (r: Result<seq<T>>)
    ensures r.Ok? <==> forall i :: 0 <= i < |xs| ==> f(xs[i]).Ok?
    ensures r.Ok? ==> |r.value| == |xs| && forall i :: 0 <= i < |xs| ==> f(xs[i]) == Ok(r.value[i])
  {
    if |xs| == 0 then Ok([])
    else
      var head :- f(xs[0]);
      var tail :- MapResult(xs[1..], f);
      assert forall i :: 1 <= i < |xs| ==> xs[i] == xs[1..][i - 1];
      Ok([head] + tail)
  }

  /** How a block `|k, v|` destructures one yielded value. */
  function Destructure(x: Json): (Json, Json) {
    match x
    case Arr(ys) => (if |ys| > 0 then ys[0] else Null, if |ys| > 1 then ys[1] else Null)
    case _ => (x, Null)
  }

  /** The `(k, v)` pairs `v.select { |k, v| ... }` visits. */
  function Entries(v: Json): (r: Result<seq<(Json, Json)>>)
    ensures v.Obj? ==> r.Ok? && |r.value| == |v.fields|
    ensures v.Obj? ==> forall i :: 0 <= i < |v.fields| ==> r.value[i] == (Str(v.fields[i].0), v.fields[i].1)
  {
    match v
    case Obj(fields) => Ok(seq(|fields|, i requires 0 <= i < |fields| => (Str(fields[i].0), fields[i].1)))
    case Arr(items) => Ok(seq(|items|, i requires 0 <= i < |items| => Destructure(items[i])))
    case _ => Err(NoMethodError("select"))
  }

  /** `[x].flatten`: nested Arrays are spliced in at every depth. */
  function Flatten(x: Json): (r: seq<Json>)
    ensures !x.Arr? ==> r == [x]
    ensures forall i :: 0 <= i < |r| ==> !r[i].Arr?
    decreases x, 1
  {
    if x.Arr? then FlattenSeq(x.items) else [x]
  }

  function FlattenSeq(xs: seq<Json>): (r: seq<Json>)
    ensures forall i :: 0 <= i < |r| ==> !r[i].Arr?
    decreases xs, 0
  {
    if |xs| == 0 then [] else Flatten(xs[0]) + FlattenSeq(xs[1..])
  }

  /** A bare object and an Array holding just that object flatten alike. */
  lemma SingletonFlatten(x: Json)
    requires !x.Arr?
    ensures Flatten(Arr([x])) == Flatten(x) == [x]
  {
    assert FlattenSeq([x]) == Flatten(x) + FlattenSeq([]);
  }

  /** Flattening a list without nested Arrays leaves it as it is. */
  lemma {:induction false} FlattenAtoms(xs: seq<Json>)
    requires forall i :: 0 <= i < |xs| ==> !xs[i].Arr?
    ensures FlattenSeq(xs) == xs
  {
    if |xs| > 0 {
      FlattenAtoms(xs[1..]);
      HeadTail(xs);
    }
  }

  /** `[x].flatten` is `x` flattened. */
  lemma FlattenWrapped(x: Json)
    ensures Flatten(Arr([x])) == Flatten(x)
  {
    assert FlattenSeq([x]) == Flatten(x) + FlattenSeq([]);
  }

  /** An Array of atoms flattens to its elements, and so does the Array
      wrapped once more. */
  lemma FlattenList(xs: seq<Json>)
    requires forall i :: 0 <= i < |xs| ==> !xs[i].Arr?
    ensures Flatten(Arr(xs)) == xs && Flatten(Arr([Arr(xs)])) == xs
  {
    FlattenAtoms(xs);
    FlattenWrapped(Arr(xs));
  }

  /** `to_s` of a value that is not a collection. */
  function AtomText(v: Json): string
    requires !v.Arr? && !v.Obj?
  {
    match v
    case Null => ""
    case Bool(b) => if b then "true" else "false"
    case Int(i) => IntText(i)
    case Str(s) => s
  }

  /** The text each element contributes to `xs.join(sep)`: nested Arrays are
      joined recursively. Hash elements are not modelled. */
  function JoinText(xs: seq<Json>, sep: string): (r: Result<string>)
    ensures (forall i :: 0 <= i < |xs| ==> !xs[i].Arr? && !xs[i].Obj?) ==> r.Ok?
    decreases xs
  {
    if |xs| == 0 then Ok("")
    else
      var head :- ElementText(xs[0], sep);
      if |xs| == 1 then Ok(head)
      else
        var tail :- JoinText(xs[1..], sep);
        Ok(head + sep + tail)
  }

  function ElementText(x: Json, sep: string): (r: Result<string>)
    ensures !x.Arr? && !x.Obj? ==> r == Ok(AtomText(x))
    decreases x
  {
    match x
    case Arr(ys) => JoinText(ys, sep)
    case Obj(_) => Err(Unmodelled("Hash#to_s inside Array#join"))
    case _ => Ok(AtomText(x))
  }

  /** The texts of a list of atoms. */
  function AtomTexts(xs: seq<Json>): (r: seq<string>)
    requires forall i :: 0 <= i < |xs| ==> !xs[i].Arr? && !xs[i].Obj?
    ensures |r| == |xs| && forall i :: 0 <= i < |xs| ==> r[i] == AtomText(xs[i])
  {
    seq(|xs|, i requires 0 <= i < |xs| => AtomText(xs[i]))
  }

  /** Joining atoms joins their `to_s` texts. */
  lemma {:induction false} JoinTextAtoms(xs: seq<Json>, sep: string)
    requires forall i :: 0 <= i < |xs| ==> !xs[i].Arr? && !xs[i].Obj?
    ensures JoinText(xs, sep) == Ok(Join(AtomTexts(xs), sep))
  {
    if |xs| > 1 {
      JoinTextAtoms(xs[1..], sep);
      assert AtomTexts(xs)[1..] == AtomTexts(xs[1..]);
    }
  }
}
