/** `Suitcase::ResponseObject`: a class lists the vendor's field names in
    three buckets (integer, string, float), and `initialize` copies the
    matching members of a parsed JSON object into the class's writers, one
    bucket after the other, converting each value by its bucket.
    `array_parse` builds one object per element of a collection. */
module ResponseObject {
  import opened Values
  import opened Numbers
  import opened KeyCodec

  /** The buckets of `ean_fields`, in the order `initialize` visits them. */
  datatype Kind = Integer | Text | Float

  /** `ean_fields`: the vendor's field names in each bucket. */
  datatype Schema = Schema(integer: seq<string>, text: seq<string>, float: seq<string>)

  /** A response-object class: its qualified name, its schema, and the names
      of its writers (one per `attr_accessor`). */
  datatype Class = Class(name: string, schema: Schema, accessors: set<string>)

  /** What a writer stores. `to_f` is not modelled: a float attribute keeps
      the value it was converted from. */
  datatype Attr = IntAttr(i: int) | TextAttr(t: Json) | FloatAttr(raw: Json)

  /** The attributes an object has been given, by accessor name. */
  type Attrs = map<string, Attr>

  type Entry = (Json, Json)

  function Bucket(s: Schema, k: Kind): seq<string> {
    match k
    case Integer => s.integer
    case Text => s.text
    case Float => s.float
  }

  function AllNames(s: Schema): seq<string> {
    s.integer + s.text + s.float
  }

  function KindOf(a: Attr): Kind {
    match a
    case IntAttr(_) => Integer
    case TextAttr(_) => Text
    case FloatAttr(_) => Float
  }

  /** Values that answer `empty?`. */
  predicate Sized(v: Json) {
    v.Str? || v.Arr? || v.Obj?
  }

  predicate Empty(v: Json)
    requires Sized(v)
  {
    match v
    case Str(s) => |s| == 0
    case Arr(items) => |items| == 0
    case Obj(fields) => |fields| == 0
  }

  /** Values that answer `to_i` and `to_f`. */
  predicate Numeric(v: Json) {
    v.Int? || v.Str?
  }

  /** The guard and the conversion of one bucket: `v.to_i if v`,
      `v if v && !v.empty?` and `v.to_f if v`. `None` means the writer is
      not called. */
  function Coerce(k: Kind, v: Json): (r: Result<Option<Attr>>)
    ensures !Truthy(v) ==> r == Ok(None)
    ensures r.Err? <==> Truthy(v) && (if k == Text then !Sized(v) else !Numeric(v))
    ensures r.Ok? && r.value.Some? ==> KindOf(r.value.value) == k
    ensures k == Text && Sized(v) ==> (r == Ok(None) <==> Empty(v))
    ensures k != Text && Truthy(v) && r.Ok? ==> r.value.Some?
    ensures k == Integer && v.Int? ==> r == Ok(Some(IntAttr(v.i)))
    ensures k == Integer && v.Str? ==> r == Ok(Some(IntAttr(StrToI(v.s))))
    ensures k == Text && r.Ok? && r.value.Some? ==> r.value.value == TextAttr(v)
    ensures k == Float && r.Ok? && r.value.Some? ==> r.value.value == FloatAttr(v)
  {
    if !Truthy(v) then Ok(None)
    else
      match k
      case Integer =>
        (match v
         case Int(i) => Ok(Some(IntAttr(i)))
         case Str(s) => Ok(Some(IntAttr(StrToI(s))))
         case _ => Err(NoMethodError("to_i")))
      case Text =>
        if !Sized(v) then Err(NoMethodError("empty?"))
        else if Empty(v) then Ok(None)
        else Ok(Some(TextAttr(v)))
      case Float =>
        if Numeric(v) then Ok(Some(FloatAttr(v))) else Err(NoMethodError("to_f"))
  }

  /** A number the vendor sends as text reads back as the same integer. */
  lemma CoerceIntText(n: int)
    ensures Coerce(Integer, Str(IntText(n))) == Coerce(Integer, Int(n)) == Ok(Some(IntAttr(n)))
  {
    IntTextRoundTrip(n);
  }

  /** `attribute_names(false, k).include?(key)`: only String keys match. */
  predicate Selected(s: Schema, k: Kind, key: Json) {
    key.Str? && key.s in Bucket(s, k)
  }

  /** The pass for bucket `k` calls writer `a` with entry `e`. */
  predicate Assigns(c: Class, k: Kind, e: Entry, a: string) {
    && Selected(c.schema, k, e.0)
    && Coerce(k, e.1).Ok? && Coerce(k, e.1).value.Some?
    && Rubyize(e.0.s) == a
  }

  /** What that call stores. */
  function Assigned(k: Kind, e: Entry): Attr
    requires Coerce(k, e.1).Ok? && Coerce(k, e.1).value.Some?
  {
    Coerce(k, e.1).value.value
  }

  /** Entry `e` raises nothing in the pass for bucket `k`: it is not
      selected, or its value converts and, when the writer is called, the
      writer exists. */
  predicate StepOk(c: Class, k: Kind, e: Entry) {
    !Selected(c.schema, k, e.0) ||
    (Coerce(k, e.1).Ok? && (Coerce(k, e.1).value.Some? ==> Rubyize(e.0.s) in c.accessors))
  }

  /** One iteration of a pass: `send(rubyize_key(k) + "=", coerced)`. A
      missing writer raises `NoMethodError`. */
  function Step(c: Class, k: Kind, e: Entry, attrs: Attrs): (r: Result<Attrs>)
    ensures r.Ok? <==> StepOk(c, k, e)
    ensures r.Ok? ==> forall a :: a in r.value <==> a in attrs || Assigns(c, k, e, a)
    ensures r.Ok? ==> forall a :: a in r.value && !Assigns(c, k, e, a) ==> r.value[a] == attrs[a]
    ensures r.Ok? ==> forall a :: Assigns(c, k, e, a) ==> a in c.accessors && r.value[a] == Assigned(k, e)
  {
    if !Selected(c.schema, k, e.0) then Ok(attrs)
    else
      var x :- Coerce(k, e.1);
      if x.None? then Ok(attrs)
      else
        var writer := Rubyize(e.0.s);
        if writer in c.accessors then Ok(attrs[writer := x.value])
        else Err(NoMethodError(writer + "="))
  }

  /** One `select { ... }.each { ... }` pass of `initialize`. */
  function Pass(c: Class, k: Kind, es: seq<Entry>, attrs: Attrs): Result<Attrs>
    decreases |es|
  {
    if |es| == 0 then Ok(attrs)
    else
      var next :- Step(c, k, es[0], attrs);
      Pass(c, k, es[1..], next)
  }

  /** `initialize(ean_response_object)`: the integer, string and float
      passes over the members (or, for an Array, the destructured
      elements) of `obj`. */
  function New(c: Class, obj: Json): Result<Attrs> {
    var es :- Entries(obj);
    var a1 :- Pass(c, Integer, es, map[]);
    var a2 :- Pass(c, Text, es, a1);
    Pass(c, Float, es, a2)
  }

  /** A pass over an empty bucket selects nothing and changes nothing. */
  lemma {:induction false} PassNothing(c: Class, k: Kind, es: seq<Entry>, attrs: Attrs)
    requires |Bucket(c.schema, k)| == 0
    ensures Pass(c, k, es, attrs) == Ok(attrs)
    decreases |es|
  {
    if |es| > 0 {
      assert Step(c, k, es[0], attrs) == Ok(attrs);
      PassNothing(c, k, es[1..], attrs);
    }
  }

  /** A pass raises exactly when one of its entries does. */
  lemma {:induction false} PassOk(c: Class, k: Kind, es: seq<Entry>, attrs: Attrs)
    ensures Pass(c, k, es, attrs).Ok? <==> forall i :: 0 <= i < |es| ==> StepOk(c, k, es[i])
    decreases |es|
  {
    if |es| > 0 {
      var s := Step(c, k, es[0], attrs);
      if s.Ok? {
        PassOk(c, k, es[1..], s.value);
        assert forall i :: 1 <= i < |es| ==> es[i] == es[1..][i - 1];
      }
    }
  }

  /** A writer no entry of the pass calls keeps its state. */
  lemma {:induction false} PassKeeps(c: Class, k: Kind, es: seq<Entry>, attrs: Attrs, a: string)
    requires Pass(c, k, es, attrs).Ok?
    requires forall i :: 0 <= i < |es| ==> !Assigns(c, k, es[i], a)
    ensures a in Pass(c, k, es, attrs).value <==> a in attrs
    ensures a in attrs ==> Pass(c, k, es, attrs).value[a] == attrs[a]
    decreases |es|
  {
    if |es| > 0 {
      var next := Step(c, k, es[0], attrs).value;
      assert !Assigns(c, k, es[0], a);
      assert forall i :: 0 <= i < |es[1..]| ==> es[1..][i] == es[i + 1];
      PassKeeps(c, k, es[1..], next, a);
    }
  }

  /** The last entry of a pass that calls a writer decides its value. */
  lemma {:induction false} PassLast(c: Class, k: Kind, es: seq<Entry>, attrs: Attrs, a: string, i: nat)
    requires Pass(c, k, es, attrs).Ok?
    requires i < |es| && Assigns(c, k, es[i], a)
    requires forall j :: i < j < |es| ==> !Assigns(c, k, es[j], a)
    ensures a in Pass(c, k, es, attrs).value
    ensures Pass(c, k, es, attrs).value[a] == Assigned(k, es[i])
    decreases |es|
  {
    var next := Step(c, k, es[0], attrs).value;
    assert forall j :: 0 <= j < |es[1..]| ==> es[1..][j] == es[j + 1];
    if i == 0 {
      PassKeeps(c, k, es[1..], next, a);
    } else {
      PassLast(c, k, es[1..], next, a, i - 1);
    }
  }

  /** Whatever a pass holds for a writer was there before or was stored by
      one of its entries, through an existing writer. */
  lemma {:induction false} PassProvenance(c: Class, k: Kind, es: seq<Entry>, attrs: Attrs, a: string)
    requires Pass(c, k, es, attrs).Ok? && a in Pass(c, k, es, attrs).value
    ensures var r := Pass(c, k, es, attrs).value;
      (a in attrs && r[a] == attrs[a]) ||
      (a in c.accessors && exists j :: 0 <= j < |es| && Assigns(c, k, es[j], a) && r[a] == Assigned(k, es[j]))
    decreases |es|
  {
    if |es| > 0 {
      var r := Pass(c, k, es, attrs).value;
      var next := Step(c, k, es[0], attrs).value;
      PassProvenance(c, k, es[1..], next, a);
      if a in next && r[a] == next[a] {
        if Assigns(c, k, es[0], a) {
          assert 0 < |es| && Assigns(c, k, es[0], a) && r[a] == Assigned(k, es[0]);
        }
      } else {
        var j :| 0 <= j < |es[1..]| && Assigns(c, k, es[1..][j], a) && r[a] == Assigned(k, es[1..][j]);
        assert es[1..][j] == es[j + 1];
      }
    }
  }

  /** Entry `e` raises nothing in any pass. */
  predicate EntryOk(c: Class, e: Entry) {
    StepOk(c, Integer, e) && StepOk(c, Text, e) && StepOk(c, Float, e)
  }

  /** `initialize` raises exactly when `obj` has no `select` (it is neither
      a Hash nor an Array) or one of its entries raises. */
  lemma NewOk(c: Class, obj: Json)
    ensures New(c, obj).Ok? <==>
      (obj.Obj? || obj.Arr?) &&
      forall i :: 0 <= i < |Entries(obj).value| ==> EntryOk(c, Entries(obj).value[i])
  {
    if obj.Obj? || obj.Arr? {
      var es := Entries(obj).value;
      PassOk(c, Integer, es, map[]);
      if Pass(c, Integer, es, map[]).Ok? {
        var a1 := Pass(c, Integer, es, map[]).value;
        PassOk(c, Text, es, a1);
        if Pass(c, Text, es, a1).Ok? {
          PassOk(c, Float, es, Pass(c, Text, es, a1).value);
        }
      }
    }
  }

  /** Every attribute an object ends up with was stored by an entry whose
      key is a field of the attribute's own bucket, through a declared
      writer; keys in no bucket and absent fields set nothing. */
  lemma NewProvenance(c: Class, obj: Json, a: string)
    requires New(c, obj).Ok? && a in New(c, obj).value
    ensures a in c.accessors
    ensures var e, x := Entries(obj).value, New(c, obj).value[a];
      exists j :: 0 <= j < |e| && Assigns(c, KindOf(x), e[j], a) && x == Assigned(KindOf(x), e[j])
  {
    var es := Entries(obj).value;
    var a1 := Pass(c, Integer, es, map[]).value;
    var a2 := Pass(c, Text, es, a1).value;
    PassProvenance(c, Float, es, a2, a);
    if a in a2 && New(c, obj).value[a] == a2[a] {
      PassProvenance(c, Text, es, a1, a);
      if a in a1 && a2[a] == a1[a] {
        PassProvenance(c, Integer, es, map[], a);
      }
    }
  }

  /** Only declared writers are ever called successfully. */
  lemma NewDeclaredOnly(c: Class, obj: Json)
    requires New(c, obj).Ok?
    ensures New(c, obj).value.Keys <= c.accessors
  {
    forall a | a in New(c, obj).value
      ensures a in c.accessors
    {
      NewProvenance(c, obj, a);
    }
  }

  /** A class with an empty bucket never stores a value of that bucket's
      kind. */
  lemma NewEmptyBucket(c: Class, obj: Json, a: string, k: Kind)
    requires New(c, obj).Ok? && a in New(c, obj).value
    requires |Bucket(c.schema, k)| == 0
    ensures KindOf(New(c, obj).value[a]) != k
  {
    NewProvenance(c, obj, a);
  }

  /** No field name is in two buckets. */
  predicate Disjoint(s: Schema) {
    && (forall n :: n in s.integer ==> n !in s.text && n !in s.float)
    && (forall n :: n in s.text ==> n !in s.float)
  }

  /** No two field names share a snake_case writer. */
  predicate Unambiguous(s: Schema) {
    forall m, n :: m in AllNames(s) && n in AllNames(s) && Rubyize(m) == Rubyize(n) ==> m == n
  }

  /** Every field has a declared writer. */
  predicate Declared(c: Class) {
    forall n :: n in AllNames(c.schema) ==> Rubyize(n) in c.accessors
  }

  predicate WellFormed(c: Class) {
    Disjoint(c.schema) && Unambiguous(c.schema) && Declared(c)
  }

  lemma BucketInAll(s: Schema, k: Kind, n: string)
    requires n in Bucket(s, k)
    ensures n in AllNames(s)
  {
  }

  /** In a Hash with unique keys, only the member holding field `n` can call
      `n`'s writer, and only in `n`'s bucket. */
  lemma OnlyEntry(c: Class, fields: seq<(string, Json)>, i: nat, k: Kind, k2: Kind, j: nat)
    requires Disjoint(c.schema) && Unambiguous(c.schema) && UniqueKeys(fields)
    requires i < |fields| && fields[i].0 in Bucket(c.schema, k)
    requires j < |fields| && Assigns(c, k2, Entries(Obj(fields)).value[j], Rubyize(fields[i].0))
    ensures j == i && k2 == k
  {
    var m, n := fields[j].0, fields[i].0;
    assert Entries(Obj(fields)).value[j] == (Str(m), fields[j].1);
    BucketInAll(c.schema, k, n);
    BucketInAll(c.schema, k2, m);
    assert m == n;
  }

  /** With every field's writer called at most once, the pass of `k` alone
      decides the writer of a field in bucket `k`. */
  lemma NoneAssigns(c: Class, fields: seq<(string, Json)>, i: nat, k: Kind, k2: Kind)
    requires Disjoint(c.schema) && Unambiguous(c.schema) && UniqueKeys(fields)
    requires i < |fields| && fields[i].0 in Bucket(c.schema, k)
    requires k2 != k || Coerce(k, fields[i].1) == Ok(None)
    ensures forall j :: 0 <= j < |Entries(Obj(fields)).value| ==>
      !Assigns(c, k2, Entries(Obj(fields)).value[j], Rubyize(fields[i].0))
  {
    var es := Entries(Obj(fields)).value;
    assert es[i] == (Str(fields[i].0), fields[i].1);
    forall j | 0 <= j < |es|
      ensures !Assigns(c, k2, es[j], Rubyize(fields[i].0))
    {
      if Assigns(c, k2, es[j], Rubyize(fields[i].0)) {
        OnlyEntry(c, fields, i, k, k2, j);
      }
    }
  }

  lemma LaterNone(c: Class, fields: seq<(string, Json)>, i: nat, k: Kind)
    requires Disjoint(c.schema) && Unambiguous(c.schema) && UniqueKeys(fields)
    requires i < |fields| && fields[i].0 in Bucket(c.schema, k)
    ensures forall j :: i < j < |Entries(Obj(fields)).value| ==>
      !Assigns(c, k, Entries(Obj(fields)).value[j], Rubyize(fields[i].0))
  {
    var es := Entries(Obj(fields)).value;
    forall j | i < j < |es|
      ensures !Assigns(c, k, es[j], Rubyize(fields[i].0))
    {
      if Assigns(c, k, es[j], Rubyize(fields[i].0)) {
        OnlyEntry(c, fields, i, k, k, j);
      }
    }
  }

  /** The bucket semantics of `initialize` for a Hash with unique keys whose
      schema is disjoint and unambiguous: the writer of a field present in
      the Hash holds exactly the field's converted value, or is left unset
      when the guard (`if v`, `if v && !v.empty?`) skips it. */
  lemma NewField(c: Class, fields: seq<(string, Json)>, i: nat, k: Kind)
    requires Disjoint(c.schema) && Unambiguous(c.schema) && UniqueKeys(fields)
    requires New(c, Obj(fields)).Ok?
    requires i < |fields| && fields[i].0 in Bucket(c.schema, k)
    ensures Coerce(k, fields[i].1).Ok?
    ensures var r := New(c, Obj(fields)).value;
      var x := Coerce(k, fields[i].1).value;
      (Rubyize(fields[i].0) in r <==> x.Some?) &&
      (x.Some? ==> r[Rubyize(fields[i].0)] == x.value)
  {
    var es := Entries(Obj(fields)).value;
    var a := Rubyize(fields[i].0);
    assert es[i] == (Str(fields[i].0), fields[i].1);
    NewOk(c, Obj(fields));
    assert EntryOk(c, es[i]);
    var a1 := Pass(c, Integer, es, map[]).value;
    var a2 := Pass(c, Text, es, a1).value;
    if Coerce(k, fields[i].1).value.None? {
      NoneAssigns(c, fields, i, k, Integer);
      NoneAssigns(c, fields, i, k, Text);
      NoneAssigns(c, fields, i, k, Float);
      PassKeeps(c, Integer, es, map[], a);
      PassKeeps(c, Text, es, a1, a);
      PassKeeps(c, Float, es, a2, a);
    } else {
      LaterNone(c, fields, i, k);
      match k
      case Integer =>
        PassLast(c, Integer, es, map[], a, i);
        NoneAssigns(c, fields, i, k, Text);
        NoneAssigns(c, fields, i, k, Float);
        PassKeeps(c, Text, es, a1, a);
        PassKeeps(c, Float, es, a2, a);
      case Text =>
        NoneAssigns(c, fields, i, k, Integer);
        NoneAssigns(c, fields, i, k, Float);
        PassKeeps(c, Integer, es, map[], a);
        PassLast(c, Text, es, a1, a, i);
        PassKeeps(c, Float, es, a2, a);
      case Float =>
        NoneAssigns(c, fields, i, k, Integer);
        NoneAssigns(c, fields, i, k, Text);
        PassKeeps(c, Integer, es, map[], a);
        PassKeeps(c, Text, es, a1, a);
        PassLast(c, Float, es, a2, a, i);
    }
  }

  /** For a class whose every field has a writer, `initialize` of a Hash
      raises only on a value of the wrong type: a non-`nil` value that has
      no `to_i`/`to_f` in the integer and float buckets, or no `empty?` in
      the string bucket. */
  lemma NewOkDeclared(c: Class, fields: seq<(string, Json)>)
    requires Declared(c)
    ensures New(c, Obj(fields)).Ok? <==>
      forall i, k :: 0 <= i < |fields| && fields[i].0 in Bucket(c.schema, k) ==> Coerce(k, fields[i].1).Ok?
  {
    var es := Entries(Obj(fields)).value;
    NewOk(c, Obj(fields));
    forall i | 0 <= i < |fields|
      ensures EntryOk(c, es[i]) <==>
        forall k :: fields[i].0 in Bucket(c.schema, k) ==> Coerce(k, fields[i].1).Ok?
    {
      assert es[i] == (Str(fields[i].0), fields[i].1);
      forall k | fields[i].0 in Bucket(c.schema, k)
        ensures Rubyize(fields[i].0) in c.accessors
      {
        BucketInAll(c.schema, k, fields[i].0);
      }
      assert StepOk(c, Integer, es[i]) <== (fields[i].0 in c.schema.integer ==> Coerce(Integer, fields[i].1).Ok?);
      assert StepOk(c, Text, es[i]) <== (fields[i].0 in c.schema.text ==> Coerce(Text, fields[i].1).Ok?);
      assert StepOk(c, Float, es[i]) <== (fields[i].0 in c.schema.float ==> Coerce(Float, fields[i].1).Ok?);
    }
  }

  /** `self.new(item)` for each item, in order; the first error stops. */
  function NewAll(c: Class, items: seq<Json>): (r: Result<seq<Attrs>>)
    ensures r.Ok? <==> forall i :: 0 <= i < |items| ==> New(c, items[i]).Ok?
    ensures r.Ok? ==> |r.value| == |items|
    ensures r.Ok? ==> forall i :: 0 <= i < |items| ==> New(c, items[i]) == Ok(r.value[i])
  {
    if |items| == 0 then Ok([])
    else
      var head :- New(c, items[0]);
      var tail :- NewAll(c, items[1..]);
      assert forall i :: 1 <= i < |items| ==> items[i] == items[1..][i - 1];
      Ok([head] + tail)
  }

  /** `collection_key`: the class name without its module. */
  function CollectionKey(c: Class): string {
    Demodulize(c.name)
  }

  /** `array_parse(coll)`: `coll[collection_key].map { new }` when both
      `coll` and that member are truthy, and `[]` otherwise. */
  function ArrayParse(c: Class, coll: Json): (r: Result<seq<Attrs>>)
    ensures !Truthy(coll) ==> r == Ok([])
  {
    if !Truthy(coll) then Ok([])
    else
      var node :- Index(coll, CollectionKey(c));
      if !Truthy(node) then Ok([])
      else
        var items :- MapItems(node);
        NewAll(c, items)
  }

  /** A Hash without the collection key, or with a `nil` there, parses to
      no objects. */
  lemma ArrayParseMissing(c: Class, fields: seq<(string, Json)>)
    requires Lookup(fields, CollectionKey(c)).None? || Lookup(fields, CollectionKey(c)) == Some(Null)
    ensures ArrayParse(c, Obj(fields)) == Ok([])
  {
  }

  /** Otherwise an Array there parses to one object per element, in order. */
  lemma ArrayParseEach(c: Class, fields: seq<(string, Json)>, items: seq<Json>)
    requires Lookup(fields, CollectionKey(c)) == Some(Arr(items))
    ensures ArrayParse(c, Obj(fields)) == NewAll(c, items)
    ensures var r := ArrayParse(c, Obj(fields));
      r.Ok? ==> |r.value| == |items| && forall i :: 0 <= i < |items| ==> New(c, items[i]) == Ok(r.value[i])
  {
  }

  /** A single object sent where a collection is expected is not wrapped:
      `map` walks its members, so it yields one object per member. */
  lemma ArrayParseSingle(c: Class, fields: seq<(string, Json)>, members: seq<(string, Json)>)
    requires Lookup(fields, CollectionKey(c)) == Some(Obj(members)) && |members| > 0
    requires ArrayParse(c, Obj(fields)).Ok?
    ensures |ArrayParse(c, Obj(fields)).value| == |members|
  {
  }
}
