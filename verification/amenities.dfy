/** `Hotel::AMENITIES` and `Hotel.parse_amenities`: the vendor sends the
    amenities of a hotel as one integer whose bits select entries of a fixed
    table, and the client turns it back into the table's names. */
module Amenities {
  import opened Numbers
  import opened Values

  /** The table, in declaration order: entry `i` is bit `i`. */
  const Table: seq<(string, nat)> := [
    ("business_center", 1),
    ("fitness_center", 2),
    ("hot_tub", 4),
    ("internet_access", 8),
    ("kids_activities", 16),
    ("kitchen", 32),
    ("pets_allowed", 64),
    ("swimming_pool", 128),
    ("restaurant", 256),
    ("spa", 512),
    ("whirlpool_bath", 1024),
    ("breakfast", 2048),
    ("babysitting", 4096),
    ("jacuzzi", 8192),
    ("parking", 16384),
    ("room_service", 32768),
    ("accessible_path", 65536),
    ("accessible_bathroom", 131072),
    ("roll_in_shower", 262144),
    ("handicapped_parking", 524288),
    ("in_room_accessibility", 1048576),
    ("deaf_accessiblity", 2097152),
    ("braille_or_raised_signage", 4194304),
    ("free_airport_shuttle", 8388608),
    ("indoor_pool", 16777216),
    ("outdoor_pool", 33554432),
    ("extended_parking", 67108864),
    ("free_parking", 134217728)
  ]

  /** Bit `k` of `a` in two's complement (`a / 2` rounds down, like `>>`). */
  predicate Bit(a: int, k: nat)
    decreases k
  {
    if k == 0 then a % 2 == 1 else Bit(a / 2, k - 1)
  }

  /** Ruby's `Integer#&` with a non-negative right operand; the result is
      never negative because the right operand's high bits are all zero. */
  function BitAnd(a: int, b: nat): nat
    decreases b
  {
    if b == 0 then 0
    else 2 * BitAnd(a / 2, b / 2) + (if a % 2 == 1 && b % 2 == 1 then 1 else 0)
  }

  /** `a & 2**k` is `2**k` when bit `k` is set and `0` otherwise. */
  lemma {:induction false} BitAndPow2(a: int, k: nat)
    ensures BitAnd(a, Pow2(k)) == if Bit(a, k) then Pow2(k) else 0
    decreases k
  {
    if k > 0 {
      BitAndPow2(a / 2, k - 1);
      assert Pow2(k) / 2 == Pow2(k - 1) && Pow2(k) % 2 == 0;
    }
  }

  /** A table whose entry `i` is bit `i`, with no name twice. */
  predicate BitTable(t: seq<(string, nat)>) {
    && (forall i :: 0 <= i < |t| ==> t[i].1 == Pow2(i))
    && (forall i, j :: 0 <= i < j < |t| ==> t[i].0 != t[j].0)
  }

  /** `Table` is such a table, of 28 entries. */
  lemma TableIsBitTable()
    ensures |Table| == 28 && BitTable(Table)
  {
    TablePowers();
    TableNames();
  }

  lemma TableNames()
    ensures forall i, j :: 0 <= i < j < |Table| ==> Table[i].0 != Table[j].0
  {
  }

  lemma TablePowers()
    ensures |Table| == 28
    ensures forall i :: 0 <= i < |Table| ==> Table[i].1 == Pow2(i)
  {
    assert Table[0].1 == 1;
    assert forall i :: 0 < i < |Table| ==> Table[i].1 == 2 * Table[i - 1].1;
    Doubling(Table);
  }

  /** A table that starts at 1 and doubles from entry to entry holds the
      powers of two. */
  lemma Doubling(t: seq<(string, nat)>)
    requires |t| > 0 && t[0].1 == 1
    requires forall i :: 0 < i < |t| ==> t[i].1 == 2 * t[i - 1].1
    ensures forall i :: 0 <= i < |t| ==> t[i].1 == Pow2(i)
  {
    forall i | 0 <= i < |t|
      ensures t[i].1 == Pow2(i)
    {
      DoublingAt(t, i);
    }
  }

  lemma {:induction false} DoublingAt(t: seq<(string, nat)>, i: nat)
    requires |t| > 0 && t[0].1 == 1 && i < |t|
    requires forall i :: 0 < i < |t| ==> t[i].1 == 2 * t[i - 1].1
    ensures t[i].1 == Pow2(i)
  {
    if i > 0 {
      DoublingAt(t, i - 1);
    }
  }

  /** The names of the entries of `t` from `from` on that `(mask & bit) > 0`
      selects, in table order. */
  function SelectFrom(t: seq<(string, nat)>, mask: int, from: nat): (r: seq<string>)
    requires from <= |t|
    ensures |r| <= |t| - from
    decreases |t| - from
  {
    if from == |t| then []
    else
      var rest := SelectFrom(t, mask, from + 1);
      if BitAnd(mask, t[from].1) > 0 then [t[from].0] + rest else rest
  }

  /** A name is selected exactly when some entry from `from` on carries it
      and its bit is set in the mask. */
  lemma {:induction false} SelectFromMembers(t: seq<(string, nat)>, mask: int, from: nat)
    requires from <= |t|
    ensures forall n :: n in SelectFrom(t, mask, from) <==>
      exists i :: from <= i < |t| && t[i].0 == n && BitAnd(mask, t[i].1) > 0
    decreases |t| - from
  {
    if from < |t| {
      SelectFromMembers(t, mask, from + 1);
      var rest := SelectFrom(t, mask, from + 1);
      forall n | n in SelectFrom(t, mask, from)
        ensures exists i :: from <= i < |t| && t[i].0 == n && BitAnd(mask, t[i].1) > 0
      {
        if n !in rest {
          assert t[from].0 == n && BitAnd(mask, t[from].1) > 0;
        }
      }
      forall n, i | from <= i < |t| && t[i].0 == n && BitAnd(mask, t[i].1) > 0
        ensures n in SelectFrom(t, mask, from)
      {
        if i > from {
          assert n in rest;
        }
      }
    }
  }

  /** `parse_amenities(mask)` over the bit table `t`. An Integer mask
      selects names; `nil & x` and `false & x` are `false` and `true & x` is
      `true`, which have no `>`; a String or Hash has no `&`; an Array's `&`
      refuses an Integer. */
  function ParseAmenitiesIn(t: seq<(string, nat)>, mask: Json): (r: Result<seq<string>>)
    ensures mask.Int? <==> r.Ok?
  {
    match mask
    case Int(m) => Ok(SelectFrom(t, m, 0))
    case Null => Err(NoMethodError(">"))
    case Bool(_) => Err(NoMethodError(">"))
    case Arr(_) => Err(TypeError("no implicit conversion of Integer into Array"))
    case _ => Err(NoMethodError("&"))
  }

  /** `Hotel.parse_amenities(mask)`. */
  function ParseAmenities(mask: Json): (r: Result<seq<string>>)
    ensures mask.Int? <==> r.Ok?
    ensures mask.Null? || mask.Bool? ==> r == Err(NoMethodError(">"))
    ensures mask.Str? || mask.Obj? ==> r == Err(NoMethodError("&"))
    ensures mask.Arr? ==> r.Err? && r.fault.TypeError?
  {
    ParseAmenitiesIn(Table, mask)
  }

  /** Position of a name in `t` from `from` on (`|t|` when absent). */
  function Position(t: seq<(string, nat)>, n: string, from: nat): (p: nat)
    requires from <= |t|
    ensures from <= p <= |t|
    ensures p < |t| ==> t[p].0 == n
    decreases |t| - from
  {
    if from == |t| then |t|
    else if t[from].0 == n then from
    else Position(t, n, from + 1)
  }

  /** The first occurrence of a name is where the scan stops. */
  lemma {:induction false} PositionFrom(t: seq<(string, nat)>, n: string, from: nat, i: nat)
    requires from <= i < |t| && t[i].0 == n
    requires forall j :: from <= j < i ==> t[j].0 != n
    ensures Position(t, n, from) == i
    decreases i - from
  {
    if from < i {
      PositionFrom(t, n, from + 1, i);
    }
  }

  /** In a table of distinct names every name is found at its own index. */
  lemma PositionOf(t: seq<(string, nat)>, i: nat)
    requires BitTable(t) && i < |t|
    ensures Position(t, t[i].0, 0) == i
  {
    PositionFrom(t, t[i].0, 0, i);
  }

  /** The table positions of some names. */
  function Positions(t: seq<(string, nat)>, r: seq<string>): (ps: seq<nat>)
    ensures |ps| == |r|
    ensures forall x :: 0 <= x < |r| ==> ps[x] == Position(t, r[x], 0)
  {
    if |r| == 0 then [] else [Position(t, r[0], 0)] + Positions(t, r[1..])
  }

  predicate Increasing(ps: seq<nat>) {
    forall x, y :: 0 <= x < y < |ps| ==> ps[x] < ps[y]
  }

  /** A smaller first element keeps a list increasing. */
  lemma IncreasingCons(h: nat, ps: seq<nat>)
    requires Increasing(ps)
    requires forall x :: 0 <= x < |ps| ==> h < ps[x]
    ensures Increasing([h] + ps)
  {
    var r := [h] + ps;
    forall x, y | 0 <= x < y < |r|
      ensures r[x] < r[y]
    {
      assert r[y] == ps[y - 1];
      if x > 0 {
        assert r[x] == ps[x - 1];
      }
    }
  }

  /** Every name of `t` is found at its own index. */
  predicate Indexed(t: seq<(string, nat)>) {
    forall i :: 0 <= i < |t| ==> Position(t, t[i].0, 0) == i
  }

  lemma BitTableIndexed(t: seq<(string, nat)>)
    requires BitTable(t)
    ensures Indexed(t)
  {
    forall i | 0 <= i < |t|
      ensures Position(t, t[i].0, 0) == i
    {
      PositionOf(t, i);
    }
  }

  /** The names of `r` lie in `t` at or after `from`, in table order. */
  predicate OrderedFrom(t: seq<(string, nat)>, r: seq<string>, from: nat) {
    var ps := Positions(t, r);
    (forall x :: 0 <= x < |ps| ==> from <= ps[x] < |t|) && Increasing(ps)
  }

  /** The names selected from `from` on lie at or after `from`, in table
      order. */
  lemma {:induction false} SelectFromOrdered(t: seq<(string, nat)>, mask: int, from: nat)
    requires Indexed(t) && from <= |t|
    ensures OrderedFrom(t, SelectFrom(t, mask, from), from)
    decreases |t| - from
  {
    if from < |t| {
      SelectFromOrdered(t, mask, from + 1);
      var rest := SelectFrom(t, mask, from + 1);
      if BitAnd(mask, t[from].1) > 0 {
        assert SelectFrom(t, mask, from) == [t[from].0] + rest;
        OrderedTake(t, from, rest);
      } else {
        assert SelectFrom(t, mask, from) == rest;
        OrderedSkip(t, from, rest);
      }
    }
  }

  lemma OrderedSkip(t: seq<(string, nat)>, from: nat, r: seq<string>)
    requires OrderedFrom(t, r, from + 1)
    ensures OrderedFrom(t, r, from)
  {
  }

  lemma OrderedTake(t: seq<(string, nat)>, from: nat, rest: seq<string>)
    requires Indexed(t) && from < |t|
    requires OrderedFrom(t, rest, from + 1)
    ensures OrderedFrom(t, [t[from].0] + rest, from)
  {
    var r := [t[from].0] + rest;
    var ps := Positions(t, rest);
    assert r[0] == t[from].0 && r[1..] == rest;
    assert Position(t, t[from].0, 0) == from;
    assert Positions(t, r) == [from] + ps;
    IncreasingCons(from, ps);
  }

  /** The decoded list holds exactly the names whose bit is set in the mask,
      each once, in table order: for any bit table, and so (by
      `TableIsBitTable`) for `Table`. */
  lemma ParseAmenitiesSpec(t: seq<(string, nat)>, m: int)
    requires BitTable(t)
    ensures ParseAmenitiesIn(t, Int(m)).Ok?
    ensures var r := ParseAmenitiesIn(t, Int(m)).value;
      && (forall n :: n in r <==> exists i :: 0 <= i < |t| && t[i].0 == n && Bit(m, i))
      && (forall x, y :: 0 <= x < y < |r| ==> Position(t, r[x], 0) < Position(t, r[y], 0))
  {
    BitSelect(t, m);
    BitTableIndexed(t);
    SelectFromMembers(t, m, 0);
    SelectFromOrdered(t, m, 0);
    var ps := Positions(t, SelectFrom(t, m, 0));
    assert Increasing(ps);
  }

  lemma BitSelect(t: seq<(string, nat)>, m: int)
    requires BitTable(t)
    ensures forall i :: 0 <= i < |t| ==> (BitAnd(m, t[i].1) > 0 <==> Bit(m, i))
  {
    forall i | 0 <= i < |t|
      ensures BitAnd(m, t[i].1) > 0 <==> Bit(m, i)
    {
      BitAndPow2(m, i);
    }
  }

  /** The mask with bit `i` set exactly when `flags[i]` holds. */
  function FlagMask(flags: seq<bool>): nat {
    if |flags| == 0 then 0 else (if flags[0] then 1 else 0) + 2 * FlagMask(flags[1..])
  }

  lemma {:induction false} ZeroBits(k: nat)
    ensures !Bit(0, k)
  {
    if k > 0 {
      ZeroBits(k - 1);
    }
  }

  lemma {:induction false} FlagMaskBits(flags: seq<bool>, k: nat)
    ensures Bit(FlagMask(flags), k) <==> k < |flags| && flags[k]
  {
    if |flags| == 0 {
      ZeroBits(k);
    } else if k > 0 {
      FlagMaskBits(flags[1..], k - 1);
    }
  }

  /** The mask with the bit of every name of `t` that is in `names`. */
  function MaskIn(t: seq<(string, nat)>, names: set<string>): nat {
    FlagMask(seq(|t|, i requires 0 <= i < |t| => t[i].0 in names))
  }

  /** The mask the vendor would send for a set of amenity names. */
  function MaskOf(names: set<string>): nat {
    MaskIn(Table, names)
  }

  lemma MaskInSelect(t: seq<(string, nat)>, names: set<string>)
    requires BitTable(t)
    ensures forall n :: n in SelectFrom(t, MaskIn(t, names), 0) <==> n in names && Position(t, n, 0) < |t|
  {
    var m := MaskIn(t, names);
    BitSelect(t, m);
    BitTableIndexed(t);
    MaskInBits(t, names);
    assert forall i :: 0 <= i < |t| ==> (BitAnd(m, t[i].1) > 0 <==> t[i].0 in names);
    NamesOfBits(t, m, names);
  }

  lemma MaskInBits(t: seq<(string, nat)>, names: set<string>)
    ensures forall i :: 0 <= i < |t| ==> (Bit(MaskIn(t, names), i) <==> t[i].0 in names)
  {
    var flags := seq(|t|, i requires 0 <= i < |t| => t[i].0 in names);
    forall i | 0 <= i < |t|
      ensures Bit(MaskIn(t, names), i) <==> t[i].0 in names
    {
      FlagMaskBits(flags, i);
    }
  }

  /** Names selected by the bits of `names` are the table names in `names`. */
  lemma NamesOfBits(t: seq<(string, nat)>, m: int, names: set<string>)
    requires Indexed(t)
    requires forall i :: 0 <= i < |t| ==> (BitAnd(m, t[i].1) > 0 <==> t[i].0 in names)
    ensures forall n :: n in SelectFrom(t, m, 0) <==> n in names && Position(t, n, 0) < |t|
  {
    var r := SelectFrom(t, m, 0);
    SelectFromMembers(t, m, 0);
    forall n
      ensures n in r <==> n in names && Position(t, n, 0) < |t|
    {
      if n in names && Position(t, n, 0) < |t| {
        var i := Position(t, n, 0);
        assert t[i].0 == n && BitAnd(m, t[i].1) > 0;
      }
      if n in r {
        var i :| 0 <= i < |t| && t[i].0 == n && BitAnd(m, t[i].1) > 0;
        assert Position(t, t[i].0, 0) == i;
      }
    }
  }

  /** Decoding the mask of a set of names gives back exactly the table names
      in that set. */
  lemma MaskRoundTrip(names: set<string>)
    ensures ParseAmenities(Int(MaskOf(names))).Ok?
    ensures forall n :: n in ParseAmenities(Int(MaskOf(names))).value <==> n in names && Position(Table, n, 0) < |Table|
  {
    assert ParseAmenities(Int(MaskOf(names))) == Ok(SelectFrom(Table, MaskIn(Table, names), 0));
    TableIsBitTable();
    MaskInSelect(Table, names);
  }

  lemma {:induction false} MinusOneBits(k: nat)
    ensures Bit(-1, k)
  {
    if k > 0 {
      MinusOneBits(k - 1);
    }
  }

  /** The names of a table, in order. */
  function Names(t: seq<(string, nat)>): (r: seq<string>)
    ensures |r| == |t| && forall i :: 0 <= i < |t| ==> r[i] == t[i].0
  {
    if |t| == 0 then [] else [t[0].0] + Names(t[1..])
  }

  /** With every bit set, every entry from `from` on is selected. */
  lemma {:induction false} SelectAll(t: seq<(string, nat)>, m: int, from: nat)
    requires BitTable(t) && from <= |t|
    requires forall k :: from <= k < |t| ==> Bit(m, k)
    ensures SelectFrom(t, m, from) == Names(t[from..])
    decreases |t| - from
  {
    if from < |t| {
      BitAndPow2(m, from);
      SelectAll(t, m, from + 1);
      assert t[from..][1..] == t[from + 1..];
    }
  }

  /** With no bit set from `from` on, nothing more is selected. */
  lemma {:induction false} SelectNone(t: seq<(string, nat)>, m: int, from: nat)
    requires BitTable(t) && from <= |t|
    requires forall k :: from <= k < |t| ==> !Bit(m, k)
    ensures SelectFrom(t, m, from) == []
    decreases |t| - from
  {
    if from < |t| {
      BitAndPow2(m, from);
      SelectNone(t, m, from + 1);
    }
  }

  /** Mask 0 decodes to no amenities. */
  lemma MaskZero()
    ensures ParseAmenities(Int(0)) == Ok([])
  {
    TableIsBitTable();
    forall k | 0 <= k < |Table|
      ensures !Bit(0, k)
    {
      ZeroBits(k);
    }
    SelectNone(Table, 0, 0);
  }

  /** A mask with all 28 table bits set, such as -1, decodes to the whole
      table, in table order. */
  lemma MaskAll(m: int)
    requires forall k :: 0 <= k < |Table| ==> Bit(m, k)
    ensures ParseAmenities(Int(m)) == Ok(Names(Table))
  {
    var t := Table;
    assert ParseAmenities(Int(m)) == Ok(SelectFrom(t, m, 0));
    TableIsBitTable();
    SelectAll(Table, m, 0);
    assert Table[0..] == Table;
  }

  /** A mask whose only table bits are 2 and 3, such as 12, decodes to the
      hot tub and internet access. */
  lemma MaskTwelve(m: int)
    requires forall k :: 0 <= k < |Table| ==> (Bit(m, k) <==> k == 2 || k == 3)
    ensures ParseAmenities(Int(m)) == Ok(["hot_tub", "internet_access"])
  {
    var t := Table;
    assert ParseAmenities(Int(m)) == Ok(SelectFrom(t, m, 0));
    TableIsBitTable();
    SelectBitsTwoThree(t, m);
    HotTubAndInternet();
  }

  lemma HotTubAndInternet()
    ensures Table[2].0 == "hot_tub" && Table[3].0 == "internet_access"
  {
  }

  lemma SelectBitsTwoThree(t: seq<(string, nat)>, m: int)
    requires BitTable(t) && |t| >= 4
    requires forall k :: 0 <= k < |t| ==> (Bit(m, k) <==> k == 2 || k == 3)
    ensures SelectFrom(t, m, 0) == [t[2].0, t[3].0]
  {
    SelectNone(t, m, 4);
    BitSelect(t, m);
    assert SelectFrom(t, m, 3) == [t[3].0];
    assert SelectFrom(t, m, 2) == [t[2].0, t[3].0];
  }

  /** -1 and 12 have those bits. */
  lemma ConcreteMasks()
    ensures forall k :: 0 <= k < |Table| ==> Bit(-1, k)
    ensures forall k :: 0 <= k < |Table| ==> (Bit(12, k) <==> k == 2 || k == 3)
  {
    TablePowers();
    forall k | 0 <= k < |Table|
      ensures Bit(-1, k)
      ensures Bit(12, k) <==> k == 2 || k == 3
    {
      MinusOneBits(k);
      if k >= 4 {
        ZeroBits(k - 4);
        assert Bit(12, k) == Bit(6, k - 1) == Bit(3, k - 2) == Bit(1, k - 3) == Bit(0, k - 4);
      }
    }
  }
}
