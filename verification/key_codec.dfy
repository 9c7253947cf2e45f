/** The key codec of `Suitcase::Utils`: `eanize_key` (ActiveSupport
    `camelize`) turns the client's snake_case names into the vendor's wire
    keys, `rubyize_key` (ActiveSupport `underscore`) turns them back, and
    `demodulize` strips a class name's module prefix. */
module KeyCodec {
  import opened Strings
  import opened Numbers

  /** The `gsub` step of `camelize`: every `_` is dropped and the character
      after it upper-cased. `capNext` says an `_` (or the start of an
      upper-camel key) was just read. */
  function CamelFrom(s: string, capNext: bool): (r: string)
    ensures |r| <= |s|
  {
    if |s| == 0 then ""
    else if s[0] == '_' then CamelFrom(s[1..], true)
    else [if capNext then ToUpper(s[0]) else s[0]] + CamelFrom(s[1..], false)
  }

  function DowncaseFirst(s: string): string {
    if |s| == 0 then s else [ToLower(s[0])] + s[1..]
  }

  /** `camelize(:upper)` when `upper`, else `camelize(:lower)`. */
  function Camelize(s: string, upper: bool): string {
    if upper then CamelFrom(s, true) else CamelFrom(DowncaseFirst(s), false)
  }

  /** `eanize_key(key, style)`: `"upper"` gives UpperCamel, `"at"` gives `@`
      followed by lowerCamel, and every other style gives lowerCamel. */
  function Eanize(key: string, style: string): (r: string)
    ensures style == "upper" ==> r == Camelize(key, true)
    ensures style == "at" ==> r == "@" + Camelize(key, false)
    ensures style != "upper" && style != "at" ==> r == Camelize(key, false)
  {
    if style == "upper" then Camelize(key, true)
    else if style == "at" then "@" + Camelize(key, false)
    else Camelize(key, false)
  }

  /** `eanize_key` with its default style. */
  function EanizeLower(key: string): string {
    Eanize(key, "lower")
  }

  /** The character map of `underscore` apart from inserted underscores:
      `tr("-", "_")` and `downcase`. */
  function UnderscoreChar(c: char): char {
    if c == '-' then '_' else ToLower(c)
  }

  /** `underscore`: an upper-case letter right after a lower-case letter or
      a digit gets an `_` before it; everything is then down-cased.
      `prev` says the previous character was a lower-case letter or digit. */
  function UnderscoreFrom(s: string, prev: bool): (r: string)
    ensures |r| >= |s|
  {
    if |s| == 0 then ""
    else UnderscoreStep(s[0], prev) + UnderscoreFrom(s[1..], IsLower(s[0]) || IsDigit(s[0]))
  }

  /** What `underscore` makes of one character. */
  function UnderscoreStep(c: char, prev: bool): string {
    if IsUpper(c) && prev then ['_', ToLower(c)] else [UnderscoreChar(c)]
  }

  /** `rubyize_key`. */
  function Rubyize(key: string): string {
    UnderscoreFrom(key, false)
  }

  predicate SnakeChar(c: char) {
    IsLower(c) || IsDigit(c) || c == '_'
  }

  /** Every `_` is followed by a lower-case letter, and no word between two
      underscores is a single character. */
  predicate UnderscoresSeparateWords(t: string) {
    forall i :: 0 <= i < |t| && t[i] == '_' ==>
      i + 1 < |t| && IsLower(t[i + 1]) && (i + 2 < |t| ==> t[i + 2] != '_')
  }

  /** A plain snake_case key such as `hotel_image_id`: lower-case words of
      letters and digits, each word starting with a letter, joined by single
      underscores, every word but the last at least two characters long. */
  predicate SnakeKey(k: string) {
    && |k| >= 1
    && IsLower(k[0])
    && (|k| > 1 ==> k[1] != '_')
    && (forall i :: 0 <= i < |k| ==> SnakeChar(k[i]))
    && UnderscoresSeparateWords(k)
  }

  predicate CamelChar(c: char) {
    IsLower(c) || IsUpper(c) || IsDigit(c)
  }

  /** Every upper-case letter follows a lower-case letter or a digit. */
  predicate HumpsFollowLowers(t: string) {
    forall i :: 1 <= i < |t| && IsUpper(t[i]) ==> IsLower(t[i - 1]) || IsDigit(t[i - 1])
  }

  /** A camel-case wire key such as `hotelImageId` (or `HotelSummary` when
      `upper`): letters and digits, no two upper-case letters in a row. */
  predicate CamelKey(w: string, upper: bool) {
    && |w| >= 1
    && (if upper then IsUpper(w[0]) else IsLower(w[0]))
    && (forall i :: 0 <= i < |w| ==> CamelChar(w[i]))
    && HumpsFollowLowers(w)
  }

  lemma {:induction false} SnakeTailRoundTrip(t: string, prev: bool)
    requires forall i :: 0 <= i < |t| ==> SnakeChar(t[i])
    requires UnderscoresSeparateWords(t)
    requires |t| > 0 && t[0] == '_' ==> prev
    ensures UnderscoreFrom(CamelFrom(t, false), prev) == t
  {
    if |t| == 0 {
    } else if t[0] == '_' {
      SnakeTailRest(t);
      SnakeTailRoundTrip(t[2..], false);
      UnderscoreHump(t, prev);
    } else {
      SnakeTailNext(t);
      SnakeTailRoundTrip(t[1..], true);
      UnderscoreLetter(t, prev);
    }
  }

  /** One `_x` of a snake key: `camelize` makes it `X` and `underscore`
      turns that back into `_x`. */
  lemma UnderscoreHump(t: string, prev: bool)
    requires |t| >= 2 && t[0] == '_' && IsLower(t[1]) && prev
    requires |t| > 2 ==> t[2] != '_'
    ensures UnderscoreFrom(CamelFrom(t, false), prev)
         == ['_', t[1]] + UnderscoreFrom(CamelFrom(t[2..], false), false)
    ensures UnderscoreFrom(CamelFrom(t[2..], false), false) == t[2..] ==>
              UnderscoreFrom(CamelFrom(t, false), prev) == t
  {
    var rest := t[2..];
    assert t[1..][0] == t[1] && t[1..][1..] == rest;
    var u := [ToUpper(t[1])] + CamelFrom(rest, false);
    assert CamelFrom(t, false) == CamelFrom(t[1..], true) == u;
    assert u[0] == ToUpper(t[1]) && u[1..] == CamelFrom(rest, false);
    CaseRoundTrip(t[1]);
    assert UnderscoreStep(u[0], prev) == ['_', t[1]];
    assert UnderscoreFrom(u, prev) == ['_', t[1]] + UnderscoreFrom(u[1..], false);
    HeadTwo(t);
  }

  /** A letter or digit of a snake key passes both ways unchanged. */
  lemma UnderscoreLetter(t: string, prev: bool)
    requires |t| >= 1 && t[0] != '_' && SnakeChar(t[0])
    ensures UnderscoreFrom(CamelFrom(t, false), prev)
         == [t[0]] + UnderscoreFrom(CamelFrom(t[1..], false), true)
    ensures UnderscoreFrom(CamelFrom(t[1..], false), true) == t[1..] ==>
              UnderscoreFrom(CamelFrom(t, false), prev) == t
  {
    var u := [t[0]] + CamelFrom(t[1..], false);
    assert CamelFrom(t, false) == u;
    assert u[0] == t[0] && u[1..] == CamelFrom(t[1..], false);
    assert UnderscoreStep(t[0], prev) == [t[0]];
    assert UnderscoreFrom(u, prev) == [t[0]] + UnderscoreFrom(u[1..], true);
    HeadTail(t);
  }

  lemma SnakeTailNext(t: string)
    requires |t| > 0 && t[0] != '_'
    requires forall i :: 0 <= i < |t| ==> SnakeChar(t[i])
    requires UnderscoresSeparateWords(t)
    ensures forall i :: 0 <= i < |t[1..]| ==> SnakeChar(t[1..][i])
    ensures UnderscoresSeparateWords(t[1..])
  {
    var rest := t[1..];
    forall i | 0 <= i < |rest| && rest[i] == '_'
      ensures i + 1 < |rest| && IsLower(rest[i + 1]) && (i + 2 < |rest| ==> rest[i + 2] != '_')
    {
      assert t[i + 1] == '_';
    }
  }

  lemma SnakeTailRest(t: string)
    requires |t| > 0 && t[0] == '_'
    requires forall i :: 0 <= i < |t| ==> SnakeChar(t[i])
    requires UnderscoresSeparateWords(t)
    ensures |t| >= 2
    ensures forall i :: 0 <= i < |t[2..]| ==> SnakeChar(t[2..][i])
    ensures UnderscoresSeparateWords(t[2..])
    ensures |t[2..]| > 0 ==> t[2..][0] != '_'
  {
    var rest := t[2..];
    forall i | 0 <= i < |rest| && rest[i] == '_'
      ensures i + 1 < |rest| && IsLower(rest[i + 1]) && (i + 2 < |rest| ==> rest[i + 2] != '_')
    {
      assert t[i + 2] == '_';
    }
  }

  /** `rubyize_key(eanize_key(k))` is `k` for every plain snake_case key. */
  lemma LowerRoundTrip(k: string)
    requires SnakeKey(k)
    ensures Rubyize(EanizeLower(k)) == k
  {
    assert DowncaseFirst(k) == k;
    SnakeTailRoundTrip(k, false);
  }

  /** The same round trip through the UpperCamel element names. */
  lemma UpperRoundTrip(k: string)
    requires SnakeKey(k)
    ensures Rubyize(Eanize(k, "upper")) == k
  {
    var tail := k[1..];
    var c := CamelFrom(k, true);
    assert Eanize(k, "upper") == c;
    assert c == [ToUpper(k[0])] + CamelFrom(tail, false);
    assert c[0] == ToUpper(k[0]) && c[1..] == CamelFrom(tail, false);
    CaseRoundTrip(k[0]);
    assert UnderscoreStep(c[0], false) == [k[0]];
    assert Rubyize(c) == [k[0]] + UnderscoreFrom(c[1..], false);
    assert forall i :: 0 <= i < |tail| && tail[i] == '_' ==> k[i + 1] == '_';
    assert |tail| > 0 ==> tail[0] != '_';
    SnakeTailRoundTrip(tail, false);
    HeadTail(k);
  }

  /** `rubyize_key` keeps the `@` of an at-style key: it does not undo it. */
  lemma AtKeepsPrefix(k: string)
    requires SnakeKey(k)
    ensures Rubyize(Eanize(k, "at")) == "@" + k
  {
    var c := "@" + Camelize(k, false);
    assert c[0] == '@' && c[1..] == Camelize(k, false);
    LowerRoundTrip(k);
  }

  lemma {:induction false} CamelTailRoundTrip(t: string, prev: bool)
    requires forall i :: 0 <= i < |t| ==> CamelChar(t[i])
    requires HumpsFollowLowers(t)
    requires |t| > 0 && IsUpper(t[0]) ==> prev
    ensures CamelFrom(UnderscoreFrom(t, prev), false) == t
  {
    if |t| > 0 {
      CamelTailNext(t);
      CamelTailRoundTrip(t[1..], IsLower(t[0]) || IsDigit(t[0]));
      if IsUpper(t[0]) {
        CamelHump(t, prev);
      } else {
        CamelLetter(t, prev);
      }
    }
  }

  lemma CamelTailNext(t: string)
    requires |t| > 0
    requires forall i :: 0 <= i < |t| ==> CamelChar(t[i])
    requires HumpsFollowLowers(t)
    ensures forall i :: 0 <= i < |t[1..]| ==> CamelChar(t[1..][i])
    ensures HumpsFollowLowers(t[1..])
    ensures |t| > 1 && IsUpper(t[1]) ==> IsLower(t[0]) || IsDigit(t[0])
  {
    var rest := t[1..];
    forall i | 1 <= i < |rest| && IsUpper(rest[i])
      ensures IsLower(rest[i - 1]) || IsDigit(rest[i - 1])
    {
      assert rest[i] == t[i + 1] && rest[i - 1] == t[i];
    }
  }

  /** An upper-case hump: `underscore` makes it `_x` and `camelize` turns
      that back. */
  lemma CamelHump(t: string, prev: bool)
    requires |t| > 0 && IsUpper(t[0]) && prev
    ensures CamelFrom(UnderscoreFrom(t[1..], false), false) == t[1..] ==>
              CamelFrom(UnderscoreFrom(t, prev), false) == t
  {
    var rest := UnderscoreFrom(t[1..], false);
    var u := ['_', ToLower(t[0])] + rest;
    assert UnderscoreFrom(t, prev) == u;
    assert u[0] == '_' && u[1..] == [ToLower(t[0])] + rest;
    var v := [ToLower(t[0])] + rest;
    assert v[0] == ToLower(t[0]) && v[1..] == rest;
    CaseRoundTrip(t[0]);
    assert CamelFrom(u, false) == [t[0]] + CamelFrom(rest, false);
    HeadTail(t);
  }

  /** A lower-case letter or digit passes both ways unchanged. */
  lemma CamelLetter(t: string, prev: bool)
    requires |t| > 0 && CamelChar(t[0]) && !IsUpper(t[0])
    ensures CamelFrom(UnderscoreFrom(t[1..], true), false) == t[1..] ==>
              CamelFrom(UnderscoreFrom(t, prev), false) == t
  {
    var u := [t[0]] + UnderscoreFrom(t[1..], true);
    assert UnderscoreFrom(t, prev) == u;
    assert u[0] == t[0] && u[1..] == UnderscoreFrom(t[1..], true);
    assert CamelFrom(u, false) == [t[0]] + CamelFrom(u[1..], false);
    HeadTail(t);
  }

  /** `eanize_key(rubyize_key(w))` is `w` for every lowerCamel wire key. */
  lemma LowerCamelRoundTrip(w: string)
    requires CamelKey(w, false)
    ensures EanizeLower(Rubyize(w)) == w
  {
    var u := Rubyize(w);
    assert u == [w[0]] + UnderscoreFrom(w[1..], true);
    assert DowncaseFirst(u) == u;
    assert u[0] == w[0] && u[1..] == UnderscoreFrom(w[1..], true);
    CamelTailRoundTrip(w[1..], true);
    HeadTail(w);
  }

  /** `eanize_key(rubyize_key(w), "upper")` is `w` for every UpperCamel key. */
  lemma UpperCamelRoundTrip(w: string)
    requires CamelKey(w, true)
    ensures Eanize(Rubyize(w), "upper") == w
  {
    var u := Rubyize(w);
    assert u == [ToLower(w[0])] + UnderscoreFrom(w[1..], false);
    assert u[0] == ToLower(w[0]) && u[1..] == UnderscoreFrom(w[1..], false);
    assert |w| > 1 ==> !IsUpper(w[1]);
    CamelTailRoundTrip(w[1..], false);
    HeadTail(w);
  }

  /** A word of a compound key: lower-case letters and digits, starting with
      a letter, at least two characters long (so that `underscore` can tell
      where it ends). */
  predicate WordOk(w: string) {
    |w| >= 2 && IsLower(w[0]) && forall i :: 0 <= i < |w| ==> IsLower(w[i]) || IsDigit(w[i])
  }

  predicate WordsOk(ws: seq<string>) {
    |ws| >= 1 && forall i :: 0 <= i < |ws| ==> WordOk(ws[i])
  }

  function Capitalize(w: string): string {
    if |w| == 0 then w else [ToUpper(w[0])] + w[1..]
  }

  function CamelTail(ws: seq<string>): string {
    if |ws| == 0 then "" else Capitalize(ws[0]) + CamelTail(ws[1..])
  }

  /** The lowerCamel key made of some words: `["hotel", "id"]` is `hotelId`. */
  function CamelWords(ws: seq<string>): string {
    if |ws| == 0 then "" else ws[0] + CamelTail(ws[1..])
  }

  function SnakeTail(ws: seq<string>): string {
    if |ws| == 0 then "" else "_" + ws[0] + SnakeTail(ws[1..])
  }

  /** Whether `underscore` sees a lower-case letter or digit last. */
  function After(a: string, prev: bool): bool {
    if |a| == 0 then prev else IsLower(a[|a| - 1]) || IsDigit(a[|a| - 1])
  }

  lemma {:induction false} UnderscoreConcat(a: string, b: string, prev: bool)
    ensures UnderscoreFrom(a + b, prev) == UnderscoreFrom(a, prev) + UnderscoreFrom(b, After(a, prev))
  {
    if |a| == 0 {
      assert a + b == b;
    } else {
      var ab := a + b;
      var c := a[0];
      var next := IsLower(c) || IsDigit(c);
      var head := UnderscoreStep(c, prev);
      assert ab[0] == c && ab[1..] == a[1..] + b;
      assert UnderscoreFrom(ab, prev) == head + UnderscoreFrom(a[1..] + b, next);
      assert UnderscoreFrom(a, prev) == head + UnderscoreFrom(a[1..], next);
      UnderscoreConcat(a[1..], b, next);
      AfterTail(a, prev);
      ConcatAssoc(head, UnderscoreFrom(a[1..], next), UnderscoreFrom(b, After(a, prev)));
    }
  }

  lemma AfterTail(a: string, prev: bool)
    requires |a| > 0
    ensures After(a[1..], IsLower(a[0]) || IsDigit(a[0])) == After(a, prev)
  {
    if |a| > 1 {
      assert a[1..][|a[1..]| - 1] == a[|a| - 1];
    }
  }

  /** A run of lower-case letters and digits passes `underscore` unchanged. */
  lemma {:induction false} UnderscorePlain(w: string, prev: bool)
    requires forall i :: 0 <= i < |w| ==> IsLower(w[i]) || IsDigit(w[i])
    ensures UnderscoreFrom(w, prev) == w
  {
    if |w| > 0 {
      UnderscorePlain(w[1..], IsLower(w[0]) || IsDigit(w[0]));
      HeadTail(w);
    }
  }

  /** A capitalised word after a lower-case letter gets its `_` back. */
  lemma UnderscoreCapitalized(w: string)
    requires WordOk(w)
    ensures UnderscoreFrom(Capitalize(w), true) == "_" + w
    ensures After(Capitalize(w), true)
  {
    var u, tail := ToUpper(w[0]), w[1..];
    var cw := Capitalize(w);
    assert cw == [u] + tail;
    assert cw[0] == u && cw[1..] == tail;
    CaseRoundTrip(w[0]);
    assert UnderscoreStep(u, true) == ['_', w[0]];
    forall i | 0 <= i < |tail|
      ensures IsLower(tail[i]) || IsDigit(tail[i])
    {
      assert tail[i] == w[i + 1];
    }
    UnderscorePlain(tail, false);
    assert UnderscoreFrom(cw, true) == ['_', w[0]] + tail;
    HeadTail(w);
    ConcatAssoc("_", [w[0]], tail);
    assert "_" + [w[0]] == ['_', w[0]];
    var last := |w| - 1;
    assert cw[last] == w[last] && (IsLower(w[last]) || IsDigit(w[last]));
  }

  lemma {:induction false} SnakeTailOfCamelTail(ws: seq<string>)
    requires forall i :: 0 <= i < |ws| ==> WordOk(ws[i])
    ensures UnderscoreFrom(CamelTail(ws), true) == SnakeTail(ws)
  {
    if |ws| > 0 {
      var cw := Capitalize(ws[0]);
      SnakeTailOfCamelTail(ws[1..]);
      UnderscoreConcat(cw, CamelTail(ws[1..]), true);
      UnderscoreCapitalized(ws[0]);
      assert CamelTail(ws) == cw + CamelTail(ws[1..]);
      ConcatAssoc("_", ws[0], SnakeTail(ws[1..]));
    }
  }

  lemma {:induction false} JoinSnake(ws: seq<string>)
    requires |ws| >= 1
    ensures Join(ws, "_") == ws[0] + SnakeTail(ws[1..])
  {
    if |ws| > 1 {
      JoinSnake(ws[1..]);
    }
  }

  /** `rubyize_key` of a lowerCamel key made of words is the words joined by
      `_`: `hotelId` gives `hotel_id`. */
  lemma RubyizeCamelWords(ws: seq<string>)
    requires WordsOk(ws)
    ensures Rubyize(CamelWords(ws)) == Join(ws, "_")
  {
    UnderscoreConcat(ws[0], CamelTail(ws[1..]), false);
    UnderscorePlain(ws[0], false);
    SnakeTailOfCamelTail(ws[1..]);
    JoinSnake(ws);
  }

  /** A character of a word: a lower-case letter or a digit. Giving the
      schema tables' words this type makes Dafny check each letter once,
      where the literal is written. */
  type WordChar = c: char | IsLower(c) || IsDigit(c) witness 'a'

  /** A word as `WordOk` describes it. */
  type Word = w: seq<WordChar> | |w| >= 2 && IsLower(w[0]) witness "ab"

  lemma WordsTyped(ws: seq<Word>)
    requires |ws| >= 1
    ensures WordsOk(ws)
  {
  }

  /** `rubyize_key` of a compound wire key made of typed words. */
  lemma RubyizeWords(ws: seq<Word>)
    requires |ws| >= 1
    ensures Rubyize(CamelWords(ws)) == Join(ws, "_")
  {
    WordsTyped(ws);
    RubyizeCamelWords(ws);
  }

  /** Two compound keys with the same snake_case form are the same key. */
  lemma RubyizeWordsInjective(a: seq<Word>, b: seq<Word>)
    requires |a| >= 1 && |b| >= 1
    requires Rubyize(CamelWords(a)) == Rubyize(CamelWords(b))
    ensures a == b
  {
    RubyizeWords(a);
    RubyizeWords(b);
    forall i | 0 <= i < |a| ensures '_' !in a[i] {
      assert forall j :: 0 <= j < |a[i]| ==> IsLower(a[i][j]) || IsDigit(a[i][j]);
    }
    forall i | 0 <= i < |b| ensures '_' !in b[i] {
      assert forall j :: 0 <= j < |b[i]| ==> IsLower(b[i][j]) || IsDigit(b[i][j]);
    }
    SplitJoin(a, '_');
    SplitJoin(b, '_');
  }

  /** `camelize` keeps a run without underscores as it is. */
  lemma {:induction false} CamelPlain(w: string, t: string)
    requires '_' !in w
    ensures CamelFrom(w + t, false) == w + CamelFrom(t, false)
  {
    if |w| > 0 {
      var wt := w + t;
      assert wt[0] == w[0] && wt[1..] == w[1..] + t;
      assert '_' !in w[1..] by {
        forall c | c in w[1..] ensures c != '_' {
          assert c in w;
        }
      }
      CamelPlain(w[1..], t);
      HeadTail(w);
      ConcatAssoc([w[0]], w[1..], CamelFrom(t, false));
    } else {
      assert w + t == t;
    }
  }

  /** `camelize` turns `_word` into `Word`. */
  lemma CamelHumpWord(w: Word, t: string)
    ensures CamelFrom("_" + w + t, false) == Capitalize(w) + CamelFrom(t, false)
  {
    var s := "_" + w + t;
    assert s[0] == '_' && s[1..] == w + t;
    var wt := w + t;
    assert wt[0] == w[0] && wt[1..] == w[1..] + t;
    assert '_' !in w[1..] by {
      forall c | c in w[1..] ensures c != '_' {
        var j :| 0 <= j < |w[1..]| && w[1..][j] == c;
        assert c == w[j + 1];
      }
    }
    CamelPlain(w[1..], t);
    ConcatAssoc([ToUpper(w[0])], w[1..], CamelFrom(t, false));
  }

  lemma {:induction false} CamelOfSnakeTail(ws: seq<Word>)
    ensures CamelFrom(SnakeTail(ws), false) == CamelTail(ws)
  {
    if |ws| > 0 {
      var rest := SnakeTail(ws[1..]);
      assert SnakeTail(ws) == "_" + ws[0] + rest;
      CamelHumpWord(ws[0], rest);
      CamelOfSnakeTail(ws[1..]);
    }
  }

  /** `eanize_key` of a snake_case name made of typed words is the lowerCamel
      key of the same words: `hotel_image_id` gives `hotelImageId`. */
  lemma EanizeWords(ws: seq<Word>)
    requires |ws| >= 1
    ensures EanizeLower(Join(ws, "_")) == CamelWords(ws)
  {
    var k := Join(ws, "_");
    JoinSnake(ws);
    var w := ws[0];
    assert k[0] == w[0];
    assert DowncaseFirst(k) == k by {
      HeadTail(k);
    }
    assert '_' !in w by {
      forall c | c in w ensures c != '_' {
        var j :| 0 <= j < |w| && w[j] == c;
      }
    }
    CamelPlain(w, SnakeTail(ws[1..]));
    CamelOfSnakeTail(ws[1..]);
  }

  /** True when `s` contains `::`. */
  predicate HasScope(s: string) {
    exists i :: 0 <= i < |s| - 1 && s[i] == ':' && s[i + 1] == ':'
  }

  /** `demodulize`: what follows the last `::`, or the whole name. */
  function Demodulize(path: string): (r: string)
    ensures |r| <= |path| && path[|path| - |r|..] == r
    ensures |r| > 0 ==> r[|r| - 1] == path[|path| - 1]
  {
    if |path| == 0 then ""
    else if |path| >= 2 && path[|path| - 2] == ':' && path[|path| - 1] == ':' then ""
    else Demodulize(path[..|path| - 1]) + [path[|path| - 1]]
  }

  /** The demodulized name holds no `::`. */
  lemma {:induction false} DemodulizeUnscoped(path: string)
    ensures !HasScope(Demodulize(path))
  {
    if |path| > 0 && !(|path| >= 2 && path[|path| - 2] == ':' && path[|path| - 1] == ':') {
      var p := path[..|path| - 1];
      DemodulizeUnscoped(p);
      var d, c := Demodulize(p), path[|path| - 1];
      assert Demodulize(path) == d + [c];
      if |d| > 0 {
        assert d[|d| - 1] == p[|p| - 1] == path[|path| - 2];
      }
      NoScopeSnoc(d, c);
    }
  }

  /** Adding a character makes a `::` only next to a trailing `:`. */
  lemma NoScopeSnoc(d: string, c: char)
    requires !HasScope(d)
    requires |d| > 0 ==> !(d[|d| - 1] == ':' && c == ':')
    ensures !HasScope(d + [c])
  {
    var r := d + [c];
    forall i | 0 <= i < |r| - 1
      ensures !(r[i] == ':' && r[i + 1] == ':')
    {
      if i + 1 < |d| {
        assert r[i] == d[i] && r[i + 1] == d[i + 1];
      } else {
        assert r[i] == d[|d| - 1] && r[i + 1] == c;
      }
    }
  }

  /** A name without colons is its own demodulized form. */
  lemma {:induction false} DemodulizePlain(n: string)
    requires ':' !in n
    ensures Demodulize(n) == n
  {
    if |n| > 0 {
      var p := n[..|n| - 1];
      NotInPrefix(':', n, |n| - 1);
      assert n[|n| - 1] in n;
      DemodulizePlain(p);
      InitLast(n);
    }
  }

  /** `Module::Name` demodulizes to `Name`. */
  lemma {:induction false} DemodulizeQualified(m: string, n: string)
    requires ':' !in n
    ensures Demodulize(m + "::" + n) == n
  {
    var s := m + "::" + n;
    if |n| == 0 {
      assert s[|s| - 2] == ':' && s[|s| - 1] == ':';
    } else {
      var n' := n[..|n| - 1];
      var last := n[|n| - 1];
      NotInPrefix(':', n, |n| - 1);
      assert last != ':' by { assert last in n; }
      assert s == (m + "::" + n') + [last];
      assert s[|s| - 1] == last;
      assert s[..|s| - 1] == m + "::" + n';
      assert !(s[|s| - 2] == ':' && s[|s| - 1] == ':');
      assert Demodulize(s) == Demodulize(s[..|s| - 1]) + [last];
      DemodulizeQualified(m, n');
      InitLast(n);
    }
  }
}
