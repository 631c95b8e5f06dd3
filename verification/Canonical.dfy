/**
 The canonical text of a JSON value, on which every receipt comparison and digest rests: equal
 texts mean equal values up to the order of object keys, and the other way round.
 */
module Canonical {
  import opened Wrappers

  /** UTF-16 code units, as the serializer sees strings. */
  type Unit = x: int | 0 <= x < 0x10000

  type Text = seq<Unit>

  /** A finite number stands for the one token it is written with. */
  datatype Json =
    | Null
    | Bool(value: bool)
    | Num(token: Text)
    | Str(text: Text)
    | Arr(items: seq<Json>)
    | Obj(fields: seq<(Text, Json)>)
    | Undefined

  const QUOTE: Unit := 0x22
  const BACKSLASH: Unit := 0x5c
  const COMMA: Unit := 0x2c
  const COLON: Unit := 0x3a
  const OPEN_LIST: Unit := 0x5b
  const CLOSE_LIST: Unit := 0x5d
  const OPEN_OBJECT: Unit := 0x7b
  const CLOSE_OBJECT: Unit := 0x7d
  const LETTER_U: Unit := 0x75

  // ---------------------------------------------------------------- strings

  function Hex(d: int): Unit
    requires 0 <= d < 16
  {
    if d < 10 then 0x30 + d else 0x57 + d
  }

  function Escaped(u: Unit): Text {
    [BACKSLASH, LETTER_U, Hex(u / 0x1000), Hex(u / 0x100 % 0x10), Hex(u / 0x10 % 0x10), Hex(u % 0x10)]
  }

  predicate High(u: Unit) { 0xd800 <= u < 0xdc00 }

  predicate Low(u: Unit) { 0xdc00 <= u < 0xe000 }

  /** One unit that is not part of a surrogate pair. */
  function Chunk(u: Unit): Text {
    if u == QUOTE || u == BACKSLASH then [BACKSLASH, u]
    else if u == 0x08 then [BACKSLASH, 0x62]
    else if u == 0x09 then [BACKSLASH, 0x74]
    else if u == 0x0a then [BACKSLASH, 0x6e]
    else if u == 0x0c then [BACKSLASH, 0x66]
    else if u == 0x0d then [BACKSLASH, 0x72]
    else if u < 0x20 || High(u) || Low(u) then Escaped(u)
    else [u]
  }

  predicate StartsPair(s: Text) {
    |s| >= 2 && High(s[0]) && Low(s[1])
  }

  /** The rest of a quoted string, up to and with its closing quote. */
  function Unquoted(s: Text): Text {
    if s == [] then [QUOTE]
    else if StartsPair(s) then s[..2] + Unquoted(s[2..])
    else Chunk(s[0]) + Unquoted(s[1..])
  }

  function Quoted(s: Text): Text {
    [QUOTE] + Unquoted(s)
  }

  lemma HexIsOneToOne(d: int, e: int)
    requires 0 <= d < 16 && 0 <= e < 16 && Hex(d) == Hex(e)
    ensures d == e
  {
  }

  lemma DigitsDetermine(u: Unit, v: Unit)
    requires u / 0x1000 == v / 0x1000 && u / 0x100 % 0x10 == v / 0x100 % 0x10
    requires u / 0x10 % 0x10 == v / 0x10 % 0x10 && u % 0x10 == v % 0x10
    ensures u == v
  {
    assert u / 0x100 == 0x10 * (u / 0x1000) + u / 0x100 % 0x10;
    assert v / 0x100 == 0x10 * (v / 0x1000) + v / 0x100 % 0x10;
    assert u / 0x10 == 0x10 * (u / 0x100) + u / 0x10 % 0x10;
    assert v / 0x10 == 0x10 * (v / 0x100) + v / 0x10 % 0x10;
  }

  lemma EscapedIsOneToOne(u: Unit, v: Unit, r: Text, q: Text)
    requires Escaped(u) + r == Escaped(v) + q
    ensures u == v
  {
    var a, b := Escaped(u) + r, Escaped(v) + q;
    assert a[2] == Hex(u / 0x1000) && b[2] == Hex(v / 0x1000);
    assert a[3] == Hex(u / 0x100 % 0x10) && b[3] == Hex(v / 0x100 % 0x10);
    assert a[4] == Hex(u / 0x10 % 0x10) && b[4] == Hex(v / 0x10 % 0x10);
    assert a[5] == Hex(u % 0x10) && b[5] == Hex(v % 0x10);
    HexIsOneToOne(u / 0x1000, v / 0x1000);
    HexIsOneToOne(u / 0x100 % 0x10, v / 0x100 % 0x10);
    HexIsOneToOne(u / 0x10 % 0x10, v / 0x10 % 0x10);
    HexIsOneToOne(u % 0x10, v % 0x10);
    DigitsDetermine(u, v);
  }

  lemma Regroup(a: Text, b: Text, c: Text)
    ensures (a + b) + c == a + (b + c)
  {
  }

  lemma CutCommon<T>(a: seq<T>, b: seq<T>, r: seq<T>, q: seq<T>)
    requires a + r == b + q && |a| == |b|
    ensures a == b && r == q
  {
    assert a == (a + r)[..|a|] && b == (b + q)[..|b|];
    assert r == (a + r)[|a|..] && q == (b + q)[|b|..];
  }

  lemma ChunkIsOneToOne(u: Unit, v: Unit, r: Text, q: Text)
    requires Chunk(u) + r == Chunk(v) + q
    ensures u == v && r == q
  {
    var a, b := Chunk(u) + r, Chunk(v) + q;
    assert a[0] == Chunk(u)[0] && b[0] == Chunk(v)[0];
    if a[0] == BACKSLASH {
      assert a[1] == Chunk(u)[1] && b[1] == Chunk(v)[1];
      if a[1] == LETTER_U { EscapedIsOneToOne(u, v, r, q); }
    }
    CutCommon(Chunk(u), Chunk(v), r, q);
  }

  /** A quoted string ends where its closing quote is, so nothing after it can change what it says. */
  lemma {:induction false} StringsArePrefixFree(s: Text, t: Text, r: Text, q: Text)
    requires Unquoted(s) + r == Unquoted(t) + q
    ensures s == t && r == q
  {
    SameStart(s, t, r, q);
    if s == [] {
      CutCommon([QUOTE], [QUOTE], r, q);
    } else if StartsPair(s) {
      FirstTwo(s, t, r, q);
      StringsArePrefixFree(s[2..], t[2..], r, q);
      assert s == s[..2] + s[2..] && t == t[..2] + t[2..];
    } else {
      FirstOne(s, t, r, q);
      StringsArePrefixFree(s[1..], t[1..], r, q);
      assert s == [s[0]] + s[1..] && t == [t[0]] + t[1..];
    }
  }

  lemma FirstTwo(s: Text, t: Text, r: Text, q: Text)
    requires StartsPair(s) && StartsPair(t) && Unquoted(s) + r == Unquoted(t) + q
    ensures s[..2] == t[..2] && Unquoted(s[2..]) + r == Unquoted(t[2..]) + q
  {
    Regroup(s[..2], Unquoted(s[2..]), r);
    Regroup(t[..2], Unquoted(t[2..]), q);
    CutCommon(s[..2], t[..2], Unquoted(s[2..]) + r, Unquoted(t[2..]) + q);
  }

  lemma FirstOne(s: Text, t: Text, r: Text, q: Text)
    requires s != [] && t != [] && !StartsPair(s) && !StartsPair(t) && Unquoted(s) + r == Unquoted(t) + q
    ensures s[0] == t[0] && Unquoted(s[1..]) + r == Unquoted(t[1..]) + q
  {
    Regroup(Chunk(s[0]), Unquoted(s[1..]), r);
    Regroup(Chunk(t[0]), Unquoted(t[1..]), q);
    ChunkIsOneToOne(s[0], t[0], Unquoted(s[1..]) + r, Unquoted(t[1..]) + q);
  }

  lemma SameStart(s: Text, t: Text, r: Text, q: Text)
    requires Unquoted(s) + r == Unquoted(t) + q
    ensures (s == [] <==> t == []) && (StartsPair(s) <==> StartsPair(t))
  {
    FirstUnitOf(s);
    FirstUnitOf(t);
    assert (Unquoted(s) + r)[0] == Unquoted(s)[0] && (Unquoted(t) + q)[0] == Unquoted(t)[0];
  }

  lemma QuotedArePrefixFree(s: Text, t: Text, r: Text, q: Text)
    requires Quoted(s) + r == Quoted(t) + q
    ensures s == t && r == q
  {
    Regroup([QUOTE], Unquoted(s), r);
    Regroup([QUOTE], Unquoted(t), q);
    CutCommon([QUOTE], [QUOTE], Unquoted(s) + r, Unquoted(t) + q);
    StringsArePrefixFree(s, t, r, q);
  }

  lemma FirstUnitOf(s: Text)
    ensures Unquoted(s) != []
    ensures s == [] <==> Unquoted(s)[0] == QUOTE
    ensures StartsPair(s) <==> High(Unquoted(s)[0])
  {
  }

  // ---------------------------------------------------------------- values

  predicate NumberUnit(u: Unit) {
    0x30 <= u <= 0x39 || u == 0x2b || u == 0x2d || u == 0x2e || u == 0x45 || u == 0x65
  }

  predicate DistinctKeys(fields: seq<(Text, Json)>) {
    forall i, j :: 0 <= i < j < |fields| ==> fields[i].0 != fields[j].0
  }

  /** A JSON value: number tokens, distinct keys, and no `undefined` anywhere. */
  predicate Valid(v: Json) {
    match v
    case Undefined => false
    case Num(token) => token != [] && forall u | u in token :: NumberUnit(u)
    case Arr(items) => forall x | x in items :: Valid(x)
    case Obj(fields) => DistinctKeys(fields) && forall f | f in fields :: Valid(f.1)
    case _ => true
  }

  predicate HasUndefined(v: Json) {
    match v
    case Undefined => true
    case Arr(items) => exists x | x in items :: HasUndefined(x)
    case Obj(fields) => exists f | f in fields :: HasUndefined(f.1)
    case _ => false
  }

  /** Equal values, the order of object keys aside. */
  ghost predicate Same(v: Json, w: Json) {
    match v
    case Arr(items) =>
      w.Arr? && |items| == |w.items| && forall i | 0 <= i < |items| :: Same(items[i], w.items[i])
    case Obj(fields) =>
      && w.Obj? && |fields| == |w.fields|
      && forall f | f in fields :: exists g | g in w.fields :: f.0 == g.0 && Same(f.1, g.1)
    case _ => v == w
  }

  function InsertField(f: (Text, Json), fs: seq<(Text, Json)>, lt: (Text, Text) -> bool): (r: seq<(Text, Json)>)
    ensures multiset(r) == multiset([f]) + multiset(fs)
  {
    if fs == [] then [f]
    else if lt(f.0, fs[0].0) then [f] + fs
    else
      assert fs == [fs[0]] + fs[1..];
      [fs[0]] + InsertField(f, fs[1..], lt)
  }

  function SortFields(fs: seq<(Text, Json)>, lt: (Text, Text) -> bool): (r: seq<(Text, Json)>)
    ensures multiset(r) == multiset(fs)
  {
    if fs == [] then []
    else
      assert fs == [fs[0]] + fs[1..];
      InsertField(fs[0], SortFields(fs[1..], lt), lt)
  }

  lemma SortedHasSameFields(fs: seq<(Text, Json)>, lt: (Text, Text) -> bool)
    ensures |SortFields(fs, lt)| == |fs|
    ensures forall f :: f in SortFields(fs, lt) <==> f in fs
  {
    assert |multiset(SortFields(fs, lt))| == |multiset(fs)|;
    forall f ensures f in SortFields(fs, lt) <==> f in fs {
      assert f in SortFields(fs, lt) <==> f in multiset(SortFields(fs, lt));
      assert f in fs <==> f in multiset(fs);
    }
  }

  function TextOf(v: Json, lt: (Text, Text) -> bool): Text
    decreases v, 2, 0
  {
    match v
    case Null => [0x6e, 0x75, 0x6c, 0x6c]
    case Bool(b) => if b then [0x74, 0x72, 0x75, 0x65] else [0x66, 0x61, 0x6c, 0x73, 0x65]
    case Num(token) => token
    case Str(text) => Quoted(text)
    case Arr(items) => [OPEN_LIST] + ItemsText(v, items, lt)
    case Obj(fields) =>
      SortedHasSameFields(fields, lt);
      [OPEN_OBJECT] + FieldsText(v, SortFields(fields, lt), lt)
    case Undefined => []
  }

  function ItemsText(all: Json, items: seq<Json>, lt: (Text, Text) -> bool): Text
    requires forall x | x in items :: x < all
    decreases all, 1, |items|
  {
    if items == [] then [CLOSE_LIST]
    else
      assert items[0] in items && forall x | x in items[1..] :: x in items;
      TextOf(items[0], lt) + MoreItems(all, items[1..], lt)
  }

  /** The items after the first, each behind a comma, and the closing bracket. */
  function MoreItems(all: Json, items: seq<Json>, lt: (Text, Text) -> bool): Text
    requires forall x | x in items :: x < all
    decreases all, 1, |items|
  {
    if items == [] then [CLOSE_LIST]
    else
      assert items[0] in items && forall x | x in items[1..] :: x in items;
      [COMMA] + (TextOf(items[0], lt) + MoreItems(all, items[1..], lt))
  }

  function FieldsText(all: Json, fields: seq<(Text, Json)>, lt: (Text, Text) -> bool): Text
    requires forall f | f in fields :: f.1 < all
    decreases all, 1, |fields|
  {
    if fields == [] then [CLOSE_OBJECT]
    else
      assert fields[0] in fields && forall f | f in fields[1..] :: f in fields;
      Pair(fields[0].0, TextOf(fields[0].1, lt) + MoreFields(all, fields[1..], lt))
  }

  function MoreFields(all: Json, fields: seq<(Text, Json)>, lt: (Text, Text) -> bool): Text
    requires forall f | f in fields :: f.1 < all
    decreases all, 1, |fields|
  {
    if fields == [] then [CLOSE_OBJECT]
    else
      assert fields[0] in fields && forall f | f in fields[1..] :: f in fields;
      [COMMA] + Pair(fields[0].0, TextOf(fields[0].1, lt) + MoreFields(all, fields[1..], lt))
  }

  /** A key, a colon, and what follows. */
  function Pair(key: Text, rest: Text): Text {
    Quoted(key) + ([COLON] + rest)
  }

  /** The serializer: refused when something is `undefined`, the canonical text otherwise. */
  function CanonicalVps(v: Json, lt: (Text, Text) -> bool): Option<Text> {
    if HasUndefined(v) then None else Some(TextOf(v, lt))
  }

  // ---------------------------------------------------------------- equal texts mean equal values

  predicate Ends(r: Text) {
    r == [] || r[0] == COMMA || r[0] == CLOSE_LIST || r[0] == CLOSE_OBJECT
  }

  lemma PairsArePrefixFree(k: Text, l: Text, r: Text, q: Text, more: Text, less: Text)
    requires Pair(k, r) + more == Pair(l, q) + less
    ensures k == l && r + more == q + less
  {
    Regroup(Quoted(k), [COLON] + r, more);
    Regroup(Quoted(l), [COLON] + q, less);
    QuotedArePrefixFree(k, l, ([COLON] + r) + more, ([COLON] + q) + less);
    Regroup([COLON], r, more);
    Regroup([COLON], q, less);
    CutCommon([COLON], [COLON], r + more, q + less);
  }

  lemma NumbersEnd(a: Text, b: Text, r: Text, q: Text)
    requires (forall u | u in a :: NumberUnit(u)) && (forall u | u in b :: NumberUnit(u))
    requires Ends(r) && Ends(q) && a + r == b + q
    ensures a == b && r == q
  {
    assert forall i | 0 <= i < |a| :: NumberUnit((a + r)[i]) by { assert forall i | 0 <= i < |a| :: a[i] in a; }
    assert forall i | 0 <= i < |b| :: NumberUnit((b + q)[i]) by { assert forall i | 0 <= i < |b| :: b[i] in b; }
    assert r != [] ==> !NumberUnit((a + r)[|a|]);
    assert q != [] ==> !NumberUnit((b + q)[|b|]);
    CutCommon(a, b, r, q);
  }

  /** The first unit tells what kind of value is written. */
  lemma FirstUnitTellsKind(v: Json, lt: (Text, Text) -> bool)
    requires Valid(v)
    ensures TextOf(v, lt) != []
    ensures var u := TextOf(v, lt)[0];
            match v
            case Null => u == 0x6e
            case Bool(b) => u == if b then 0x74 else 0x66
            case Num(_) => NumberUnit(u)
            case Str(_) => u == QUOTE
            case Arr(_) => u == OPEN_LIST
            case Obj(_) => u == OPEN_OBJECT
            case Undefined => false
  {
  }

  lemma SameKind(v: Json, w: Json, r: Text, q: Text, lt: (Text, Text) -> bool)
    requires Valid(v) && Valid(w) && TextOf(v, lt) + r == TextOf(w, lt) + q
    ensures match v
            case Null => w == v
            case Bool(_) => w == v
            case Num(_) => w.Num?
            case Str(_) => w.Str?
            case Arr(_) => w.Arr?
            case Obj(_) => w.Obj?
            case Undefined => false
  {
    FirstUnitTellsKind(v, lt);
    FirstUnitTellsKind(w, lt);
    assert (TextOf(v, lt) + r)[0] == TextOf(v, lt)[0] && (TextOf(w, lt) + q)[0] == TextOf(w, lt)[0];
  }

  /** No text of a value is the beginning of another's: what follows it is found at the same place. */
  lemma {:induction false} TextsArePrefixFree(v: Json, w: Json, r: Text, q: Text, lt: (Text, Text) -> bool)
    requires Valid(v) && Valid(w) && Ends(r) && Ends(q)
    requires TextOf(v, lt) + r == TextOf(w, lt) + q
    ensures Same(v, w) && r == q
    decreases v, 3, 0
  {
    SameKind(v, w, r, q, lt);
    match v {
      case Null => CutCommon(TextOf(v, lt), TextOf(w, lt), r, q);
      case Bool(_) => CutCommon(TextOf(v, lt), TextOf(w, lt), r, q);
      case Num(token) => NumbersEnd(token, w.token, r, q);
      case Str(text) => QuotedArePrefixFree(text, w.text, r, q);
      case Arr(_) => ListsArePrefixFree(v, w, r, q, lt);
      case Obj(_) => ObjectsArePrefixFree(v, w, r, q, lt);
    }
  }

  ghost predicate SameItems(items: seq<Json>, others: seq<Json>) {
    |items| == |others| && forall i | 0 <= i < |items| :: Same(items[i], others[i])
  }

  ghost predicate SameFields(fs: seq<(Text, Json)>, gs: seq<(Text, Json)>) {
    |fs| == |gs| && forall i | 0 <= i < |fs| :: fs[i].0 == gs[i].0 && Same(fs[i].1, gs[i].1)
  }

  lemma {:induction false} ListsArePrefixFree(v: Json, w: Json, r: Text, q: Text, lt: (Text, Text) -> bool)
    requires v.Arr? && w.Arr? && Valid(v) && Valid(w) && Ends(r) && Ends(q)
    requires TextOf(v, lt) + r == TextOf(w, lt) + q
    ensures Same(v, w) && r == q
    decreases v, 2, 0
  {
    var x, y := ItemsText(v, v.items, lt), ItemsText(w, w.items, lt);
    Regroup([OPEN_LIST], x, r);
    Regroup([OPEN_LIST], y, q);
    CutCommon([OPEN_LIST], [OPEN_LIST], x + r, y + q);
    ItemsArePrefixFree(v, v.items, w, w.items, r, q, lt);
  }

  lemma ItemsStart(v: Json, items: seq<Json>, r: Text, lt: (Text, Text) -> bool)
    requires forall x | x in items :: x < v && Valid(x)
    ensures ItemsText(v, items, lt) != []
    ensures items == [] <==> (ItemsText(v, items, lt) + r)[0] == CLOSE_LIST
  {
    if items != [] {
      assert items[0] in items;
      FirstUnitTellsKind(items[0], lt);
      assert (ItemsText(v, items, lt) + r)[0] == TextOf(items[0], lt)[0];
    }
  }

  lemma {:induction false} ItemsArePrefixFree(v: Json, items: seq<Json>, w: Json, others: seq<Json>, r: Text, q: Text, lt: (Text, Text) -> bool)
    requires (forall x | x in items :: x < v && Valid(x)) && (forall x | x in others :: x < w && Valid(x))
    requires Ends(r) && Ends(q)
    requires ItemsText(v, items, lt) + r == ItemsText(w, others, lt) + q
    ensures SameItems(items, others) && r == q
    decreases v, 1, |items| + 1
  {
    ItemsStart(v, items, r, lt);
    ItemsStart(w, others, q, lt);
    if items == [] {
      CutCommon([CLOSE_LIST], [CLOSE_LIST], r, q);
    } else {
      ItemThenMore(v, items, w, others, r, q, lt);
    }
  }

  /** One item, then whatever more there is on either side. */
  lemma {:induction false} ItemThenMore(v: Json, items: seq<Json>, w: Json, others: seq<Json>, r: Text, q: Text, lt: (Text, Text) -> bool)
    requires items != [] && others != []
    requires (forall x | x in items :: x < v && Valid(x)) && (forall x | x in others :: x < w && Valid(x))
    requires Ends(r) && Ends(q)
    requires ItemsText(v, items, lt) + r == ItemsText(w, others, lt) + q
    ensures SameItems(items, others) && r == q
    decreases v, 1, |items|, 0
  {
    assert items[0] in items && others[0] in others;
    assert (forall x | x in items[1..] :: x in items) && (forall x | x in others[1..] :: x in others);
    var x, y := MoreItems(v, items[1..], lt), MoreItems(w, others[1..], lt);
    Regroup(TextOf(items[0], lt), x, r);
    Regroup(TextOf(others[0], lt), y, q);
    TextsArePrefixFree(items[0], others[0], x + r, y + q, lt);
    MoreItemsArePrefixFree(v, items[1..], w, others[1..], r, q, lt);
    assert forall i | 0 < i < |items| :: items[i] == items[1..][i - 1] && others[i] == others[1..][i - 1];
  }

  lemma {:induction false} MoreItemsArePrefixFree(v: Json, items: seq<Json>, w: Json, others: seq<Json>, r: Text, q: Text, lt: (Text, Text) -> bool)
    requires (forall x | x in items :: x < v && Valid(x)) && (forall x | x in others :: x < w && Valid(x))
    requires Ends(r) && Ends(q)
    requires MoreItems(v, items, lt) + r == MoreItems(w, others, lt) + q
    ensures SameItems(items, others) && r == q
    decreases v, 1, |items|, 1
  {
    var x, y := MoreItems(v, items, lt), MoreItems(w, others, lt);
    assert x[0] == (x + r)[0] == (y + q)[0] == y[0];
    if items == [] {
      CutCommon([CLOSE_LIST], [CLOSE_LIST], r, q);
    } else {
      var a, b := ItemsText(v, items, lt), ItemsText(w, others, lt);
      Regroup([COMMA], a, r);
      Regroup([COMMA], b, q);
      CutCommon([COMMA], [COMMA], a + r, b + q);
      ItemThenMore(v, items, w, others, r, q, lt);
    }
  }

  lemma {:induction false} ObjectsArePrefixFree(v: Json, w: Json, r: Text, q: Text, lt: (Text, Text) -> bool)
    requires v.Obj? && w.Obj? && Valid(v) && Valid(w) && Ends(r) && Ends(q)
    requires TextOf(v, lt) + r == TextOf(w, lt) + q
    ensures Same(v, w) && r == q
    decreases v, 2, 0
  {
    SortedHasSameFields(v.fields, lt);
    SortedHasSameFields(w.fields, lt);
    var fs, gs := SortFields(v.fields, lt), SortFields(w.fields, lt);
    var x, y := FieldsText(v, fs, lt), FieldsText(w, gs, lt);
    Regroup([OPEN_OBJECT], x, r);
    Regroup([OPEN_OBJECT], y, q);
    CutCommon([OPEN_OBJECT], [OPEN_OBJECT], x + r, y + q);
    FieldsArePrefixFree(v, fs, w, gs, r, q, lt);
    SameBySorting(v.fields, fs, w.fields, gs);
  }

  lemma SameBySorting(fields: seq<(Text, Json)>, fs: seq<(Text, Json)>, others: seq<(Text, Json)>, gs: seq<(Text, Json)>)
    requires SameFields(fs, gs) && |fs| == |fields| && |gs| == |others|
    requires (forall f | f in fields :: f in fs) && (forall g | g in gs :: g in others)
    ensures Same(Obj(fields), Obj(others))
  {
    forall f | f in fields ensures exists g | g in others :: f.0 == g.0 && Same(f.1, g.1) {
      var p :| 0 <= p < |fs| && fs[p] == f;
      assert gs[p] in others;
    }
  }

  lemma {:induction false} FieldsArePrefixFree(v: Json, fs: seq<(Text, Json)>, w: Json, gs: seq<(Text, Json)>, r: Text, q: Text, lt: (Text, Text) -> bool)
    requires (forall f | f in fs :: f.1 < v && Valid(f.1)) && (forall g | g in gs :: g.1 < w && Valid(g.1))
    requires Ends(r) && Ends(q)
    requires FieldsText(v, fs, lt) + r == FieldsText(w, gs, lt) + q
    ensures SameFields(fs, gs) && r == q
    decreases v, 1, |fs| + 1
  {
    var a, b := FieldsText(v, fs, lt) + r, FieldsText(w, gs, lt) + q;
    assert fs == [] <==> a[0] == CLOSE_OBJECT;
    assert gs == [] <==> b[0] == CLOSE_OBJECT;
    if fs == [] {
      CutCommon([CLOSE_OBJECT], [CLOSE_OBJECT], r, q);
    } else {
      FieldThenMore(v, fs, w, gs, r, q, lt);
    }
  }

  /** One field, then whatever more there is on either side. */
  lemma {:induction false} FieldThenMore(v: Json, fs: seq<(Text, Json)>, w: Json, gs: seq<(Text, Json)>, r: Text, q: Text, lt: (Text, Text) -> bool)
    requires fs != [] && gs != []
    requires (forall f | f in fs :: f.1 < v && Valid(f.1)) && (forall g | g in gs :: g.1 < w && Valid(g.1))
    requires Ends(r) && Ends(q)
    requires FieldsText(v, fs, lt) + r == FieldsText(w, gs, lt) + q
    ensures SameFields(fs, gs) && r == q
    decreases v, 1, |fs|, 0
  {
    assert fs[0] in fs && gs[0] in gs;
    assert (forall f | f in fs[1..] :: f in fs) && (forall g | g in gs[1..] :: g in gs);
    var x, y := MoreFields(v, fs[1..], lt), MoreFields(w, gs[1..], lt);
    FirstPair(v, fs, w, gs, r, q, lt);
    TextsArePrefixFree(fs[0].1, gs[0].1, x + r, y + q, lt);
    MoreFieldsArePrefixFree(v, fs[1..], w, gs[1..], r, q, lt);
    SameFieldsAfterOne(fs, gs);
  }

  lemma SameFieldsAfterOne(fs: seq<(Text, Json)>, gs: seq<(Text, Json)>)
    requires fs != [] && gs != []
    requires fs[0].0 == gs[0].0 && Same(fs[0].1, gs[0].1) && SameFields(fs[1..], gs[1..])
    ensures SameFields(fs, gs)
  {
    assert forall i | 0 < i < |fs| :: fs[i] == fs[1..][i - 1] && gs[i] == gs[1..][i - 1];
  }

  lemma FirstPair(v: Json, fs: seq<(Text, Json)>, w: Json, gs: seq<(Text, Json)>, r: Text, q: Text, lt: (Text, Text) -> bool)
    requires fs != [] && gs != []
    requires (forall f | f in fs :: f.1 < v) && (forall g | g in gs :: g.1 < w)
    requires FieldsText(v, fs, lt) + r == FieldsText(w, gs, lt) + q
    ensures fs[0].0 == gs[0].0
    ensures TextOf(fs[0].1, lt) + (MoreFields(v, fs[1..], lt) + r) == TextOf(gs[0].1, lt) + (MoreFields(w, gs[1..], lt) + q)
  {
    var x, y := MoreFields(v, fs[1..], lt), MoreFields(w, gs[1..], lt);
    PairsArePrefixFree(fs[0].0, gs[0].0, TextOf(fs[0].1, lt) + x, TextOf(gs[0].1, lt) + y, r, q);
    Regroup(TextOf(fs[0].1, lt), x, r);
    Regroup(TextOf(gs[0].1, lt), y, q);
  }

  lemma {:induction false} MoreFieldsArePrefixFree(v: Json, fs: seq<(Text, Json)>, w: Json, gs: seq<(Text, Json)>, r: Text, q: Text, lt: (Text, Text) -> bool)
    requires (forall f | f in fs :: f.1 < v && Valid(f.1)) && (forall g | g in gs :: g.1 < w && Valid(g.1))
    requires Ends(r) && Ends(q)
    requires MoreFields(v, fs, lt) + r == MoreFields(w, gs, lt) + q
    ensures SameFields(fs, gs) && r == q
    decreases v, 1, |fs|, 1
  {
    var x, y := MoreFields(v, fs, lt), MoreFields(w, gs, lt);
    assert x[0] == (x + r)[0] == (y + q)[0] == y[0];
    if fs == [] {
      CutCommon([CLOSE_OBJECT], [CLOSE_OBJECT], r, q);
    } else {
      var a, b := FieldsText(v, fs, lt), FieldsText(w, gs, lt);
      Regroup([COMMA], a, r);
      Regroup([COMMA], b, q);
      CutCommon([COMMA], [COMMA], a + r, b + q);
      FieldThenMore(v, fs, w, gs, r, q, lt);
    }
  }

  // ---------------------------------------------------------------- equal values have equal texts

  ghost predicate InOrder(fs: seq<(Text, Json)>, lt: (Text, Text) -> bool) {
    forall i, j :: 0 <= i < j < |fs| ==> lt(fs[i].0, fs[j].0)
  }

  lemma {:induction false} InsertKeepsOrder(f: (Text, Json), fs: seq<(Text, Json)>, lt: (Text, Text) -> bool)
    requires StrictTotal(lt) && InOrder(fs, lt) && forall g | g in fs :: g.0 != f.0
    ensures InOrder(InsertField(f, fs, lt), lt)
  {
    if fs == [] { return; }
    var rest := fs[1..];
    assert fs[0] in fs && forall g | g in rest :: g in fs;
    LeadsTail(fs, lt);
    if lt(f.0, fs[0].0) {
      assert fs == [fs[0]] + rest;
      ConsInOrder(f, fs, lt);
    } else {
      InsertKeepsOrder(f, rest, lt);
      var tail := InsertField(f, rest, lt);
      forall g | g in tail ensures lt(fs[0].0, g.0) {
        assert g in multiset(tail);
        assert g == f || g in rest;
      }
      ConsInOrder(fs[0], tail, lt);
    }
  }

  lemma LeadsTail(fs: seq<(Text, Json)>, lt: (Text, Text) -> bool)
    requires InOrder(fs, lt) && fs != []
    ensures InOrder(fs[1..], lt) && forall g | g in fs[1..] :: lt(fs[0].0, g.0)
  {
    forall g | g in fs[1..] ensures lt(fs[0].0, g.0) {
      var k :| 0 <= k < |fs[1..]| && fs[1..][k] == g;
      assert fs[k + 1] == g;
    }
  }

  lemma ConsInOrder(f: (Text, Json), fs: seq<(Text, Json)>, lt: (Text, Text) -> bool)
    requires InOrder(fs, lt) && forall g | g in fs :: lt(f.0, g.0)
    ensures InOrder([f] + fs, lt)
  {
    var r := [f] + fs;
    forall i, j | 0 <= i < j < |r| ensures lt(r[i].0, r[j].0) { assert r[j] == fs[j - 1] && r[j] in fs; }
  }

  lemma {:induction false} SortingOrders(fs: seq<(Text, Json)>, lt: (Text, Text) -> bool)
    requires StrictTotal(lt) && DistinctKeys(fs)
    ensures InOrder(SortFields(fs, lt), lt)
  {
    if fs != [] {
      SortingOrders(fs[1..], lt);
      SortedHasSameFields(fs[1..], lt);
      InsertKeepsOrder(fs[0], SortFields(fs[1..], lt), lt);
    }
  }

  function Keys(fs: seq<(Text, Json)>): set<Text> {
    set f | f in fs :: f.0
  }

  lemma KeysOfTail(fs: seq<(Text, Json)>, lt: (Text, Text) -> bool)
    requires StrictTotal(lt) && InOrder(fs, lt) && fs != []
    ensures Keys(fs[1..]) == Keys(fs) - {fs[0].0}
    ensures forall k | k in Keys(fs) :: k == fs[0].0 || lt(fs[0].0, k)
  {
    LeadsTail(fs, lt);
    assert fs == [fs[0]] + fs[1..];
  }

  /** Lists in order with the same keys have them at the same places. */
  lemma {:induction false} OrderIsDetermined(fs: seq<(Text, Json)>, gs: seq<(Text, Json)>, lt: (Text, Text) -> bool)
    requires StrictTotal(lt) && InOrder(fs, lt) && InOrder(gs, lt) && Keys(fs) == Keys(gs)
    ensures |fs| == |gs| && forall i | 0 <= i < |fs| :: fs[i].0 == gs[i].0
  {
    assert fs != [] ==> fs[0].0 in Keys(fs);
    assert gs != [] ==> gs[0].0 in Keys(gs);
    if fs != [] {
      KeysOfTail(fs, lt);
      KeysOfTail(gs, lt);
      assert fs[0].0 == gs[0].0;
      OrderIsDetermined(fs[1..], gs[1..], lt);
      assert forall i | 0 < i < |fs| :: fs[i] == fs[1..][i - 1] && gs[i] == gs[1..][i - 1];
    }
  }

  lemma {:induction false} DistinctKeysCount(fs: seq<(Text, Json)>)
    requires DistinctKeys(fs)
    ensures |Keys(fs)| == |fs|
  {
    if fs != [] {
      DistinctKeysCount(fs[1..]);
      FirstKeyIsNew(fs);
    }
  }

  lemma FirstKeyIsNew(fs: seq<(Text, Json)>)
    requires DistinctKeys(fs) && fs != []
    ensures Keys(fs) == {fs[0].0} + Keys(fs[1..]) && fs[0].0 !in Keys(fs[1..])
  {
    assert fs == [fs[0]] + fs[1..];
  }

  lemma SubsetOfEqualSize<T>(a: set<T>, b: set<T>)
    requires a <= b && |a| == |b|
    ensures a == b
  {
    assert |b - a| == |b| - |a| by { assert b == a + (b - a); }
  }

  /** Two objects that are the same up to key order sort into matching fields. */
  lemma SameSortsAlike(fields: seq<(Text, Json)>, others: seq<(Text, Json)>, lt: (Text, Text) -> bool)
    requires StrictTotal(lt) && DistinctKeys(fields) && DistinctKeys(others)
    requires Same(Obj(fields), Obj(others))
    ensures SameFields(SortFields(fields, lt), SortFields(others, lt))
  {
    var fs, gs := SortFields(fields, lt), SortFields(others, lt);
    SortedHasSameFields(fields, lt);
    SortedHasSameFields(others, lt);
    SortingOrders(fields, lt);
    SortingOrders(others, lt);
    DistinctKeysCount(fields);
    DistinctKeysCount(others);
    forall k | k in Keys(fields) ensures k in Keys(others) {
      var f :| f in fields && f.0 == k;
      var g :| g in others && f.0 == g.0 && Same(f.1, g.1);
    }
    SubsetOfEqualSize(Keys(fields), Keys(others));
    assert Keys(fs) == Keys(fields) && Keys(gs) == Keys(others);
    OrderIsDetermined(fs, gs, lt);
    forall i | 0 <= i < |fs| ensures Same(fs[i].1, gs[i].1) {
      assert fs[i] in fields && gs[i] in others;
      var g :| g in others && fs[i].0 == g.0 && Same(fs[i].1, g.1);
      SameKeySameField(others, g, gs[i]);
    }
  }

  lemma SameKeySameField(fs: seq<(Text, Json)>, f: (Text, Json), g: (Text, Json))
    requires DistinctKeys(fs) && f in fs && g in fs && f.0 == g.0
    ensures f == g
  {
    var i :| 0 <= i < |fs| && fs[i] == f;
    var k :| 0 <= k < |fs| && fs[k] == g;
  }

  lemma {:induction false} SameMeansSameText(v: Json, w: Json, lt: (Text, Text) -> bool)
    requires StrictTotal(lt) && Valid(v) && Valid(w) && Same(v, w)
    ensures TextOf(v, lt) == TextOf(w, lt)
    decreases v, 2, 0
  {
    match v {
      case Arr(_) => SameListsSameText(v, w, lt);
      case Obj(_) => SameObjectsSameText(v, w, lt);
      case _ =>
    }
  }

  lemma {:induction false} SameListsSameText(v: Json, w: Json, lt: (Text, Text) -> bool)
    requires StrictTotal(lt) && v.Arr? && Valid(v) && Valid(w) && Same(v, w)
    ensures TextOf(v, lt) == TextOf(w, lt)
    decreases v, 1, |v.items| + 1
  {
    if v.items != [] {
      assert v.items[0] in v.items && w.items[0] in w.items;
      SameMeansSameText(v.items[0], w.items[0], lt);
      assert forall x | x in v.items[1..] :: x in v.items;
      assert forall x | x in w.items[1..] :: x in w.items;
      SameItemsSameText(v, v.items[1..], w, w.items[1..], lt);
    }
  }

  lemma {:induction false} SameObjectsSameText(v: Json, w: Json, lt: (Text, Text) -> bool)
    requires StrictTotal(lt) && v.Obj? && Valid(v) && Valid(w) && Same(v, w)
    ensures TextOf(v, lt) == TextOf(w, lt)
    decreases v, 1, |v.fields| + 1
  {
    SortedHasSameFields(v.fields, lt);
    SortedHasSameFields(w.fields, lt);
    var fs, gs := SortFields(v.fields, lt), SortFields(w.fields, lt);
    assert SameFields(fs, gs) by { SameSortsAlike(v.fields, w.fields, lt); }
    assert Below(v, fs) && Below(w, gs);
    SameSortedSameText(v, fs, w, gs, lt);
  }

  lemma {:induction false} SameSortedSameText(v: Json, fs: seq<(Text, Json)>, w: Json, gs: seq<(Text, Json)>, lt: (Text, Text) -> bool)
    requires StrictTotal(lt) && SameFields(fs, gs)
    requires Below(v, fs) && Below(w, gs)
    ensures FieldsText(v, fs, lt) == FieldsText(w, gs, lt)
    decreases v, 1, |fs|, 0
  {
    if fs != [] {
      SameFieldsSplit(fs, gs);
      BelowSplit(v, fs);
      BelowSplit(w, gs);
      SameMeansSameText(fs[0].1, gs[0].1, lt);
      SameFieldsSameText(v, fs[1..], w, gs[1..], lt);
    }
  }

  /** The fields serialized inside `v`: valid values that are parts of it. */
  ghost predicate Below(v: Json, fs: seq<(Text, Json)>) {
    forall f | f in fs :: f.1 < v && Valid(f.1)
  }

  lemma BelowSplit(v: Json, fs: seq<(Text, Json)>)
    requires Below(v, fs) && fs != []
    ensures fs[0].1 < v && Valid(fs[0].1) && Below(v, fs[1..])
  {
    assert fs[0] in fs && forall f | f in fs[1..] :: f in fs;
  }

  lemma SameFieldsSplit(fs: seq<(Text, Json)>, gs: seq<(Text, Json)>)
    requires SameFields(fs, gs) && fs != []
    ensures fs[0].0 == gs[0].0 && Same(fs[0].1, gs[0].1) && SameFields(fs[1..], gs[1..])
  {
    assert forall i | 0 <= i < |fs| - 1 :: fs[1..][i] == fs[i + 1] && gs[1..][i] == gs[i + 1];
  }

  lemma {:induction false} SameItemsSameText(v: Json, items: seq<Json>, w: Json, others: seq<Json>, lt: (Text, Text) -> bool)
    requires StrictTotal(lt) && SameItems(items, others)
    requires (forall x | x in items :: x < v && Valid(x)) && (forall x | x in others :: x < w && Valid(x))
    ensures MoreItems(v, items, lt) == MoreItems(w, others, lt)
    decreases v, 1, |items|
  {
    if items != [] {
      assert items[0] in items && others[0] in others;
      SameMeansSameText(items[0], others[0], lt);
      SameItemsSameText(v, items[1..], w, others[1..], lt);
    }
  }

  lemma {:induction false} SameFieldsSameText(v: Json, fs: seq<(Text, Json)>, w: Json, gs: seq<(Text, Json)>, lt: (Text, Text) -> bool)
    requires StrictTotal(lt) && SameFields(fs, gs)
    requires Below(v, fs) && Below(w, gs)
    ensures MoreFields(v, fs, lt) == MoreFields(w, gs, lt)
    decreases v, 1, |fs|, 1
  {
    if fs != [] { SameSortedSameText(v, fs, w, gs, lt); }
  }

  lemma {:induction false} ValidIsDefined(v: Json)
    requires Valid(v)
    ensures !HasUndefined(v)
  {
    match v {
      case Arr(items) => forall x | x in items ensures !HasUndefined(x) { ValidIsDefined(x); }
      case Obj(fields) => forall f | f in fields ensures !HasUndefined(f.1) { ValidIsDefined(f.1); }
      case _ =>
    }
  }

  /** Two JSON values have one canonical text exactly when they differ in key order at most. */
  lemma CanonicalTextsDecide(v: Json, w: Json, lt: (Text, Text) -> bool)
    requires StrictTotal(lt) && Valid(v) && Valid(w)
    ensures CanonicalVps(v, lt).Some? && CanonicalVps(w, lt).Some?
    ensures CanonicalVps(v, lt) == CanonicalVps(w, lt) <==> Same(v, w)
  {
    ValidIsDefined(v);
    ValidIsDefined(w);
    if TextOf(v, lt) == TextOf(w, lt) { TextsArePrefixFree(v, w, [], [], lt); }
    if Same(v, w) { SameMeansSameText(v, w, lt); }
  }
}
