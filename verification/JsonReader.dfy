/**
 A reader of JSON texts (sections 4 to 7 of RFC 8259, without blanks, names unique), written apart
 from the serializer: what it reads back from a canonical text is the value that was written.
 */
module JsonReader {
  import opened Wrappers
  import opened Canonical

  // ---------------------------------------------------------------- strings

  function HexValue(u: Unit): (o: Option<int>)
    ensures o.Some? ==> 0 <= o.value < 16
  {
    if '0' as int <= u <= '9' as int then Some(u - '0' as int)
    else if 'a' as int <= u <= 'f' as int then Some(u - 'a' as int + 10)
    else if 'A' as int <= u <= 'F' as int then Some(u - 'A' as int + 10)
    else None
  }

  /** The unit that two units after a backslash, or four hexadecimal digits after `\u`, stand for. */
  function ShortEscape(u: Unit): Option<Unit> {
    if u == '\"' as int || u == '\\' as int || u == '/' as int then Some(u)
    else if u == 'b' as int then Some(8)
    else if u == 't' as int then Some(9)
    else if u == 'n' as int then Some(10)
    else if u == 'f' as int then Some(12)
    else if u == 'r' as int then Some(13)
    else None
  }

  function LongEscape(t: Text): (o: Option<Unit>) {
    if |t| < 4 then None
    else
      match (HexValue(t[0]), HexValue(t[1]), HexValue(t[2]), HexValue(t[3]))
      case (Some(a), Some(b), Some(c), Some(d)) => Some(((a * 16 + b) * 16 + c) * 16 + d)
      case _ => None
  }

  function Behind(u: Unit, o: Option<(Text, Text)>): Option<(Text, Text)> {
    match o
    case None => None
    case Some(p) => Some(([u] + p.0, p.1))
  }

  /** A string after its opening quote: the units it stands for, and what follows the closing quote. */
  function ReadString(t: Text): (o: Option<(Text, Text)>)
    ensures o.Some? ==> |o.value.1| < |t|
  {
    if t == [] || t[0] < 0x20 then None
    else if t[0] == '\"' as int then Some(([], t[1..]))
    else if t[0] != '\\' as int then Behind(t[0], ReadString(t[1..]))
    else if |t| == 1 then None
    else if t[1] == 'u' as int then
      match LongEscape(t[2..])
      case None => None
      case Some(u) => Behind(u, ReadString(t[6..]))
    else
      match ShortEscape(t[1])
      case None => None
      case Some(u) => Behind(u, ReadString(t[2..]))
  }

  lemma HexIsRead(d: int)
    requires 0 <= d < 16
    ensures HexValue(Hex(d)) == Some(d)
  {
  }

  lemma DigitsMakeUnit(u: Unit)
    ensures 0 <= u / 0x1000 < 16
    ensures ((u / 0x1000 * 16 + u / 0x100 % 0x10) * 16 + u / 0x10 % 0x10) * 16 + u % 0x10 == u
  {
    assert u / 0x100 == 0x10 * (u / 0x1000) + u / 0x100 % 0x10;
    assert u / 0x10 == 0x10 * (u / 0x100) + u / 0x10 % 0x10;
  }

  lemma EscapedIsRead(u: Unit, r: Text)
    ensures ReadString(Escaped(u) + r) == Behind(u, ReadString(r))
  {
    var t := Escaped(u) + r;
    assert t[6..] == r;
    HexIsRead(u / 0x1000);
    HexIsRead(u / 0x100 % 0x10);
    HexIsRead(u / 0x10 % 0x10);
    HexIsRead(u % 0x10);
    DigitsMakeUnit(u);
    assert LongEscape(t[2..]) == Some(u);
  }

  lemma ChunkIsRead(u: Unit, r: Text)
    ensures ReadString(Chunk(u) + r) == Behind(u, ReadString(r))
  {
    var t := Chunk(u) + r;
    assert t[|Chunk(u)|..] == r;
    if Chunk(u) == Escaped(u) { EscapedIsRead(u, r); }
  }

  lemma PairIsRead(a: Unit, b: Unit, r: Text)
    requires High(a) && Low(b)
    ensures ReadString([a, b] + r) == Behind(a, Behind(b, ReadString(r)))
  {
    assert ([a, b] + r)[1..] == [b] + r;
    assert ([b] + r)[1..] == r;
  }

  /** Every string, surrogates and control characters included, is read back as it was. */
  lemma {:induction false} StringsReadBack(s: Text, r: Text)
    ensures ReadString(Unquoted(s) + r) == Some((s, r))
  {
    if s == [] {
      assert ([QUOTE] + r)[1..] == r;
    } else if StartsPair(s) {
      StringsReadBack(s[2..], r);
      Regroup(s[..2], Unquoted(s[2..]), r);
      assert s[..2] == [s[0], s[1]];
      PairIsRead(s[0], s[1], Unquoted(s[2..]) + r);
      assert s == [s[0]] + ([s[1]] + s[2..]);
    } else {
      StringsReadBack(s[1..], r);
      Regroup(Chunk(s[0]), Unquoted(s[1..]), r);
      ChunkIsRead(s[0], Unquoted(s[1..]) + r);
      assert s == [s[0]] + s[1..];
    }
  }

  /** Every surrogate has its partner beside it, so the text can be encoded in UTF-8 without loss. */
  ghost predicate WellFormed(t: Text) {
    forall i | 0 <= i < |t| :: Paired(t, i)
  }

  predicate Paired(t: Text, i: nat)
    requires i < |t|
  {
    && (0xd800 <= t[i] < 0xdc00 ==> i + 1 < |t| && 0xdc00 <= t[i + 1] < 0xe000)
    && (0xdc00 <= t[i] < 0xe000 ==> 0 < i && 0xd800 <= t[i - 1] < 0xdc00)
  }

  lemma WellFormedAfter(a: Text, b: Text)
    requires WellFormed(a) && WellFormed(b)
    ensures WellFormed(a + b)
  {
    var t := a + b;
    forall i | 0 <= i < |t| ensures Paired(t, i) {
      if i < |a| {
        assert Paired(a, i);
        assert t[i] == a[i] && (0 < i ==> t[i - 1] == a[i - 1]) && (i + 1 < |a| ==> t[i + 1] == a[i + 1]);
      } else {
        var k := i - |a|;
        assert Paired(b, k);
        assert t[i] == b[k] && (0 < k ==> t[i - 1] == b[k - 1]) && (k + 1 < |b| ==> t[i + 1] == b[k + 1]);
      }
    }
  }

  lemma {:induction false} QuotedIsWellFormed(s: Text)
    ensures WellFormed(Quoted(s))
  {
    UnquotedIsWellFormed(s);
    WellFormedAfter([QUOTE], Unquoted(s));
  }

  lemma ChunkIsWellFormed(u: Unit)
    ensures WellFormed(Chunk(u))
  {
    assert forall w | w in Chunk(u) :: !High(w) && !Low(w);
    assert forall i | 0 <= i < |Chunk(u)| :: Chunk(u)[i] in Chunk(u);
  }

  lemma {:induction false} UnquotedIsWellFormed(s: Text)
    ensures WellFormed(Unquoted(s))
  {
    if StartsPair(s) {
      UnquotedIsWellFormed(s[2..]);
      assert s[..2] == [s[0], s[1]];
      WellFormedAfter([s[0], s[1]], Unquoted(s[2..]));
    } else if s != [] {
      UnquotedIsWellFormed(s[1..]);
      ChunkIsWellFormed(s[0]);
      WellFormedAfter(Chunk(s[0]), Unquoted(s[1..]));
    }
  }

  /** No text with the same reading is shorter, so that nothing is escaped that could be copied or written `\n`. */
  lemma {:induction false} QuotedIsShortest(t: Text, s: Text, r: Text)
    requires ReadString(t) == Some((s, r)) && WellFormed(s)
    ensures |Unquoted(s)| + |r| <= |t|
    decreases |s|
  {
    if s != [] {
      var q := FirstRead(t, s, r);
      if StartsPair(s) {
        var p := FirstRead(q, s[1..], r);
        assert s[1..][1..] == s[2..];
        assert |s| > 2 ==> Paired(s, 2);
        WellFormedRest(s, 2);
        QuotedIsShortest(p, s[2..], r);
      } else {
        assert Paired(s, 0);
        assert |s| > 1 ==> Paired(s, 1);
        WellFormedRest(s, 1);
        QuotedIsShortest(q, s[1..], r);
      }
    }
  }

  /** Reading takes at least one unit of text for each unit read, and as many as the serializer writes. */
  lemma FirstRead(t: Text, s: Text, r: Text) returns (q: Text)
    requires ReadString(t) == Some((s, r)) && s != []
    ensures ReadString(q) == Some((s[1..], r)) && |q| < |t|
    ensures !High(s[0]) && !Low(s[0]) ==> |q| + |Chunk(s[0])| <= |t|
  {
    if t[0] != '\\' as int {
      q := t[1..];
    } else if t[1] == 'u' as int {
      q := t[6..];
    } else {
      q := t[2..];
    }
    assert s == [s[0]] + ReadString(q).value.0;
  }

  lemma WellFormedRest(s: Text, n: nat)
    requires WellFormed(s) && n <= |s| && (n < |s| ==> !Low(s[n]))
    ensures WellFormed(s[n..])
  {
    var t := s[n..];
    forall i | 0 <= i < |t| ensures Paired(t, i) {
      assert Paired(s, n + i);
      assert t[i] == s[n + i] && (0 < i ==> t[i - 1] == s[n + i - 1]) && (i + 1 < |t| ==> t[i + 1] == s[n + i + 1]);
    }
  }

  predicate Capital(u: Unit) { 'A' as int <= u <= 'Z' as int }

  lemma NoCapitalInHex(d: int)
    requires 0 <= d < 16
    ensures !Capital(Hex(d))
  {
  }

  lemma ChunkCapitals(u: Unit, w: Unit)
    requires w in Chunk(u) && Capital(w)
    ensures w == u
  {
    if Chunk(u) == Escaped(u) {
      NoCapitalInHex(u / 0x1000);
      NoCapitalInHex(u / 0x100 % 0x10);
      NoCapitalInHex(u / 0x10 % 0x10);
      NoCapitalInHex(u % 0x10);
    }
  }

  /** Hexadecimal digits are in lower case: every capital letter comes from the text itself. */
  lemma {:induction false} CapitalsAreCopied(s: Text, w: Unit)
    requires w in Unquoted(s) && Capital(w)
    ensures w in s
  {
    if StartsPair(s) {
      if w !in s[..2] { CapitalsAreCopied(s[2..], w); }
    } else if s != [] {
      if w in Chunk(s[0]) { ChunkCapitals(s[0], w); } else { CapitalsAreCopied(s[1..], w); }
    }
  }

  // ---------------------------------------------------------------- values

  const NULL_WORD: Text := ['n' as int, 'u' as int, 'l' as int, 'l' as int]
  const TRUE_WORD: Text := ['t' as int, 'r' as int, 'u' as int, 'e' as int]
  const FALSE_WORD: Text := ['f' as int, 'a' as int, 'l' as int, 's' as int, 'e' as int]

  predicate InNumber(u: Unit) {
    || '0' as int <= u <= '9' as int
    || u == '+' as int || u == '-' as int || u == '.' as int || u == 'e' as int || u == 'E' as int
  }

  function NumberLength(t: Text): (n: nat)
    ensures n <= |t| && (n < |t| ==> !InNumber(t[n]))
    ensures forall i | 0 <= i < n :: InNumber(t[i])
  {
    if t == [] || !InNumber(t[0]) then 0 else 1 + NumberLength(t[1..])
  }

  function ReadNumber(t: Text): (o: Option<(Json, Text)>)
    ensures o.Some? ==> |o.value.1| < |t|
  {
    var n := NumberLength(t);
    if n == 0 then None else Some((Num(t[..n]), t[n..]))
  }

  function ReadValue(t: Text): (o: Option<(Json, Text)>)
    ensures o.Some? ==> |o.value.1| < |t|
    decreases |t|, 1
  {
    if t == [] then None
    else if t[0] == '\"' as int then
      match ReadString(t[1..])
      case None => None
      case Some(p) => Some((Str(p.0), p.1))
    else if t[0] == '[' as int then
      if |t| > 1 && t[1] == ']' as int then Some((Arr([]), t[2..]))
      else
        match ReadItems(t[1..])
        case None => None
        case Some(p) => Some((Arr(p.0), p.1))
    else if t[0] == '{' as int then
      if |t| > 1 && t[1] == '}' as int then Some((Obj([]), t[2..]))
      else
        match ReadFields(t[1..])
        case None => None
        case Some(p) => Some((Obj(p.0), p.1))
    else if NULL_WORD <= t then Some((Null, t[4..]))
    else if TRUE_WORD <= t then Some((Bool(true), t[4..]))
    else if FALSE_WORD <= t then Some((Bool(false), t[5..]))
    else ReadNumber(t)
  }

  /** Values with commas between them, up to the closing bracket. */
  function ReadItems(t: Text): (o: Option<(seq<Json>, Text)>)
    ensures o.Some? ==> |o.value.1| < |t|
    decreases |t|, 2
  {
    match ReadValue(t)
    case None => None
    case Some(x) =>
      if x.1 == [] then None
      else if x.1[0] == ']' as int then Some(([x.0], x.1[1..]))
      else if x.1[0] != ',' as int then None
      else
        match ReadItems(x.1[1..])
        case None => None
        case Some(more) => Some(([x.0] + more.0, more.1))
  }

  function ReadField(t: Text): (o: Option<((Text, Json), Text)>)
    ensures o.Some? ==> |o.value.1| < |t|
    decreases |t|, 2
  {
    if t == [] || t[0] != '\"' as int then None
    else
      match ReadString(t[1..])
      case None => None
      case Some(k) =>
        if k.1 == [] || k.1[0] != ':' as int then None
        else
          match ReadValue(k.1[1..])
          case None => None
          case Some(x) => Some(((k.0, x.0), x.1))
  }

  /** Keys, all different, and values with commas between them, up to the closing brace. */
  function ReadFields(t: Text): (o: Option<(seq<(Text, Json)>, Text)>)
    ensures o.Some? ==> |o.value.1| < |t|
    decreases |t|, 3
  {
    match ReadField(t)
    case None => None
    case Some(f) =>
      if f.1 == [] then None
      else if f.1[0] == '}' as int then Some(([f.0], f.1[1..]))
      else if f.1[0] != ',' as int then None
      else
        match ReadFields(f.1[1..])
        case None => None
        case Some(more) =>
          if exists g | g in more.0 :: g.0 == f.0.0 then None else Some(([f.0] + more.0, more.1))
  }

  // ---------------------------------------------------------------- reading back

  /** Keys in order at every depth. */
  ghost predicate Sorted(v: Json, lt: (Text, Text) -> bool) {
    match v
    case Arr(items) => forall x | x in items :: Sorted(x, lt)
    case Obj(fields) => InOrder(fields, lt) && forall f | f in fields :: Sorted(f.1, lt)
    case _ => true
  }

  ghost predicate ReadsAs(o: Option<(Json, Text)>, v: Json, r: Text, lt: (Text, Text) -> bool) {
    o.Some? && Same(v, o.value.0) && Sorted(o.value.0, lt) && o.value.1 == r
  }

  ghost predicate ItemsReadAs(o: Option<(seq<Json>, Text)>, items: seq<Json>, r: Text, lt: (Text, Text) -> bool) {
    o.Some? && SameItems(items, o.value.0) && (forall x | x in o.value.0 :: Sorted(x, lt)) && o.value.1 == r
  }

  ghost predicate FieldsReadAs(o: Option<(seq<(Text, Json)>, Text)>, fs: seq<(Text, Json)>, r: Text, lt: (Text, Text) -> bool) {
    o.Some? && SameFields(fs, o.value.0) && (forall f | f in o.value.0 :: Sorted(f.1, lt)) && o.value.1 == r
  }

  /** The canonical text of a value is JSON: a reader finds the same value, its keys sorted at every depth. */
  lemma {:induction false} TextsReadBack(v: Json, r: Text, lt: (Text, Text) -> bool)
    requires StrictTotal(lt) && Valid(v) && Ends(r)
    ensures ReadsAs(ReadValue(TextOf(v, lt) + r), v, r, lt)
    decreases v, 3, 0
  {
    hide ReadValue, TextOf, StrictTotal;
    match v {
      case Null => WordsReadBack(v, r, lt);
      case Bool(_) => WordsReadBack(v, r, lt);
      case Num(_) => NumbersReadBack(v, r, lt);
      case Str(_) => TextReadsBack(v, r, lt);
      case Arr(_) => ListsReadBack(v, r, lt);
      case Obj(_) => ObjectsReadBack(v, r, lt);
    }
  }

  lemma WordsReadBack(v: Json, r: Text, lt: (Text, Text) -> bool)
    requires v.Null? || v.Bool?
    ensures ReadValue(TextOf(v, lt) + r) == Some((v, r))
  {
    var w := TextOf(v, lt);
    var t := w + r;
    assert t[|w|..] == r;
    assert t[0] == w[0];
    if v.Null? {
      assert w == NULL_WORD;
    } else if v.value {
      assert w == TRUE_WORD;
    } else {
      assert w == FALSE_WORD;
    }
  }

  lemma TextReadsBack(v: Json, r: Text, lt: (Text, Text) -> bool)
    requires v.Str?
    ensures ReadValue(TextOf(v, lt) + r) == Some((v, r))
  {
    assert (Quoted(v.text) + r)[1..] == Unquoted(v.text) + r;
    StringsReadBack(v.text, r);
  }

  lemma NumbersReadBack(v: Json, r: Text, lt: (Text, Text) -> bool)
    requires v.Num? && Valid(v) && Ends(r)
    ensures ReadValue(TextOf(v, lt) + r) == Some((v, r))
  {
    var token := v.token;
    var t := token + r;
    assert token[0] in token && t[0] == token[0];
    assert NumberLength(t) == |token| by { NumberEnds(token, r); }
    assert t[..|token|] == token && t[|token|..] == r;
  }

  lemma NumberEnds(token: Text, r: Text)
    requires (forall u | u in token :: NumberUnit(u)) && Ends(r)
    ensures NumberLength(token + r) == |token|
  {
    var t := token + r;
    assert forall i | 0 <= i < |token| :: InNumber(t[i]) by {
      assert forall i | 0 <= i < |token| :: t[i] == token[i] && token[i] in token;
    }
    assert r != [] ==> t[|token|] == r[0];
  }

  lemma {:induction false} ListsReadBack(v: Json, r: Text, lt: (Text, Text) -> bool)
    requires StrictTotal(lt) && v.Arr? && Valid(v) && Ends(r)
    ensures ReadsAs(ReadValue(TextOf(v, lt) + r), v, r, lt)
    decreases v, 2, 0
  {
    var x := ItemsText(v, v.items, lt);
    var t := TextOf(v, lt) + r;
    ItemsStart(v, v.items, r, lt);
    assert t[0] == '[' as int && t[1..] == x + r && t[1] == (x + r)[0];
    if v.items == [] {
      assert t[2..] == r;
    } else {
      ItemsReadBack(v, v.items, r, lt);
    }
  }

  lemma LastItem(t: Text, x: Json, r: Text)
    requires ReadValue(t) == Some((x, [CLOSE_LIST] + r))
    ensures ReadItems(t) == Some(([x], r))
  {
    assert ([CLOSE_LIST] + r)[1..] == r;
  }

  lemma NextItem(t: Text, x: Json, q: Text)
    requires ReadValue(t) == Some((x, [COMMA] + q)) && ReadItems(q).Some?
    ensures ReadItems(t) == Some(([x] + ReadItems(q).value.0, ReadItems(q).value.1))
  {
    assert ([COMMA] + q)[1..] == q;
  }

  lemma SameWithOneMore(items: seq<Json>, x: Json, others: seq<Json>)
    requires items != [] && Same(items[0], x) && SameItems(items[1..], others)
    ensures SameItems(items, [x] + others)
  {
    assert forall i | 0 < i < |items| :: items[i] == items[1..][i - 1];
  }

  lemma {:induction false} ItemsReadBack(v: Json, items: seq<Json>, r: Text, lt: (Text, Text) -> bool)
    requires StrictTotal(lt) && items != [] && (forall x | x in items :: x < v && Valid(x))
    ensures ItemsReadAs(ReadItems(ItemsText(v, items, lt) + r), items, r, lt)
    decreases v, 1, |items|
  {
    hide ReadValue, ReadItems, Same, Sorted, TextOf;
    var rest := items[1..];
    assert items[0] in items && forall x | x in rest :: x in items;
    var t, more := ItemsText(v, items, lt) + r, MoreItems(v, rest, lt);
    assert t == TextOf(items[0], lt) + (more + r) by { Regroup(TextOf(items[0], lt), more, r); }
    TextsReadBack(items[0], more + r, lt);
    var x := ReadValue(t).value.0;
    if rest == [] {
      LastItem(t, x, r);
      SameWithOneMore(items, x, []);
    } else {
      var q := ItemsText(v, rest, lt) + r;
      assert more + r == [COMMA] + q;
      ItemsReadBack(v, rest, r, lt);
      NextItem(t, x, q);
      SameWithOneMore(items, x, ReadItems(q).value.0);
    }
  }

  lemma {:induction false} ObjectsReadBack(v: Json, r: Text, lt: (Text, Text) -> bool)
    requires StrictTotal(lt) && v.Obj? && Valid(v) && Ends(r)
    ensures ReadsAs(ReadValue(TextOf(v, lt) + r), v, r, lt)
    decreases v, 2, 0
  {
    hide ReadValue, ReadFields, TextOf, FieldsText, Same, Sorted, StrictTotal, SortFields;
    SortedHasSameFields(v.fields, lt);
    SortingOrders(v.fields, lt);
    var fs := SortFields(v.fields, lt);
    ObjectText(v, r, lt);
    if fs == [] {
      EmptyObject(r);
      SortedFieldsAreSame(v.fields, [], lt);
    } else {
      FieldsReadBack(v, fs, r, lt);
      var o := ReadFields(FieldsText(v, fs, lt) + r);
      NonEmptyObject(FieldsText(v, fs, lt) + r);
      SortedFieldsAreSame(v.fields, o.value.0, lt);
    }
  }

  lemma ObjectText(v: Json, r: Text, lt: (Text, Text) -> bool)
    requires v.Obj? && forall f | f in SortFields(v.fields, lt) :: f.1 < v
    ensures var fs := SortFields(v.fields, lt);
            && TextOf(v, lt) + r == [OPEN_OBJECT] + (FieldsText(v, fs, lt) + r)
            && (fs == [] ==> FieldsText(v, fs, lt) == [CLOSE_OBJECT])
  {
    Regroup([OPEN_OBJECT], FieldsText(v, SortFields(v.fields, lt), lt), r);
  }

  lemma EmptyObject(r: Text)
    ensures ReadValue([OPEN_OBJECT] + ([CLOSE_OBJECT] + r)) == Some((Obj([]), r))
  {
    var t := [OPEN_OBJECT] + ([CLOSE_OBJECT] + r);
    assert t[1] == CLOSE_OBJECT && t[2..] == r;
  }

  lemma NonEmptyObject(q: Text)
    requires ReadFields(q).Some?
    ensures ReadValue([OPEN_OBJECT] + q) == Some((Obj(ReadFields(q).value.0), ReadFields(q).value.1))
  {
    var t := [OPEN_OBJECT] + q;
    assert t[1..] == q && t[1] == q[0];
  }

  lemma SortedFieldsAreSame(fields: seq<(Text, Json)>, ws: seq<(Text, Json)>, lt: (Text, Text) -> bool)
    requires StrictTotal(lt) && DistinctKeys(fields) && SameFields(SortFields(fields, lt), ws)
    requires forall f | f in ws :: Sorted(f.1, lt)
    ensures Same(Obj(fields), Obj(ws)) && Sorted(Obj(ws), lt)
  {
    SortedHasSameFields(fields, lt);
    SameBySorting(fields, SortFields(fields, lt), ws, ws);
    SortingOrders(fields, lt);
  }

  lemma LastField(t: Text, f: (Text, Json), r: Text)
    requires ReadField(t) == Some((f, [CLOSE_OBJECT] + r))
    ensures ReadFields(t) == Some(([f], r))
  {
    assert ([CLOSE_OBJECT] + r)[1..] == r;
  }

  lemma NextField(t: Text, f: (Text, Json), q: Text)
    requires ReadField(t) == Some((f, [COMMA] + q)) && ReadFields(q).Some?
    requires forall g | g in ReadFields(q).value.0 :: g.0 != f.0
    ensures ReadFields(t) == Some(([f] + ReadFields(q).value.0, ReadFields(q).value.1))
  {
    assert ([COMMA] + q)[1..] == q;
  }

  lemma SameWithOneMoreField(fs: seq<(Text, Json)>, g: (Text, Json), gs: seq<(Text, Json)>)
    requires fs != [] && fs[0].0 == g.0 && Same(fs[0].1, g.1) && SameFields(fs[1..], gs)
    ensures SameFields(fs, [g] + gs)
  {
    hide Same;
    assert forall i | 0 < i < |fs| :: fs[i] == fs[1..][i - 1];
  }

  lemma KeyIsNew(fs: seq<(Text, Json)>, gs: seq<(Text, Json)>, lt: (Text, Text) -> bool)
    requires StrictTotal(lt) && InOrder(fs, lt) && fs != [] && SameFields(fs[1..], gs)
    ensures forall g | g in gs :: g.0 != fs[0].0
  {
    forall g | g in gs ensures g.0 != fs[0].0 {
      var k :| 0 <= k < |gs| && gs[k] == g;
      assert fs[1..][k] == fs[k + 1];
      assert lt(fs[0].0, fs[k + 1].0);
    }
  }

  lemma MoreAreBehindComma(v: Json, fs: seq<(Text, Json)>, r: Text, lt: (Text, Text) -> bool)
    requires forall f | f in fs :: f.1 < v
    ensures MoreFields(v, fs, lt) + r == if fs == [] then [CLOSE_OBJECT] + r else [COMMA] + (FieldsText(v, fs, lt) + r)
  {
    if fs != [] { Regroup([COMMA], FieldsText(v, fs, lt), r); }
  }

  lemma {:induction false} FieldsReadBack(v: Json, fs: seq<(Text, Json)>, r: Text, lt: (Text, Text) -> bool)
    requires StrictTotal(lt) && fs != [] && Below(v, fs) && InOrder(fs, lt)
    ensures FieldsReadAs(ReadFields(FieldsText(v, fs, lt) + r), fs, r, lt)
    decreases v, 1, |fs|, 1
  {
    hide ReadField, ReadFields, Same, Sorted, TextOf, FieldsText, MoreFields, StrictTotal, InOrder;
    BelowSplit(v, fs);
    var rest := fs[1..];
    var t := FieldsText(v, fs, lt) + r;
    FieldReadsBack(v, fs, r, lt);
    MoreAreBehindComma(v, rest, r, lt);
    var f := ReadField(t).value.0;
    if rest == [] {
      LastField(t, f, r);
      SameWithOneMoreField(fs, f, []);
    } else {
      var q := FieldsText(v, rest, lt) + r;
      LeadsTail(fs, lt);
      FieldsReadBack(v, rest, r, lt);
      KeyIsNew(fs, ReadFields(q).value.0, lt);
      NextField(t, f, q);
      SameWithOneMoreField(fs, f, ReadFields(q).value.0);
    }
  }

  lemma {:induction false} FieldReadsBack(v: Json, fs: seq<(Text, Json)>, r: Text, lt: (Text, Text) -> bool)
    requires StrictTotal(lt) && fs != [] && Below(v, fs)
    ensures var o := ReadField(FieldsText(v, fs, lt) + r);
            && o.Some? && o.value.0.0 == fs[0].0 && Same(fs[0].1, o.value.0.1) && Sorted(o.value.0.1, lt)
            && o.value.1 == MoreFields(v, fs[1..], lt) + r
    decreases v, 1, |fs|, 0
  {
    BelowSplit(v, fs);
    var text, more := TextOf(fs[0].1, lt), MoreFields(v, fs[1..], lt);
    var q := text + (more + r);
    TextsReadBack(fs[0].1, more + r, lt);
    assert FieldsText(v, fs, lt) + r == Pair(fs[0].0, q) by { PairThen(fs[0].0, text, more, r); }
    PairReadsBack(fs[0].0, q);
  }

  lemma PairThen(key: Text, text: Text, more: Text, r: Text)
    ensures Pair(key, text + more) + r == Pair(key, text + (more + r))
  {
    Regroup(text, more, r);
    Regroup([COLON], text + more, r);
    Regroup(Quoted(key), [COLON] + (text + more), r);
  }

  lemma PairReadsBack(key: Text, q: Text)
    requires ReadValue(q).Some?
    ensures ReadField(Pair(key, q)) == Some(((key, ReadValue(q).value.0), ReadValue(q).value.1))
  {
    var after := [COLON] + q;
    assert Pair(key, q)[1..] == Unquoted(key) + after;
    StringsReadBack(key, after);
    assert after[1..] == q;
  }

  // ---------------------------------------------------------------- what can be read

  /** Every value that a reader finds in any text is one that the serializer's laws are about. */
  lemma {:induction false} ReadValuesAreValid(t: Text)
    ensures ReadValue(t).Some? ==> Valid(ReadValue(t).value.0)
    decreases |t|, 1
  {
    if |t| > 1 && ReadValue(t).Some? {
      if t[0] == '[' as int && t[1] != ']' as int {
        ReadItemsAreValid(t[1..]);
      } else if t[0] == '{' as int && t[1] != '}' as int {
        ReadFieldsAreValid(t[1..]);
      }
    }
  }

  lemma {:induction false} ReadItemsAreValid(t: Text)
    ensures ReadItems(t).Some? ==> forall x | x in ReadItems(t).value.0 :: Valid(x)
    decreases |t|, 2
  {
    ReadValuesAreValid(t);
    if ReadItems(t).Some? && ReadValue(t).value.1[0] == COMMA { ReadItemsAreValid(ReadValue(t).value.1[1..]); }
  }

  lemma {:induction false} ReadFieldsAreValid(t: Text)
    ensures ReadFields(t).Some? ==> Valid(Obj(ReadFields(t).value.0))
    decreases |t|, 3
  {
    if ReadFields(t).Some? {
      var f := ReadField(t).value;
      ReadValuesAreValid(ReadString(t[1..]).value.1[1..]);
      if f.1[0] == COMMA { ReadFieldsAreValid(f.1[1..]); }
    }
  }

  // ---------------------------------------------------------------- the serializer

  /**
   A serialized text is JSON for the value it was made from: some value of equal meaning, with sorted
   keys, is what a reader finds in it and nothing is left over.
   */
  lemma CanonicalReadsBack(v: Json, lt: (Text, Text) -> bool)
    requires StrictTotal(lt) && Valid(v)
    ensures CanonicalVps(v, lt).Some? && ReadsAs(ReadValue(CanonicalVps(v, lt).value), v, [], lt)
  {
    ValidIsDefined(v);
    TextsReadBack(v, [], lt);
    assert TextOf(v, lt) + [] == TextOf(v, lt);
  }

  /** Refused exactly where something is `undefined`, at any depth. */
  lemma RefusedExactly(v: Json, lt: (Text, Text) -> bool)
    ensures CanonicalVps(v, lt).None? <==>
            || v.Undefined?
            || (v.Arr? && exists x | x in v.items :: CanonicalVps(x, lt).None?)
            || (v.Obj? && exists f | f in v.fields :: CanonicalVps(f.1, lt).None?)
  {
    if v.Arr? {
      assert forall x | x in v.items :: CanonicalVps(x, lt).None? <==> HasUndefined(x);
    }
    if v.Obj? {
      assert forall f | f in v.fields :: CanonicalVps(f.1, lt).None? <==> HasUndefined(f.1);
    }
  }
}
