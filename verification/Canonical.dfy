// The canonical text that consent is bound to (trigger/src/tools/registry.ts, deskhand/tools/base.py):
// JSON with the keys of every object sorted, over UTF-16 code units, and a parser that undoes it (RFC
// 8259).
module Canonical {
  import opened Base

  type Unit = u: int | 0 <= u < 0x10000

  type Text = seq<Unit>

  // A JavaScript value as `stableStringify` meets it. A finite number is its shortest numeral.
  datatype Json =
    | Null
    | Undefined
    | Bool(b: bool)
    | Num(numeral: Text)
    | Str(text: Text)
    | Arr(items: Items)
    | Obj(fields: Fields)

  datatype Items = Nil | Cons(head: Json, tail: Items)

  // The entries of an object in the order it was built.
  datatype Fields = End | Field(key: Text, value: Json, rest: Fields)

  // The two serialisers. `stableStringify` sorts keys by code unit and escapes what JSON requires; Python's
  // `json.dumps` sorts them by code point and escapes everything outside printable ASCII.
  datatype Style = JavaScript | Python

  const QUOTE: Unit := 34
  const COMMA: Unit := 44
  const COLON: Unit := 58
  const BACKSLASH: Unit := 92
  const LBRACKET: Unit := 91
  const RBRACKET: Unit := 93
  const LBRACE: Unit := 123
  const RBRACE: Unit := 125
  const NULL: Text := [110, 117, 108, 108]
  const TRUE: Text := [116, 114, 117, 101]
  const FALSE: Text := [102, 97, 108, 115, 101]

  predicate Digit(u: Unit) { 48 <= u <= 57 }

  // Characters of a numeral: digits, sign, point and exponent.
  predicate NumChar(u: Unit) { Digit(u) || u == 45 || u == 43 || u == 46 || u == 101 || u == 69 }

  predicate IsNumeral(t: Text) { t != [] && (Digit(t[0]) || t[0] == 45) && forall i :: 0 <= i < |t| ==> NumChar(t[i]) }

  function Keys(f: Fields): set<Text> { if f.End? then {} else {f.key} + Keys(f.rest) }

  // Numerals are numerals and an object has each key once.
  predicate WellFormed(v: Json) {
    match v
    case Num(t) => IsNumeral(t)
    case Arr(items) => WellFormedItems(items)
    case Obj(fields) => WellFormedFields(fields)
    case _ => true
  }

  predicate WellFormedItems(items: Items) { items.Nil? || (WellFormed(items.head) && WellFormedItems(items.tail)) }

  predicate WellFormedFields(f: Fields) {
    f.End? || (WellFormed(f.value) && f.key !in Keys(f.rest) && WellFormedFields(f.rest))
  }

  // ---------------------------------------------------------------- what it means

  // A value without the order in which its objects were built: `undefined` is no entry of an object,
  // and `null` elsewhere.
  datatype Meaning = MNull | MBool(b: bool) | MNum(numeral: Text) | MStr(text: Text) | MArr(items: seq<Meaning>) | MObj(fields: map<Text, Meaning>)

  function Means(v: Json): Meaning {
    match v
    case Null => MNull
    case Undefined => MNull
    case Bool(b) => MBool(b)
    case Num(t) => MNum(t)
    case Str(t) => MStr(t)
    case Arr(items) => MArr(ItemsMean(items))
    case Obj(fields) => MObj(FieldsMean(fields))
  }

  function ItemsMean(items: Items): seq<Meaning> {
    if items.Nil? then [] else [Means(items.head)] + ItemsMean(items.tail)
  }

  function FieldsMean(f: Fields): map<Text, Meaning> {
    if f.End? then map[]
    else if f.value.Undefined? then FieldsMean(f.rest)
    else FieldsMean(f.rest)[f.key := Means(f.value)]
  }

  // -------------------------------------------------------------- serialisation

  predicate High(u: Unit) { 0xD800 <= u <= 0xDBFF }

  predicate Low(u: Unit) { 0xDC00 <= u <= 0xDFFF }

  // Surrogates stand for the code points above all others.
  function Weight(st: Style, u: Unit): int { if st.Python? && (High(u) || Low(u)) then u + 0x10000 else u }

  // `a < b` on strings: by code units, or by the code points they spell.
  predicate Less(st: Style, a: Text, b: Text) {
    b != [] && (a == [] || Weight(st, a[0]) < Weight(st, b[0]) || (a[0] == b[0] && Less(st, a[1..], b[1..])))
  }

  function Insert(st: Style, key: Text, value: Json, f: Fields): Fields {
    if f.End? || Less(st, key, f.key) then Field(key, value, f)
    else Field(f.key, f.value, Insert(st, key, value, f.rest))
  }

  // The value with `undefined` dropped or made `null`, and keys sorted at every depth.
  function Canon(st: Style, v: Json): Json {
    match v
    case Undefined => Null
    case Arr(items) => Arr(CanonItems(st, items))
    case Obj(fields) => Obj(CanonFields(st, fields))
    case _ => v
  }

  function CanonItems(st: Style, items: Items): Items {
    if items.Nil? then Nil else Cons(Canon(st, items.head), CanonItems(st, items.tail))
  }

  function CanonFields(st: Style, f: Fields): Fields {
    if f.End? then End
    else if f.value.Undefined? then CanonFields(st, f.rest)
    else Insert(st, f.key, Canon(st, f.value), CanonFields(st, f.rest))
  }

  function Hex(d: int): Unit
    requires 0 <= d < 16
  {
    if d < 10 then 48 + d else 87 + d
  }

  function Escaped(u: Unit): Text {
    [BACKSLASH, 117, Hex(u / 4096), Hex(u / 256 % 16), Hex(u / 16 % 16), Hex(u % 16)]
  }

  // Whether a code unit is written as a \u escape: a control character; in JavaScript a surrogate without
  // its partner, in Python everything that is not printable ASCII.
  predicate NeedsEscape(st: Style, u: Unit) {
    match st
    case JavaScript => u < 32 || High(u) || Low(u)
    case Python => u < 32 || u > 126
  }

  // `JSON.stringify` and `json.dumps` on one code unit: the two-character escapes, \u escapes, and
  // everything else as it is.
  function EscapeUnit(st: Style, u: Unit): Text {
    if u == QUOTE || u == BACKSLASH then [BACKSLASH, u]
    else if u == 8 then [BACKSLASH, 98]
    else if u == 9 then [BACKSLASH, 116]
    else if u == 10 then [BACKSLASH, 110]
    else if u == 12 then [BACKSLASH, 102]
    else if u == 13 then [BACKSLASH, 114]
    else if NeedsEscape(st, u) then Escaped(u)
    else [u]
  }

  function EscapeText(st: Style, s: Text): Text {
    if s == [] then []
    else if st.JavaScript? && |s| > 1 && High(s[0]) && Low(s[1]) then [s[0], s[1]] + EscapeText(st, s[2..])
    else EscapeUnit(st, s[0]) + EscapeText(st, s[1..])
  }

  function Quoted(st: Style, s: Text): Text { [QUOTE] + EscapeText(st, s) + [QUOTE] }

  function Render(st: Style, v: Json): Text {
    match v
    case Null => NULL
    case Undefined => NULL
    case Bool(b) => if b then TRUE else FALSE
    case Num(t) => t
    case Str(t) => Quoted(st, t)
    case Arr(items) => [LBRACKET] + RenderItems(st, items) + [RBRACKET]
    case Obj(fields) => [LBRACE] + RenderFields(st, fields) + [RBRACE]
  }

  function RenderItems(st: Style, items: Items): Text {
    if items.Nil? then []
    else if items.tail.Nil? then Render(st, items.head)
    else Render(st, items.head) + [COMMA] + RenderItems(st, items.tail)
  }

  function Member(st: Style, key: Text, value: Text): Text { Quoted(st, key) + [COLON] + value }

  function RenderFields(st: Style, f: Fields): Text {
    if f.End? then []
    else if f.rest.End? then Member(st, f.key, Render(st, f.value))
    else Member(st, f.key, Render(st, f.value)) + [COMMA] + RenderFields(st, f.rest)
  }

  // `stableStringify`, and `json.dumps` with sorted keys and no spaces.
  function Stringify(st: Style, v: Json): Text { Render(st, Canon(st, v)) }

  // ----------------------------------------------------------------- the parser

  function Unhex(u: Unit): Option<int> {
    if 48 <= u <= 57 then Some(u - 48)
    else if 97 <= u <= 102 then Some(u - 87)
    else if 65 <= u <= 70 then Some(u - 55)
    else None
  }

  // The escape after a backslash (section 7 of RFC 8259).
  function ParseEscape(s: Text): (r: Option<(Unit, Text)>)
    ensures r.Some? ==> |r.value.1| < |s|
  {
    if s == [] then None
    else if s[0] == QUOTE || s[0] == BACKSLASH || s[0] == 47 then Some((s[0], s[1..]))
    else if s[0] == 98 then Some((8, s[1..]))
    else if s[0] == 102 then Some((12, s[1..]))
    else if s[0] == 110 then Some((10, s[1..]))
    else if s[0] == 114 then Some((13, s[1..]))
    else if s[0] == 116 then Some((9, s[1..]))
    else if s[0] == 117 && |s| > 4 then
      match (Unhex(s[1]), Unhex(s[2]), Unhex(s[3]), Unhex(s[4]))
      case (Some(a), Some(b), Some(c), Some(d)) =>
        if 0 <= a < 16 && 0 <= b < 16 && 0 <= c < 16 && 0 <= d < 16 then Some((a * 4096 + b * 256 + c * 16 + d, s[5..])) else None
      case _ => None
    else None
  }

  // The rest of a string, up to its closing quote.
  function ParseChars(s: Text): (r: Option<(Text, Text)>)
    ensures r.Some? ==> |r.value.1| < |s|
    decreases |s|
  {
    if s == [] || s[0] < 32 then None
    else if s[0] == QUOTE then Some(([], s[1..]))
    else if s[0] == BACKSLASH then
      match ParseEscape(s[1..])
      case None => None
      case Some((u, rest)) =>
        (match ParseChars(rest) case None => None case Some((t, after)) => Some(([u] + t, after)))
    else
      match ParseChars(s[1..])
      case None => None
      case Some((t, after)) => Some(([s[0]] + t, after))
  }

  function NumeralLength(s: Text): (n: nat)
    ensures n <= |s|
  {
    if s == [] || !NumChar(s[0]) then 0 else 1 + NumeralLength(s[1..])
  }

  function Parse(s: Text): (r: Option<(Json, Text)>)
    ensures r.Some? ==> |r.value.1| < |s|
    decreases |s|, 1
  {
    if s == [] then None
    else if NULL <= s then Some((Null, s[4..]))
    else if TRUE <= s then Some((Bool(true), s[4..]))
    else if FALSE <= s then Some((Bool(false), s[5..]))
    else if s[0] == QUOTE then
      match ParseChars(s[1..])
      case None => None
      case Some((t, rest)) => Some((Str(t), rest))
    else if s[0] == LBRACKET then
      if |s| > 1 && s[1] == RBRACKET then Some((Arr(Nil), s[2..]))
      else (match ParseItems(s[1..]) case None => None case Some((items, rest)) => Some((Arr(items), rest)))
    else if s[0] == LBRACE then
      if |s| > 1 && s[1] == RBRACE then Some((Obj(End), s[2..]))
      else (match ParseFields(s[1..]) case None => None case Some((fields, rest)) => Some((Obj(fields), rest)))
    else if Digit(s[0]) || s[0] == 45 then Some((Num(s[..NumeralLength(s)]), s[NumeralLength(s)..]))
    else None
  }

  // Items and the closing bracket; at least one.
  function ParseItems(s: Text): (r: Option<(Items, Text)>)
    ensures r.Some? ==> |r.value.1| < |s|
    decreases |s|, 2
  {
    match Parse(s)
    case None => None
    case Some((v, rest)) =>
      if rest == [] then None
      else if rest[0] == RBRACKET then Some((Cons(v, Nil), rest[1..]))
      else if rest[0] != COMMA then None
      else (match ParseItems(rest[1..]) case None => None case Some((more, after)) => Some((Cons(v, more), after)))
  }

  function ParseFields(s: Text): (r: Option<(Fields, Text)>)
    ensures r.Some? ==> |r.value.1| < |s|
    decreases |s|, 2
  {
    if s == [] || s[0] != QUOTE then None
    else
      match ParseChars(s[1..])
      case None => None
      case Some((key, afterKey)) =>
        if afterKey == [] || afterKey[0] != COLON then None
        else
          match Parse(afterKey[1..])
          case None => None
          case Some((v, rest)) =>
            if rest == [] then None
            else if rest[0] == RBRACE then Some((Field(key, v, End), rest[1..]))
            else if rest[0] != COMMA then None
            else (match ParseFields(rest[1..]) case None => None case Some((more, after)) => Some((Field(key, v, more), after)))
  }

  // -------------------------------------------------------- the parser undoes it

  lemma {:induction false} HexBack(d: int)
    requires 0 <= d < 16
    ensures Unhex(Hex(d)) == Some(d)
  {
  }

  lemma {:induction false} FourDigits(u: Unit)
    ensures 0 <= u / 4096 < 16 && 0 <= u / 256 % 16 < 16 && 0 <= u / 16 % 16 < 16 && 0 <= u % 16 < 16
    ensures u / 4096 * 4096 + u / 256 % 16 * 256 + u / 16 % 16 * 16 + u % 16 == u
  {
  }

  lemma {:induction false} DigitsBack(a: int, b: int, c: int, d: int, u: Unit, rest: Text)
    requires 0 <= a < 16 && 0 <= b < 16 && 0 <= c < 16 && 0 <= d < 16 && a * 4096 + b * 256 + c * 16 + d == u
    ensures ParseEscape([117, Hex(a), Hex(b), Hex(c), Hex(d)] + rest) == Some((u, rest))
  {
    HexBack(a);
    HexBack(b);
    HexBack(c);
    HexBack(d);
    var s := [117, Hex(a), Hex(b), Hex(c), Hex(d)] + rest;
    assert s[0] == 117 && s[1] == Hex(a) && s[2] == Hex(b) && s[3] == Hex(c) && s[4] == Hex(d) && s[5..] == rest;
    hide Hex, Unhex;
  }

  lemma {:induction false} EscapedBack(u: Unit, rest: Text)
    ensures ParseEscape(Escaped(u)[1..] + rest) == Some((u, rest))
  {
    FourDigits(u);
    DigitsBack(u / 4096, u / 256 % 16, u / 16 % 16, u % 16, u, rest);
    hide Hex, ParseEscape;
    assert Escaped(u)[1..] == [117, Hex(u / 4096), Hex(u / 256 % 16), Hex(u / 16 % 16), Hex(u % 16)];
  }

  // One code unit comes back from its escape.
  lemma {:induction false} UnitBack(st: Style, u: Unit, rest: Text)
    ensures ParseChars(EscapeUnit(st, u) + rest)
            == match ParseChars(rest) case None => None case Some((t, after)) => Some(([u] + t, after))
  {
    var s := EscapeUnit(st, u) + rest;
    if EscapeUnit(st, u) == [u] {
      assert s[1..] == rest;
    } else {
      assert s[0] == BACKSLASH;
      assert s[1..] == EscapeUnit(st, u)[1..] + rest;
      if EscapeUnit(st, u) == Escaped(u) {
        EscapedBack(u, rest);
      } else {
        assert s[1..][1..] == rest;
      }
    }
  }

  lemma {:induction false} VerbatimBack(u: Unit, rest: Text)
    requires u >= 32 && u != QUOTE && u != BACKSLASH
    ensures ParseChars([u] + rest)
            == match ParseChars(rest) case None => None case Some((t, after)) => Some(([u] + t, after))
  {
    assert ([u] + rest)[1..] == rest;
  }

  lemma {:induction false} EndBack(rest: Text)
    ensures ParseChars([QUOTE] + rest) == Some(([], rest))
  {
    assert ([QUOTE] + rest)[1..] == rest;
  }

  // One more piece of text in front.
  lemma {:induction false} PieceBack(piece: Text, escaped: Text, s: Text, more: Text, rest: Text)
    requires ParseChars(escaped + (more + [QUOTE] + rest)) == Some((piece + s, rest))
    ensures ParseChars(escaped + more + [QUOTE] + rest) == Some((piece + s, rest))
  {
    hide ParseChars;
    assert escaped + more + [QUOTE] + rest == escaped + (more + [QUOTE] + rest);
  }

  lemma {:induction false} CharsBack(st: Style, s: Text, rest: Text)
    ensures ParseChars(EscapeText(st, s) + [QUOTE] + rest) == Some((s, rest))
    decreases |s|
  {
    hide ParseChars, EscapeUnit;
    if s == [] {
      EndBack(rest);
      assert EscapeText(st, s) + [QUOTE] + rest == [QUOTE] + rest;
    } else if st.JavaScript? && |s| > 1 && High(s[0]) && Low(s[1]) {
      var more := EscapeText(st, s[2..]);
      CharsBack(st, s[2..], rest);
      assert EscapeText(st, s) == [s[0], s[1]] + more;
      hide EscapeText;
      VerbatimBack(s[1], more + [QUOTE] + rest);
      VerbatimBack(s[0], [s[1]] + (more + [QUOTE] + rest));
      assert [s[0]] + ([s[1]] + (more + [QUOTE] + rest)) == [s[0], s[1]] + (more + [QUOTE] + rest);
      assert [s[0]] + ([s[1]] + s[2..]) == [s[0], s[1]] + s[2..] == s;
      PieceBack([s[0], s[1]], [s[0], s[1]], s[2..], more, rest);
    } else {
      var more := EscapeText(st, s[1..]);
      CharsBack(st, s[1..], rest);
      assert EscapeText(st, s) == EscapeUnit(st, s[0]) + more;
      hide EscapeText;
      UnitBack(st, s[0], more + [QUOTE] + rest);
      PieceBack([s[0]], EscapeUnit(st, s[0]), s[1..], more, rest);
      assert [s[0]] + s[1..] == s;
    }
  }

  lemma {:induction false} NumeralEnds(t: Text, rest: Text)
    requires (forall i :: 0 <= i < |t| ==> NumChar(t[i])) && (rest == [] || !NumChar(rest[0]))
    ensures NumeralLength(t + rest) == |t|
  {
    if t == [] {
      assert t + rest == rest;
    } else {
      assert (t + rest)[1..] == t[1..] + rest;
      NumeralEnds(t[1..], rest);
    }
  }

  // No `undefined` left anywhere.
  predicate Plain(v: Json) {
    match v
    case Undefined => false
    case Num(t) => IsNumeral(t)
    case Arr(items) => PlainItems(items)
    case Obj(fields) => PlainFields(fields)
    case _ => true
  }

  predicate PlainItems(items: Items) { items.Nil? || (Plain(items.head) && PlainItems(items.tail)) }

  predicate PlainFields(f: Fields) { f.End? || (Plain(f.value) && PlainFields(f.rest)) }

  // What may follow a value: nothing that could be read as more of a numeral.
  predicate Closed(rest: Text) { rest == [] || !NumChar(rest[0]) }

  lemma {:induction false} StartsValue(st: Style, v: Json)
    requires Plain(v)
    ensures Render(st, v) != [] && Render(st, v)[0] != RBRACKET && Render(st, v)[0] != RBRACE
  {
  }

  lemma {:induction false} QuotedBack(st: Style, s: Text, rest: Text)
    ensures var q := Quoted(st, s) + rest;
            q[0] == QUOTE && ParseChars(q[1..]) == Some((s, rest))
  {
    CharsBack(st, s, rest);
    assert (Quoted(st, s) + rest)[1..] == EscapeText(st, s) + [QUOTE] + rest;
  }

  lemma {:induction false} ValueBack(st: Style, v: Json, rest: Text)
    requires Plain(v) && Closed(rest)
    ensures Parse(Render(st, v) + rest) == Some((v, rest))
    decreases v, 1
  {
    var s := Render(st, v) + rest;
    match v
    case Null => assert s[4..] == rest;
    case Bool(b) =>
      assert (if b then TRUE else FALSE) <= s && s[0] == (if b then 116 else 102);
      assert s[|Render(st, v)|..] == rest;
    case Num(t) =>
      NumeralEnds(t, rest);
      assert s[0] == t[0] && s[..|t|] == t && s[|t|..] == rest;
    case Str(t) => QuotedBack(st, t, rest);
    case Arr(items) => ArrayBack(st, items, rest);
    case Obj(fields) => ObjectBack(st, fields, rest);
  }

  lemma {:induction false} ArrayBack(st: Style, items: Items, rest: Text)
    requires PlainItems(items)
    ensures Parse([LBRACKET] + RenderItems(st, items) + [RBRACKET] + rest) == Some((Arr(items), rest))
    decreases items, 3
  {
    var s := [LBRACKET] + RenderItems(st, items) + [RBRACKET] + rest;
    if items.Nil? {
      assert s[2..] == rest;
    } else {
      var body := RenderItems(st, items) + [RBRACKET] + rest;
      assert s[1..] == body;
      StartsValue(st, items.head);
      assert body[0] == Render(st, items.head)[0];
      ItemsBack(st, items, rest);
    }
  }

  lemma {:induction false} LastItem(s: Text, v: Json, rest: Text)
    requires Parse(s) == Some((v, [RBRACKET] + rest))
    ensures ParseItems(s) == Some((Cons(v, Nil), rest))
  {
    hide Parse;
    assert ([RBRACKET] + rest)[1..] == rest;
  }

  lemma {:induction false} AnotherItem(s: Text, v: Json, more: Text, items: Items, rest: Text)
    requires Parse(s) == Some((v, [COMMA] + more)) && ParseItems(more) == Some((items, rest))
    ensures ParseItems(s) == Some((Cons(v, items), rest))
  {
    hide Parse;
    assert ([COMMA] + more)[1..] == more;
  }

  lemma {:induction false} ItemsBack(st: Style, items: Items, rest: Text)
    requires PlainItems(items) && items.Cons?
    ensures ParseItems(RenderItems(st, items) + [RBRACKET] + rest) == Some((items, rest))
    decreases items, 2
  {
    hide Parse, ParseItems, Render;
    var s := RenderItems(st, items) + [RBRACKET] + rest;
    if items.tail.Nil? {
      ValueBack(st, items.head, [RBRACKET] + rest);
      assert s == Render(st, items.head) + ([RBRACKET] + rest);
      LastItem(s, items.head, rest);
    } else {
      var more := RenderItems(st, items.tail) + [RBRACKET] + rest;
      ValueBack(st, items.head, [COMMA] + more);
      ItemsBack(st, items.tail, rest);
      assert s == Render(st, items.head) + ([COMMA] + more);
      AnotherItem(s, items.head, more, items.tail, rest);
    }
  }

  lemma {:induction false} ReadsObject(body: Text, fields: Fields, rest: Text)
    requires body != [] && body[0] == QUOTE && ParseFields(body) == Some((fields, rest))
    ensures Parse([LBRACE] + body) == Some((Obj(fields), rest))
  {
    hide ParseFields, ParseChars, ParseItems;
    var s := [LBRACE] + body;
    assert s[1..] == body && s[1] == QUOTE;
  }

  lemma {:induction false} ReadsEmptyObject(rest: Text)
    ensures Parse([LBRACE] + [RBRACE] + rest) == Some((Obj(End), rest))
  {
    hide ParseFields, ParseChars, ParseItems;
    var s := [LBRACE] + [RBRACE] + rest;
    assert s[1] == RBRACE && s[2..] == rest;
  }

  lemma {:induction false} ObjectBack(st: Style, fields: Fields, rest: Text)
    requires PlainFields(fields)
    ensures Parse([LBRACE] + RenderFields(st, fields) + [RBRACE] + rest) == Some((Obj(fields), rest))
    decreases fields, 3
  {
    hide Parse, ParseFields, PlainFields;
    if fields.End? {
      assert RenderFields(st, fields) == [];
      assert [LBRACE] + RenderFields(st, fields) + [RBRACE] + rest == [LBRACE] + [RBRACE] + rest;
      ReadsEmptyObject(rest);
    } else {
      var body := RenderFields(st, fields) + [RBRACE] + rest;
      assert [LBRACE] + RenderFields(st, fields) + [RBRACE] + rest == [LBRACE] + body;
      FieldsBack(st, fields, rest);
      ReadsObject(body, fields, rest);
    }
  }

  // A member: a key, a colon and a value.
  ghost predicate ReadsMember(s: Text, key: Text, v: Json, after: Text) {
    && s != [] && s[0] == QUOTE && ParseChars(s[1..]).Some?
    && var (k, rest) := ParseChars(s[1..]).value;
       k == key && rest != [] && rest[0] == COLON && Parse(rest[1..]) == Some((v, after))
  }

  lemma {:induction false} MemberBack(st: Style, key: Text, v: Json, after: Text)
    requires Plain(v) && Closed(after)
    ensures ReadsMember(Member(st, key, Render(st, v)) + after, key, v, after)
    decreases v, 2
  {
    hide Parse, ParseChars, Render, EscapeText;
    var tail := [COLON] + Render(st, v) + after;
    QuotedBack(st, key, tail);
    ValueBack(st, v, after);
    assert Member(st, key, Render(st, v)) + after == Quoted(st, key) + tail;
    assert tail[1..] == Render(st, v) + after;
  }

  lemma {:induction false} LastMember(s: Text, key: Text, v: Json, rest: Text)
    requires ReadsMember(s, key, v, [RBRACE] + rest)
    ensures ParseFields(s) == Some((Field(key, v, End), rest))
  {
    hide Parse, ParseChars;
    assert ([RBRACE] + rest)[1..] == rest;
  }

  lemma {:induction false} AnotherMember(s: Text, key: Text, v: Json, more: Text, fields: Fields, rest: Text)
    requires ReadsMember(s, key, v, [COMMA] + more) && ParseFields(more) == Some((fields, rest))
    ensures ParseFields(s) == Some((Field(key, v, fields), rest))
  {
    hide Parse, ParseChars;
    assert ([COMMA] + more)[1..] == more;
  }

  lemma {:induction false} FieldsBack(st: Style, f: Fields, rest: Text)
    requires PlainFields(f) && f.Field?
    ensures ParseFields(RenderFields(st, f) + [RBRACE] + rest) == Some((f, rest))
    decreases f, 2
  {
    hide Parse, ParseFields, Render, Member, ReadsMember;
    var s := RenderFields(st, f) + [RBRACE] + rest;
    if f.rest.End? {
      MemberBack(st, f.key, f.value, [RBRACE] + rest);
      assert s == Member(st, f.key, Render(st, f.value)) + ([RBRACE] + rest);
      LastMember(s, f.key, f.value, rest);
    } else {
      var more := RenderFields(st, f.rest) + [RBRACE] + rest;
      MemberBack(st, f.key, f.value, [COMMA] + more);
      FieldsBack(st, f.rest, rest);
      assert s == Member(st, f.key, Render(st, f.value)) + ([COMMA] + more);
      AnotherMember(s, f.key, f.value, more, f.rest, rest);
    }
  }

  // ------------------------------------------------- the canonical form is unique

  lemma {:induction false} LessNotSelf(st: Style, a: Text)
    ensures !Less(st, a, a)
  {
    if a != [] {
      LessNotSelf(st, a[1..]);
    }
  }

  lemma {:induction false} LessTotal(st: Style, a: Text, b: Text)
    ensures Less(st, a, b) || a == b || Less(st, b, a)
    ensures !(Less(st, a, b) && Less(st, b, a)) && !Less(st, a, a)
  {
    LessNotSelf(st, a);
    if a != [] && b != [] {
      assert a == [a[0]] + a[1..] && b == [b[0]] + b[1..];
      LessTotal(st, a[1..], b[1..]);
    }
  }

  lemma {:induction false} LessTrans(st: Style, a: Text, b: Text, c: Text)
    requires Less(st, a, b) && Less(st, b, c)
    ensures Less(st, a, c)
  {
    if a != [] {
      if a[0] == b[0] == c[0] {
        LessTrans(st, a[1..], b[1..], c[1..]);
      }
    }
  }

  // One string comes before another when it is a proper beginning of it, or is lighter where they first
  // differ.
  lemma {:induction false} LessIs(st: Style, a: Text, b: Text)
    ensures Less(st, a, b) <==>
              exists i :: 0 <= i <= |a| && i < |b| && a[..i] == b[..i] && (i == |a| || Weight(st, a[i]) < Weight(st, b[i]))
  {
    hide Weight;
    if Less(st, a, b) {
      var i := LessFirstAt(st, a, b);
    }
    if i :| 0 <= i <= |a| && i < |b| && a[..i] == b[..i] && (i == |a| || Weight(st, a[i]) < Weight(st, b[i])) {
      LessFrom(st, a, b, i);
    }
  }

  lemma {:induction false} LessFirstAt(st: Style, a: Text, b: Text) returns (i: nat)
    requires Less(st, a, b)
    ensures i <= |a| && i < |b| && a[..i] == b[..i] && (i == |a| || Weight(st, a[i]) < Weight(st, b[i]))
  {
    hide Weight;
    if a == [] || Weight(st, a[0]) < Weight(st, b[0]) {
      i := 0;
    } else {
      i := LessFirstAt(st, a[1..], b[1..]);
      i := i + 1;
      assert a[..i] == [a[0]] + a[1..][..i - 1] && b[..i] == [b[0]] + b[1..][..i - 1];
    }
  }

  lemma {:induction false} LessFrom(st: Style, a: Text, b: Text, i: nat)
    requires i <= |a| && i < |b| && a[..i] == b[..i] && (i == |a| || Weight(st, a[i]) < Weight(st, b[i]))
    ensures Less(st, a, b)
  {
    hide Weight;
    if i > 0 {
      assert a[0] == a[..i][0] && b[0] == b[..i][0];
      assert a[1..][..i - 1] == a[..i][1..] && b[1..][..i - 1] == b[..i][1..];
      LessFrom(st, a[1..], b[1..], i - 1);
    }
  }

  // The code point a pair of surrogates spells.
  function Paired(high: int, low: int): int { 0x10000 + (high - 0xD800) * 0x400 + (low - 0xDC00) }

  // The code points a text spells.
  function Points(t: Text): seq<int> {
    if t == [] then []
    else if |t| > 1 && High(t[0]) && Low(t[1]) then [Paired(t[0], t[1])] + Points(t[2..])
    else [t[0]] + Points(t[1..])
  }

  // Every surrogate has its partner.
  predicate Whole(t: Text) {
    t == [] || (if High(t[0]) then |t| > 1 && Low(t[1]) && Whole(t[2..]) else !Low(t[0]) && Whole(t[1..]))
  }

  predicate PointsLess(a: seq<int>, b: seq<int>) {
    b != [] && (a == [] || a[0] < b[0] || (a[0] == b[0] && PointsLess(a[1..], b[1..])))
  }

  lemma {:induction false} PointsOf(t: Text)
    requires Whole(t) && t != []
    ensures var p := Points(t);
            p != [] && if High(t[0]) then p[1..] == Points(t[2..]) && p[0] == Paired(t[0], t[1])
                       else p[1..] == Points(t[1..]) && p[0] == t[0]
  {
    if High(t[0]) {
      assert ([Points(t)[0]] + Points(t[2..]))[1..] == Points(t[2..]);
    } else {
      assert ([t[0]] + Points(t[1..]))[1..] == Points(t[1..]);
    }
  }

  // Python orders keys by the code points they spell.
  lemma {:induction false} PythonOrdersByCodePoint(a: Text, b: Text)
    requires Whole(a) && Whole(b)
    ensures Less(Python, a, b) <==> PointsLess(Points(a), Points(b))
    decreases |a|
  {
    hide Points;
    if a == [] || b == [] {
      NoPoints(a);
      NoPoints(b);
    } else {
      PointsOf(a);
      PointsOf(b);
      if High(a[0]) && High(b[0]) {
        if a[0] == b[0] && a[1] == b[1] {
          PythonOrdersByCodePoint(a[2..], b[2..]);
          assert a[1..][1..] == a[2..] && b[1..][1..] == b[2..];
        }
      } else if !High(a[0]) && !High(b[0]) && a[0] == b[0] {
        PythonOrdersByCodePoint(a[1..], b[1..]);
      }
    }
  }

  lemma {:induction false} NoPoints(t: Text)
    ensures Points(t) == [] <==> t == []
  {
  }

  // ------------------------------------------------------------ what is escaped

  predicate Printable(u: Unit) { 32 <= u <= 126 }

  // What Python writes is printable ASCII.
  lemma {:induction false} PythonWritesAscii(s: Text)
    ensures forall k :: 0 <= k < |EscapeText(Python, s)| ==> Printable(EscapeText(Python, s)[k])
  {
    if s != [] {
      PythonWritesAscii(s[1..]);
      assert forall k :: 0 <= k < |EscapeUnit(Python, s[0])| ==> Printable(EscapeUnit(Python, s[0])[k]);
    }
  }

  // What needs no escape: no quote, backslash or control character, and in Python nothing but ASCII, in
  // JavaScript no surrogate without its partner.
  predicate Unescaped(st: Style, s: Text) {
    && (forall k :: 0 <= k < |s| ==> s[k] >= 32 && s[k] != QUOTE && s[k] != BACKSLASH)
    && (st.Python? ==> forall k :: 0 <= k < |s| ==> Printable(s[k]))
    && (st.JavaScript? ==> Whole(s))
  }

  // Such a text is written as it is.
  lemma {:induction false} PlainStays(st: Style, s: Text)
    requires Unescaped(st, s)
    ensures EscapeText(st, s) == s
    decreases |s|
  {
    if s != [] {
      if st.JavaScript? && High(s[0]) {
        PlainStays(st, s[2..]);
        assert [s[0], s[1]] + s[2..] == s;
      } else {
        PlainStays(st, s[1..]);
        assert [s[0]] + s[1..] == s;
      }
    }
  }

  // Keys in strictly increasing order.
  predicate Sorted(st: Style, f: Fields) {
    f.End? || f.rest.End? || (Less(st, f.key, f.rest.key) && Sorted(st, f.rest))
  }

  predicate SortedDeep(st: Style, v: Json) {
    match v
    case Arr(items) => SortedItems(st, items)
    case Obj(fields) => Sorted(st, fields) && SortedFields(st, fields)
    case _ => true
  }

  predicate SortedItems(st: Style, items: Items) { items.Nil? || (SortedDeep(st, items.head) && SortedItems(st, items.tail)) }

  predicate SortedFields(st: Style, f: Fields) { f.End? || (SortedDeep(st, f.value) && SortedFields(st, f.rest)) }

  lemma {:induction false} FirstIsLeast(st: Style, f: Fields, key: Text)
    requires Sorted(st, f) && f.Field? && key in Keys(f.rest)
    ensures Less(st, f.key, key)
  {
    if key != f.rest.key {
      FirstIsLeast(st, f.rest, key);
      LessTrans(st, f.key, f.rest.key, key);
    }
  }

  lemma {:induction false} InsertSorts(st: Style, key: Text, v: Json, f: Fields)
    requires Sorted(st, f) && key !in Keys(f)
    ensures Sorted(st, Insert(st, key, v, f)) && Keys(Insert(st, key, v, f)) == Keys(f) + {key}
  {
    if f.Field? {
      LessTotal(st, key, f.key);
      if !Less(st, key, f.key) {
        InsertSorts(st, key, v, f.rest);
        hide Less;
      }
    }
  }

  lemma {:induction false} InsertMeans(st: Style, key: Text, v: Json, f: Fields)
    requires SortedFields(st, f) && SortedDeep(st, v) && PlainFields(f) && Plain(v) && key !in Keys(f)
    ensures var r := Insert(st, key, v, f);
            SortedFields(st, r) && PlainFields(r) && FieldsMean(r) == FieldsMean(f)[key := Means(v)]
  {
    hide Less;
    if f.Field? && !Less(st, key, f.key) {
      InsertMeans(st, key, v, f.rest);
      hide Plain, SortedDeep, Means;
    }
  }

  // Canonising keeps the meaning, and gives a plain value with sorted keys at every depth.
  lemma {:induction false} CanonIs(st: Style, v: Json)
    requires WellFormed(v)
    ensures Plain(Canon(st, v)) && SortedDeep(st, Canon(st, v)) && Means(Canon(st, v)) == Means(v)
    decreases v
  {
    match v
    case Arr(items) => CanonItemsAre(st, items);
    case Obj(fields) => CanonFieldsAre(st, fields);
    case _ =>
  }

  lemma {:induction false} CanonItemsAre(st: Style, items: Items)
    requires WellFormedItems(items)
    ensures PlainItems(CanonItems(st, items)) && SortedItems(st, CanonItems(st, items)) && ItemsMean(CanonItems(st, items)) == ItemsMean(items)
    decreases items
  {
    if items.Cons? {
      CanonIs(st, items.head);
      CanonItemsAre(st, items.tail);
    }
  }

  lemma {:induction false} CanonFieldsAre(st: Style, f: Fields)
    requires WellFormedFields(f)
    ensures var r := CanonFields(st, f);
            PlainFields(r) && Sorted(st, r) && SortedFields(st, r) && Keys(r) <= Keys(f) && FieldsMean(r) == FieldsMean(f)
    decreases f
  {
    if f.Field? {
      CanonFieldsAre(st, f.rest);
      if !f.value.Undefined? {
        CanonIs(st, f.value);
        InsertSorts(st, f.key, Canon(st, f.value), CanonFields(st, f.rest));
        InsertMeans(st, f.key, Canon(st, f.value), CanonFields(st, f.rest));
      }
    }
  }

  lemma {:induction false} MeansKeys(f: Fields)
    requires PlainFields(f)
    ensures FieldsMean(f).Keys == Keys(f)
  {
    if f.Field? {
      MeansKeys(f.rest);
    }
  }

  // Of two canonical values that mean the same, neither differs.
  lemma {:induction false} CanonicalUnique(st: Style, a: Json, b: Json)
    requires Plain(a) && Plain(b) && SortedDeep(st, a) && SortedDeep(st, b) && Means(a) == Means(b)
    ensures a == b
    decreases a
  {
    match a
    case Arr(items) => ItemsUnique(st, items, b.items);
    case Obj(fields) => FieldsUnique(st, fields, b.fields);
    case _ =>
  }

  lemma {:induction false} ItemsUnique(st: Style, a: Items, b: Items)
    requires PlainItems(a) && PlainItems(b) && SortedItems(st, a) && SortedItems(st, b) && ItemsMean(a) == ItemsMean(b)
    ensures a == b
    decreases a
  {
    if a.Cons? && b.Cons? {
      assert ItemsMean(a)[0] == Means(a.head) && ItemsMean(b)[0] == Means(b.head);
      assert ItemsMean(a)[1..] == ItemsMean(a.tail) && ItemsMean(b)[1..] == ItemsMean(b.tail);
      CanonicalUnique(st, a.head, b.head);
      ItemsUnique(st, a.tail, b.tail);
    }
  }

  lemma {:induction false} SameFirstKey(st: Style, a: Fields, b: Fields)
    requires a.Field? && b.Field? && Sorted(st, a) && Sorted(st, b) && Keys(a) == Keys(b)
    ensures a.key == b.key && a.key !in Keys(a.rest) && b.key !in Keys(b.rest)
  {
    LessTotal(st, a.key, b.key);
    LessTotal(st, a.key, a.key);
    LessTotal(st, b.key, b.key);
    if a.key != b.key {
      assert a.key in Keys(b) && b.key in Keys(a);
      FirstIsLeast(st, a, b.key);
      FirstIsLeast(st, b, a.key);
    }
    if a.key in Keys(a.rest) {
      FirstIsLeast(st, a, a.key);
    }
    if b.key in Keys(b.rest) {
      FirstIsLeast(st, b, b.key);
    }
  }

  lemma {:induction false} FieldsUnique(st: Style, a: Fields, b: Fields)
    requires PlainFields(a) && PlainFields(b) && SortedFields(st, a) && SortedFields(st, b) && Sorted(st, a) && Sorted(st, b)
    requires FieldsMean(a) == FieldsMean(b)
    ensures a == b
    decreases a
  {
    MeansKeys(a);
    MeansKeys(b);
    if a.Field? && b.Field? {
      SameFirstKey(st, a, b);
      MeansKeys(a.rest);
      MeansKeys(b.rest);
      assert FieldsMean(a)[a.key] == Means(a.value) && FieldsMean(b)[b.key] == Means(b.value);
      CanonicalUnique(st, a.value, b.value);
      assert FieldsMean(a.rest) == FieldsMean(a) - {a.key};
      assert FieldsMean(b.rest) == FieldsMean(b) - {b.key};
      FieldsUnique(st, a.rest, b.rest);
    } else {
      NoKeys(a);
      NoKeys(b);
    }
  }

  lemma {:induction false} NoKeys(f: Fields)
    ensures Keys(f) == {} <==> f.End?
  {
    if f.Field? {
      assert f.key in Keys(f);
    }
  }

  // The keys of a canonical object ascend, and are those of the entries that are not `undefined`.
  lemma {:induction false} KeysAscend(st: Style, f: Fields)
    requires WellFormedFields(f)
    ensures var r := Canon(st, Obj(f)).fields;
            Sorted(st, r) && (forall key :: key in Keys(r) <==> key in FieldsMean(f))
  {
    CanonFieldsAre(st, f);
    MeansKeys(CanonFields(st, f));
  }

  // The parser undoes the serialiser, up to what canonising does.
  lemma {:induction false} ParseUndoesStringify(st: Style, v: Json)
    requires WellFormed(v)
    ensures Parse(Stringify(st, v)) == Some((Canon(st, v), []))
  {
    CanonIs(st, v);
    ValueBack(st, Canon(st, v), []);
    assert Stringify(st, v) + [] == Stringify(st, v);
  }

  // Two values have the same canonical text exactly when they are equal up to the order of keys, at
  // every depth.
  lemma {:induction false} StringifyIsInjective(st: Style, a: Json, b: Json)
    requires WellFormed(a) && WellFormed(b)
    ensures Stringify(st, a) == Stringify(st, b) <==> Means(a) == Means(b)
  {
    CanonIs(st, a);
    CanonIs(st, b);
    if Stringify(st, a) == Stringify(st, b) {
      ParseUndoesStringify(st, a);
      ParseUndoesStringify(st, b);
    }
    if Means(a) == Means(b) {
      CanonicalUnique(st, Canon(st, a), Canon(st, b));
    }
  }

  // ---------------------------------------------------------------- what is hashed

  const ARGS: Text := [97, 114, 103, 115]
  const TOOL: Text := [116, 111, 111, 108]

  function Payload(name: Text, args: Json): Json { Obj(Field(ARGS, args, Field(TOOL, Str(name), End))) }

  // `argsHash` and `args_hash`, over any digest.
  function ArgsHash<D>(st: Style, digest: Text -> D, name: Text, args: Json): D { digest(Stringify(st, Payload(name, args))) }

  // With a digest that does not collide, consent given for one call covers exactly the calls of the
  // same tool with the same arguments, however their objects were built.
  lemma {:induction false} HashBindsTheCall<D>(st: Style, digest: Text -> D, name: Text, args: Json, otherName: Text, otherArgs: Json)
    requires forall s, t :: digest(s) == digest(t) ==> s == t
    requires WellFormed(args) && WellFormed(otherArgs) && args.Obj? && otherArgs.Obj?
    ensures ArgsHash(st, digest, name, args) == ArgsHash(st, digest, otherName, otherArgs)
            <==> name == otherName && Means(args) == Means(otherArgs)
  {
    PayloadMeans(name, args);
    PayloadMeans(otherName, otherArgs);
    StringifyIsInjective(st, Payload(name, args), Payload(otherName, otherArgs));
    hide Means, FieldsMean, WellFormed, Stringify;
    assert ARGS != TOOL by {
      assert ARGS[0] != TOOL[0];
    }
    var p, q := map[TOOL := MStr(name), ARGS := Means(args)], map[TOOL := MStr(otherName), ARGS := Means(otherArgs)];
    assert p[TOOL] == MStr(name) && p[ARGS] == Means(args) && q[TOOL] == MStr(otherName) && q[ARGS] == Means(otherArgs);
  }

  lemma {:induction false} PayloadMeans(name: Text, args: Json)
    requires WellFormed(args) && args.Obj?
    ensures WellFormed(Payload(name, args))
    ensures Means(Payload(name, args)) == MObj(map[TOOL := MStr(name), ARGS := Means(args)])
  {
    var last := Field(TOOL, Str(name), End);
    assert ARGS[0] != TOOL[0];
    assert Keys(End) == {} && FieldsMean(End) == map[] && WellFormedFields(End);
    assert Keys(last) == {TOOL} && FieldsMean(last) == map[TOOL := MStr(name)] && WellFormedFields(last);
  }
}
