/** The canonical bytes determine the value (src/molly/core/ids.py:205-226): a reader of the compact
    form gives back what was printed, key order does not matter, and no control character is ever
    written, so that a log of one value per line is unambiguous (src/molly/core/ledger.py:221-231). */
module JsonRoundTrip {
  import opened Decimals
  import opened RunEvents
  import opened CanonicalJson

  // ---- The reader

  function HexUnit(s: string): Option<nat>
    requires |s| >= 4
  {
    var (a, b, c, d) := (HexValue(s[0]), HexValue(s[1]), HexValue(s[2]), HexValue(s[3]));
    if a.None? || b.None? || c.None? || d.None? then None
    else Some(a.value * 0x1000 + b.value * 0x100 + c.value * 0x10 + d.value)
  }

  /** One unit of a string body. */
  function ReadUnit(s: string): (r: Option<(nat, string)>)
    requires s != ""
    ensures r.Some? ==> |r.value.1| < |s|
  {
    if s[0] != '\\' then (if ' ' <= s[0] <= '~' then Some((s[0] as nat, s[1..])) else None)
    else if |s| < 2 then None
    else if s[1] == 'u' then
      (if |s| < 6 || HexUnit(s[2..6]).None? then None else Some((HexUnit(s[2..6]).value, s[6..])))
    else
      match s[1]
      case '\"' => Some((0x22, s[2..]))
      case '\\' => Some((0x5C, s[2..]))
      case '/' => Some((0x2F, s[2..]))
      case 'n' => Some((0x0A, s[2..]))
      case 'r' => Some((0x0D, s[2..]))
      case 't' => Some((0x09, s[2..]))
      case 'f' => Some((0x0C, s[2..]))
      case 'b' => Some((0x08, s[2..]))
      case _ => None
  }

  /** The units up to the closing quote. */
  function ReadUnits(s: string): (r: Option<(seq<nat>, string)>)
    ensures r.Some? ==> |r.value.1| < |s|
    decreases |s|
  {
    if s == "" then None
    else if s[0] == '\"' then Some(([], s[1..]))
    else
      var first := ReadUnit(s);
      if first.None? then None
      else
        var others := ReadUnits(first.value.1);
        if others.None? then None else Some(([first.value.0] + others.value.0, others.value.1))
  }

  function TokenLength(s: string): (n: nat)
    ensures n <= |s|
  { if s != "" && NumberChar(s[0]) then 1 + TokenLength(s[1..]) else 0 }

  function NumberOf(token: string): Json
    requires token != ""
  {
    if '.' in token || 'e' in token then Float(token)
    else if token[0] == '-' then Int(-(Value(token[1..]) as int))
    else Int(Value(token))
  }

  function ReadValue(s: string): (r: Option<(Json, string)>)
    ensures r.Some? ==> |r.value.1| < |s|
    decreases |s|, 3
  {
    if s == "" then None
    else if s[0] == 'n' then (if |s| >= 4 && s[..4] == "null" then Some((Null, s[4..])) else None)
    else if s[0] == 't' then (if |s| >= 4 && s[..4] == "true" then Some((Bool(true), s[4..])) else None)
    else if s[0] == 'f' then (if |s| >= 5 && s[..5] == "false" then Some((Bool(false), s[5..])) else None)
    else if s[0] == '\"' then
      var t := ReadUnits(s[1..]);
      if t.None? then None else Some((Str(Join(t.value.0)), t.value.1))
    else if s[0] == '[' then
      if |s| > 1 && s[1] == ']' then Some((Arr([]), s[2..]))
      else
        var items := ReadItems(s[1..]);
        if items.None? then None else Some((Arr(items.value.0), items.value.1))
    else if s[0] == '{' then
      if |s| > 1 && s[1] == '}' then Some((Obj([]), s[2..]))
      else
        var fields := ReadFields(s[1..]);
        if fields.None? then None else Some((Obj(fields.value.0), fields.value.1))
    else
      var n := TokenLength(s);
      if n == 0 then None else Some((NumberOf(s[..n]), s[n..]))
  }

  function ReadItems(s: string): (r: Option<(seq<Json>, string)>)
    ensures r.Some? ==> |r.value.1| < |s|
    decreases |s|, 4
  {
    var first := ReadValue(s);
    if first.None? || first.value.1 == "" then None
    else if first.value.1[0] == ']' then Some(([first.value.0], first.value.1[1..]))
    else if first.value.1[0] == ',' then
      var others := ReadItems(first.value.1[1..]);
      if others.None? then None else Some(([first.value.0] + others.value.0, others.value.1))
    else None
  }

  function ReadField(s: string): (r: Option<(Field, string)>)
    ensures r.Some? ==> |r.value.1| < |s|
    decreases |s|, 4
  {
    if s == "" || s[0] != '\"' then None
    else
      var key := ReadUnits(s[1..]);
      if key.None? || key.value.1 == "" || key.value.1[0] != ':' then None
      else
        var v := ReadValue(key.value.1[1..]);
        if v.None? then None else Some((Field(Join(key.value.0), v.value.0), v.value.1))
  }

  function ReadFields(s: string): (r: Option<(seq<Field>, string)>)
    ensures r.Some? ==> |r.value.1| < |s|
    decreases |s|, 5
  {
    var first := ReadField(s);
    if first.None? || first.value.1 == "" then None
    else if first.value.1[0] == '}' then Some(([first.value.0], first.value.1[1..]))
    else if first.value.1[0] == ',' then
      var others := ReadFields(first.value.1[1..]);
      if others.None? then None else Some(([first.value.0] + others.value.0, others.value.1))
    else None
  }

  /** A whole document. */
  function Read(s: string): Option<Json> {
    var r := ReadValue(s);
    if r.Some? && r.value.1 == "" then Some(r.value.0) else None
  }

  // ---- Strings come back unit by unit

  lemma HexDigit(d: nat)
    requires d < 16
    ensures HexValue(HEX[d]) == Some(d)
  {}

  lemma HexDigits(a: nat, b: nat, c: nat, d: nat)
    requires a < 16 && b < 16 && c < 16 && d < 16
    ensures HexUnit([HEX[a], HEX[b], HEX[c], HEX[d]]) == Some(a * 0x1000 + b * 0x100 + c * 0x10 + d)
  {
    HexDigit(a);
    HexDigit(b);
    HexDigit(c);
    HexDigit(d);
    hide HexValue;
  }

  lemma HexSum(u: nat)
    requires u < 0x10000
    ensures u == u / 0x1000 * 0x1000 + u / 0x100 % 0x10 * 0x100 + u / 0x10 % 0x10 * 0x10 + u % 0x10
    ensures u / 0x1000 < 16
  {
    var (x, y) := (u / 0x10, u / 0x100);
    assert u == x * 0x10 + u % 0x10;
    assert x == x / 0x10 * 0x10 + x % 0x10 && x / 0x10 == y;
    assert y == y / 0x10 * 0x10 + y % 0x10 && y / 0x10 == u / 0x1000;
  }

  lemma HexUnitRead(u: nat)
    requires u < 0x10000
    ensures HexUnit(Hex(u)) == Some(u)
  {
    hide HexUnit;
    HexSum(u);
    var (a, b, c, d) := (u / 0x1000, u / 0x100 % 0x10, u / 0x10 % 0x10, u % 0x10);
    HexDigits(a, b, c, d);
    assert Hex(u) == [HEX[a], HEX[b], HEX[c], HEX[d]];
  }

  lemma HexRead(u: nat, rest: string)
    requires u < 0x10000 && Escape(u) == "\\u" + Hex(u)
    ensures ReadUnit(Escape(u) + rest) == Some((u, rest))
  {
    HexUnitRead(u);
    hide Escape, Hex, HexUnit;
    var s := Escape(u) + rest;
    assert |Hex(u)| == 4 by { HexFour(u); }
    assert s[2..6] == Hex(u) && s[6..] == rest;
  }

  lemma HexFour(u: nat)
    requires u < 0x10000
    ensures |Hex(u)| == 4
  {}

  lemma ShortRead(u: nat, rest: string)
    requires u < 0x10000 && |Escape(u)| == 2
    ensures ReadUnit(Escape(u) + rest) == Some((u, rest))
  {
    HexFour(u);
    hide Hex, HexUnit;
    assert (Escape(u) + rest)[2..] == rest;
  }

  lemma PlainRead(u: nat, rest: string)
    requires u < 0x10000 && |Escape(u)| == 1
    ensures ReadUnit(Escape(u) + rest) == Some((u, rest))
  {
    HexFour(u);
    hide Hex, HexUnit;
    assert (Escape(u) + rest)[1..] == rest;
  }

  lemma EscapeForms(u: nat)
    requires u < 0x10000
    ensures |Escape(u)| in {1, 2} || Escape(u) == "\\u" + Hex(u)
    ensures Escape(u) != "" && Escape(u)[0] != '\"'
  {
    hide Hex;
  }

  lemma UnitRead(u: nat, rest: string)
    requires u < 0x10000
    ensures Escape(u)[0] != '\"' && ReadUnit(Escape(u) + rest) == Some((u, rest))
  {
    hide Escape, ReadUnit;
    EscapeForms(u);
    if |Escape(u)| == 1 { PlainRead(u, rest); }
    else if |Escape(u)| == 2 { ShortRead(u, rest); }
    else { HexRead(u, rest); }
  }

  lemma UnitThenRest(text: string, u: nat, tail: string, us: seq<nat>, rest: string)
    requires text != "" && text[0] != '\"' && ReadUnit(text + tail) == Some((u, tail))
               && ReadUnits(tail) == Some((us, rest))
    ensures ReadUnits(text + tail) == Some(([u] + us, rest))
  {
    hide ReadUnit;
  }

  lemma {:induction false} UnitsRead(us: seq<nat>, rest: string)
    requires ValidUnits(us)
    ensures ReadUnits(EscapeAll(us) + "\"" + rest) == Some((us, rest))
    decreases |us|
  {
    hide Escape, ReadUnit;
    if us == [] {
      assert ("\"" + rest)[1..] == rest;
      assert EscapeAll(us) + "\"" + rest == "\"" + rest;
    } else {
      hide ReadUnits;
      var tail := EscapeAll(us[1..]) + "\"" + rest;
      UnitRead(us[0], tail);
      UnitsRead(us[1..], rest);
      UnitThenRest(Escape(us[0]), us[0], tail, us[1..], rest);
      assert EscapeAll(us) + "\"" + rest == Escape(us[0]) + tail;
      assert us == [us[0]] + us[1..];
    }
  }

  lemma QuoteRead(t: Text, rest: string)
    requires ValidText(t)
    ensures Quote(t)[0] == '\"' && ReadUnits((Quote(t) + rest)[1..]) == Some((Units(t), rest))
  {
    hide EscapeAll, ReadUnits, Units;
    UnitsValid(t);
    UnitsRead(Units(t), rest);
    var body := EscapeAll(Units(t));
    assert Quote(t) + rest == "\"" + (body + "\"" + rest);
    assert (Quote(t) + rest)[1..] == body + "\"" + rest;
  }

  /** A high surrogate directly followed by a low one, as two code points. */
  predicate SplitPair(t: Text) { exists i :: 0 <= i < |t| - 1 && High(t[i]) && Low(t[i + 1]) }

  lemma JoinOne(u: nat, us: seq<nat>)
    requires !(High(u) && us != [] && Low(us[0]))
    ensures Join([u] + us) == [u] + Join(us)
  {
    assert ([u] + us)[1..] == us;
  }

  lemma JoinTwo(high: nat, low: nat, us: seq<nat>)
    requires High(high) && Low(low)
    ensures Join([high, low] + us) == [0x10000 + (high - 0xD800) * 0x400 + (low - 0xDC00)] + Join(us)
  {
    assert ([high, low] + us)[2..] == us;
  }

  /** The first unit of a text is low only if its first code point is. */
  lemma FirstUnit(t: Text)
    requires ValidText(t) && t != []
    ensures Units(t) != [] && (Low(Units(t)[0]) <==> Low(t[0]))
  {}

  lemma PairOf(c: nat)
    requires 0x10000 <= c <= MAX_CODE_POINT
    ensures var x := c - 0x10000;
            High(0xD800 + x / 0x400) && Low(0xDC00 + x % 0x400) && 0x10000 + x / 0x400 * 0x400 + x % 0x400 == c
  {}

  lemma {:induction false} JoinLength(t: Text)
    requires ValidText(t)
    ensures |Join(Units(t))| <= |t| && (SplitPair(t) ==> |Join(Units(t))| < |t|)
              && (!SplitPair(t) ==> Join(Units(t)) == t)
    decreases |t|
  {
    hide Join, SplitPair;
    SplitPairTail(t);
    if t == [] { NothingJoined(); return; }
    JoinLength(t[1..]);
    assert t == [t[0]] + t[1..];
    if t[0] >= 0x10000 {
      PairOf(t[0]);
      JoinTwo(0xD800 + (t[0] - 0x10000) / 0x400, 0xDC00 + (t[0] - 0x10000) % 0x400, Units(t[1..]));
    } else if |t| > 1 && High(t[0]) && Low(t[1]) {
      assert Units(t) == [t[0], t[1]] + Units(t[1..][1..]);
      JoinTwo(t[0], t[1], Units(t[1..][1..]));
      JoinLength(t[1..][1..]);
    } else {
      if |t| > 1 { FirstUnit(t[1..]); }
      JoinOne(t[0], Units(t[1..]));
    }
  }

  lemma NothingJoined() ensures Join([]) == [] && Units([]) == [] {}

  lemma SplitPairTail(t: Text)
    ensures t == [] ==> !SplitPair(t)
    ensures t != [] ==> (SplitPair(t) <==> SplitPair(t[1..]) || (|t| > 1 && High(t[0]) && Low(t[1])))
  {
    if t == [] { return; }
    if i :| 0 <= i < |t| - 1 && High(t[i]) && Low(t[i + 1]) {
      if i > 0 { assert t[1..][i - 1] == t[i] && t[1..][i] == t[i + 1]; }
    }
    if i :| 0 <= i < |t[1..]| - 1 && High(t[1..][i]) && Low(t[1..][i + 1]) {
      assert t[i + 1] == t[1..][i] && t[i + 2] == t[1..][i + 1];
    }
  }

  /** A text survives exactly when no pair is split; in particular when it has no surrogates at all. */
  lemma TextSurvives(t: Text)
    requires ValidText(t)
    ensures Join(Units(t)) == t <==> !SplitPair(t)
  {
    JoinLength(t);
  }

  // ---- Numbers

  lemma {:induction false} TokenEnds(token: string, rest: string)
    requires (forall i :: 0 <= i < |token| ==> NumberChar(token[i])) && (rest == "" || !NumberChar(rest[0]))
    ensures TokenLength(token + rest) == |token|
    decreases |token|
  {
    if token == "" {
      assert token + rest == rest;
    } else {
      TokenEnds(token[1..], rest);
      assert (token + rest)[1..] == token[1..] + rest;
    }
  }

  predicate Delimited(rest: string) { rest == "" || rest[0] in {',', ']', '}'} }

  lemma TokenRead(token: string, rest: string)
    requires token != "" && (token[0] == '-' || '0' <= token[0] <= '9') && Delimited(rest)
    requires forall i :: 0 <= i < |token| ==> NumberChar(token[i])
    ensures ReadValue(token + rest) == Some((NumberOf(token), rest))
  {
    TokenEnds(token, rest);
    assert (token + rest)[..|token|] == token && (token + rest)[|token|..] == rest;
  }

  lemma IntegerRead(n: int, rest: string)
    requires Delimited(rest)
    ensures ReadValue(Integer(n) + rest) == Some((Int(n), rest))
  {
    hide ReadValue;
    IntegerToken(n);
    TokenRead(Integer(n), rest);
  }

  lemma NaturalToken(n: nat)
    requires var d := Decimal(n); d != "" && Value(d) == n && forall i :: 0 <= i < |d| ==> '0' <= d[i] <= '9'
    ensures NumberOf(Decimal(n)) == Int(n)
  {
    hide Decimal, Value;
    assert '.' !in Decimal(n) && 'e' !in Decimal(n);
  }

  lemma NegativeToken(n: nat)
    requires var d := Decimal(n); d != "" && Value(d) == n && forall i :: 0 <= i < |d| ==> '0' <= d[i] <= '9'
    ensures var token := "-" + Decimal(n);
            NumberOf(token) == Int(-(n as int)) && forall i :: 0 <= i < |token| ==> NumberChar(token[i])
  {
    hide Decimal, Value;
    var token := "-" + Decimal(n);
    assert token[1..] == Decimal(n);
    assert '.' !in token && 'e' !in token;
  }

  lemma IntegerToken(n: int)
    ensures var token := Integer(n);
            token != "" && (token[0] == '-' || '0' <= token[0] <= '9')
                && (forall i :: 0 <= i < |token| ==> NumberChar(token[i]))
            && NumberOf(token) == Int(n)
  {
    DecimalForm(if n < 0 then -n else n);
    hide Decimal, Value;
    if n < 0 { NegativeToken(-n); } else { NaturalToken(n); }
  }

  // ---- Values

  /** The value with every text read back from its units. */
  function Joined(v: Json): Json {
    match v
    case Str(text) => Str(Join(Units(text)))
    case Arr(items) => Arr(JoinedItems(items))
    case Obj(fields) => Obj(JoinedFields(fields))
    case _ => v
  }

  function JoinedItems(items: seq<Json>): (r: seq<Json>)
    ensures |r| == |items| && forall i :: 0 <= i < |items| ==> r[i] == Joined(items[i])
  { if items == [] then [] else [Joined(items[0])] + JoinedItems(items[1..]) }

  function JoinedField(f: Field): Field { Field(Join(Units(f.key)), Joined(f.value)) }

  function JoinedFields(fields: seq<Field>): (r: seq<Field>)
    ensures |r| == |fields| && forall i :: 0 <= i < |fields| ==> r[i] == JoinedField(fields[i])
  { if fields == [] then [] else [JoinedField(fields[0])] + JoinedFields(fields[1..]) }

  lemma WordRead(v: Json, rest: string)
    requires v.Null? || v.Bool?
    ensures ReadValue(Print(v) + rest) == Some((v, rest))
  {
    assert ("null" + rest)[..4] == "null" && ("null" + rest)[4..] == rest;
    assert ("true" + rest)[..4] == "true" && ("true" + rest)[4..] == rest;
    assert ("false" + rest)[..5] == "false" && ("false" + rest)[5..] == rest;
  }

  lemma TextRead(t: Text, rest: string)
    requires ValidText(t)
    ensures ReadValue(Quote(t) + rest) == Some((Str(Join(Units(t))), rest))
  {
    QuoteRead(t, rest);
    hide Quote, ReadUnits, Join;
  }

  lemma ArrayRead(items: seq<Json>, text: string, rest: string, read: seq<Json>)
    requires text != "" && text[0] != ']' && ReadItems(text + rest) == Some((read, rest))
    ensures ReadValue("[" + text + rest) == Some((Arr(read), rest))
  {
    hide ReadItems;
    var s := "[" + text + rest;
    assert s[1..] == text + rest && s[1] == text[0];
  }

  lemma ObjectRead(fields: seq<Field>, text: string, rest: string, read: seq<Field>)
    requires text != "" && text[0] != '}' && ReadFields(text + rest) == Some((read, rest))
    ensures ReadValue("{" + text + rest) == Some((Obj(read), rest))
  {
    hide ReadFields;
    var s := "{" + text + rest;
    assert s[1..] == text + rest && s[1] == text[0];
  }

  lemma EmptyRead(rest: string)
    ensures ReadValue("[]" + rest) == Some((Arr([]), rest)) && ReadValue("{}" + rest) == Some((Obj([]), rest))
  {
    hide ReadItems, ReadFields;
    assert ("[]" + rest)[2..] == rest && ("{}" + rest)[2..] == rest;
  }

  /** Printing is read back exactly, up to split pairs in texts. */
  lemma {:induction false} ValueRead(v: Json, rest: string)
    requires Printable(v) && Delimited(rest)
    ensures ReadValue(Print(v) + rest) == Some((Joined(v), rest))
    decreases v, 1
  {
    hide ReadValue, ReadItems, ReadFields;
    match v
    case Null => WordRead(v, rest);
    case Bool(b) => WordRead(v, rest);
    case Int(n) => IntegerRead(n, rest);
    case Float(token) => FloatRead(token, rest);
    case Str(text) => TextRead(text, rest);
    case Arr(items) =>
      if items == [] {
        EmptyRead(rest);
      } else {
        ItemsRead(items, rest);
        FirstOfItems(items);
        ArrayRead(items, PrintItems(items), rest, JoinedItems(items));
      }
    case Obj(fields) =>
      if fields == [] {
        EmptyRead(rest);
      } else {
        FieldsRead(fields, rest);
        FirstOfFields(fields);
        ObjectRead(fields, PrintFields(fields), rest, JoinedFields(fields));
      }
  }

  lemma FloatRead(token: string, rest: string)
    requires FloatToken(token) && Delimited(rest)
    ensures ReadValue(token + rest) == Some((Float(token), rest))
  {
    TokenRead(token, rest);
  }

  lemma FirstOfValue(v: Json)
    requires Printable(v)
    ensures Print(v) != "" && Print(v)[0] != ']'
  {
    if v.Int? { DecimalForm(if v.n < 0 then -v.n else v.n); }
  }

  lemma FirstOfItems(items: seq<Json>)
    requires items != [] && PrintableItems(items)
    ensures PrintItems(items) != "" && PrintItems(items)[0] != ']'
  {
    FirstOfValue(items[0]);
  }

  lemma FirstOfFields(fields: seq<Field>)
    requires fields != [] && PrintableFields(fields)
    ensures PrintFields(fields) != "" && PrintFields(fields)[0] == '\"'
  {
    QuoteRead(fields[0].key, "");
  }

  lemma LastItemRead(text: string, v: Json, rest: string)
    requires ReadValue(text + ("]" + rest)) == Some((v, "]" + rest))
    ensures ReadItems(text + "]" + rest) == Some(([v], rest))
  {
    hide ReadValue;
    assert text + "]" + rest == text + ("]" + rest);
    assert ("]" + rest)[1..] == rest;
  }

  lemma NextItemRead(text: string, v: Json, tail: string, others: seq<Json>, rest: string)
    requires ReadValue(text + ("," + tail)) == Some((v, "," + tail)) && ReadItems(tail) == Some((others, rest))
    ensures ReadItems(text + "," + tail) == Some(([v] + others, rest))
  {
    hide ReadValue;
    assert text + "," + tail == text + ("," + tail);
    assert ("," + tail)[1..] == tail;
  }

  lemma {:induction false} ItemsRead(items: seq<Json>, rest: string)
    requires items != [] && PrintableItems(items)
    ensures ReadItems(PrintItems(items) + rest) == Some((JoinedItems(items), rest))
    decreases items, 2
  {
    hide ReadValue, ReadItems;
    if |items| == 1 {
      ValueRead(items[0], "]" + rest);
      LastItemRead(Print(items[0]), Joined(items[0]), rest);
      assert JoinedItems(items) == [Joined(items[0])];
    } else {
      var tail := PrintItems(items[1..]) + rest;
      ValueRead(items[0], "," + tail);
      ItemsRead(items[1..], rest);
      NextItemRead(Print(items[0]), Joined(items[0]), tail, JoinedItems(items[1..]), rest);
      assert PrintItems(items) + rest == Print(items[0]) + "," + tail;
    }
  }

  lemma KeyAndValueRead(key: Text, text: string, v: Json, rest: string)
    requires ValidText(key) && ReadValue(text + rest) == Some((v, rest))
    ensures ReadField(Quote(key) + ":" + text + rest) == Some((Field(Join(Units(key)), v), rest))
  {
    hide ReadValue, ReadUnits, Join;
    var tail := ":" + (text + rest);
    QuoteRead(key, tail);
    hide Quote;
    assert Quote(key) + ":" + text + rest == Quote(key) + tail;
    assert tail[1..] == text + rest;
  }

  lemma {:induction false} FieldRead(f: Field, rest: string)
    requires ValidText(f.key) && Printable(f.value) && Delimited(rest)
    ensures ReadField(PrintField(f) + rest) == Some((JoinedField(f), rest))
    decreases f, 2
  {
    hide ReadValue, ReadField, Quote;
    ValueRead(f.value, rest);
    KeyAndValueRead(f.key, Print(f.value), Joined(f.value), rest);
    assert PrintField(f) + rest == Quote(f.key) + ":" + Print(f.value) + rest;
  }

  lemma LastFieldRead(text: string, f: Field, rest: string)
    requires ReadField(text + ("}" + rest)) == Some((f, "}" + rest))
    ensures ReadFields(text + "}" + rest) == Some(([f], rest))
  {
    hide ReadField;
    assert text + "}" + rest == text + ("}" + rest);
    assert ("}" + rest)[1..] == rest;
  }

  lemma NextFieldRead(text: string, f: Field, tail: string, others: seq<Field>, rest: string)
    requires ReadField(text + ("," + tail)) == Some((f, "," + tail)) && ReadFields(tail) == Some((others, rest))
    ensures ReadFields(text + "," + tail) == Some(([f] + others, rest))
  {
    hide ReadField;
    assert text + "," + tail == text + ("," + tail);
    assert ("," + tail)[1..] == tail;
  }

  lemma {:induction false} FieldsRead(fields: seq<Field>, rest: string)
    requires fields != [] && PrintableFields(fields)
    ensures ReadFields(PrintFields(fields) + rest) == Some((JoinedFields(fields), rest))
    decreases fields, 3
  {
    hide ReadField, ReadFields;
    if |fields| == 1 {
      FieldRead(fields[0], "}" + rest);
      LastFieldRead(PrintField(fields[0]), JoinedField(fields[0]), rest);
      assert JoinedFields(fields) == [JoinedField(fields[0])];
    } else {
      var tail := PrintFields(fields[1..]) + rest;
      FieldRead(fields[0], "," + tail);
      FieldsRead(fields[1..], rest);
      NextFieldRead(PrintField(fields[0]), JoinedField(fields[0]), tail, JoinedFields(fields[1..]), rest);
      assert PrintFields(fields) + rest == PrintField(fields[0]) + "," + tail;
    }
  }

  // ---- Whole values

  /** No text anywhere in the value splits a surrogate pair. */
  predicate Whole(v: Json) {
    match v
    case Str(text) => !SplitPair(text)
    case Arr(items) => forall i :: 0 <= i < |items| ==> Whole(items[i])
    case Obj(fields) => forall i :: 0 <= i < |fields| ==> !SplitPair(fields[i].key) && Whole(fields[i].value)
    case _ => true
  }

  lemma {:induction false} JoinedIsSame(v: Json)
    requires Printable(v)
    ensures Joined(v) == v <==> Whole(v)
    decreases v
  {
    match v
    case Str(text) => TextSurvives(text);
    case Arr(items) =>
      forall i | 0 <= i < |items| ensures Joined(items[i]) == items[i] <==> Whole(items[i]) { JoinedIsSame(items[i]); }
      if Whole(v) { assert JoinedItems(items) == items; }
    case Obj(fields) =>
      forall i | 0 <= i < |fields| ensures JoinedField(fields[i]) == fields[i] <==>
          !SplitPair(fields[i].key) && Whole(fields[i].value) {
        TextSurvives(fields[i].key);
        JoinedIsSame(fields[i].value);
      }
      if Whole(v) { assert JoinedFields(fields) == fields; }
    case _ =>
  }

  lemma {:induction false} NormalWhole(sensitive: Text -> bool, v: Json)
    requires Freezable(sensitive, v)
    ensures Whole(Normal(v)) <==> Whole(v)
    decreases v
  {
    match v
    case Arr(items) =>
      forall i | 0 <= i < |items| ensures Whole(NormalItems(items)[i]) <==> Whole(items[i]) {
        NormalWhole(sensitive, items[i]);
      }
    case Obj(fields) =>
      NormalFieldsForm(fields);
      forall i | 0 <= i < |fields| ensures Whole(Normal(fields[i].value)) <==> Whole(fields[i].value) {
        NormalWhole(sensitive, fields[i].value);
      }
      SameTexts(fields, NormalFields(fields));
    case _ =>
  }

  lemma SameTexts(fields: seq<Field>, sorted: seq<Field>)
    requires forall i :: 0 <= i < |fields| ==> (Whole(Normal(fields[i].value)) <==> Whole(fields[i].value))
    requires forall i :: 0 <= i < |fields| ==> Field(fields[i].key, Normal(fields[i].value)) in sorted
    requires forall g :: g in sorted ==>
               exists i :: 0 <= i < |fields| && g == Field(fields[i].key, Normal(fields[i].value))
    ensures Whole(Obj(sorted)) <==> Whole(Obj(fields))
  {
    hide Normal, SplitPair;
    if Whole(Obj(sorted)) {
      forall i | 0 <= i < |fields| ensures !SplitPair(fields[i].key) && Whole(fields[i].value) {
        var g := Field(fields[i].key, Normal(fields[i].value));
        var k :| 0 <= k < |sorted| && sorted[k] == g;
      }
    }
    if Whole(Obj(fields)) {
      forall k | 0 <= k < |sorted| ensures !SplitPair(sorted[k].key) && Whole(sorted[k].value) {
        assert sorted[k] in sorted;
      }
    }
  }

  /** Reading the canonical bytes gives the value with sorted keys, exactly when no text splits a
      pair; two such lone surrogates would come back as one code point. */
  lemma DecodeEncode(sensitive: Text -> bool, v: Json)
    requires Freezable(sensitive, v)
    ensures CanonicalBytes(sensitive, v).Ok?
    ensures Read(CanonicalBytes(sensitive, v).value) == Some(Normal(v)) <==> Whole(v)
  {
    NormalPrintable(sensitive, v);
    ValueRead(Normal(v), "");
    assert Print(Normal(v)) + "" == Print(Normal(v));
    JoinedIsSame(Normal(v));
    NormalWhole(sensitive, v);
  }

  /** A document followed by anything that could end it is no document. */
  lemma NothingMayFollow(v: Json, rest: string)
    requires Printable(v) && Delimited(rest) && rest != ""
    ensures Read(Print(v) + rest).None?
  {
    hide ReadValue, Print, Joined;
    ValueRead(v, rest);
  }

  // ---- Equal bytes, equal values

  /** The same value, whatever the order of keys. */
  predicate Same(v: Json, w: Json)
    decreases v
  {
    match v
    case Arr(items) => w.Arr? && |items| == |w.items| && forall i :: 0 <= i < |items| ==> Same(items[i], w.items[i])
    case Obj(fields) =>
      w.Obj? && |fields| == |w.fields|
      && forall i :: 0 <= i < |fields| ==> HasSame(fields[i], w.fields)
    case _ => v == w
  }

  predicate HasSame(f: Field, fields: seq<Field>)
    decreases f, 1
  { exists j :: 0 <= j < |fields| && SameField(f, fields[j]) }

  predicate SameField(f: Field, g: Field)
    decreases f, 0
  { f.key == g.key && Same(f.value, g.value) }

  lemma {:induction false} SameIffNormalEqual(sensitive: Text -> bool, v: Json, w: Json)
    requires Freezable(sensitive, v) && Freezable(sensitive, w)
    ensures Same(v, w) <==> Normal(v) == Normal(w)
    decreases v
  {
    match v
    case Arr(items) =>
      if w.Arr? && |items| == |w.items| {
        forall i | 0 <= i < |items| ensures Same(items[i], w.items[i]) <==>
            NormalItems(items)[i] == NormalItems(w.items)[i] {
          SameIffNormalEqual(sensitive, items[i], w.items[i]);
        }
        if Same(v, w) { assert NormalItems(items) == NormalItems(w.items); }
      }
    case Obj(fields) =>
      if w.Obj? && |fields| == |w.fields| {
        forall i | 0 <= i < |fields| ensures HasSame(fields[i], w.fields) <==> HasTwin(fields[i], w.fields) {
          forall j | 0 <= j < |w.fields| ensures SameField(fields[i], w.fields[j]) <==> Twins(fields[i], w.fields[j]) {
            SameIffNormalEqual(sensitive, fields[i].value, w.fields[j].value);
          }
          SameIsTwin(fields[i], w.fields);
        }
        SameFields(fields, w.fields);
      }
    case _ =>
  }

  /** One field of each list, as normalization sees them. */
  predicate Twins(f: Field, g: Field) { f.key == g.key && Normal(f.value) == Normal(g.value) }

  predicate HasTwin(f: Field, fields: seq<Field>) { exists j :: 0 <= j < |fields| && Twins(f, fields[j]) }

  lemma TwinsThenEqual(a: seq<Field>, b: seq<Field>)
    requires |a| == |b| && DistinctKeys(a) && DistinctKeys(b)
    requires forall i :: 0 <= i < |a| ==> HasTwin(a[i], b)
    ensures NormalFields(a) == NormalFields(b)
  {
    hide Normal, Sorted, NormalFields, DistinctKeys;
    NormalFieldsForm(a);
    NormalFieldsForm(b);
    forall g | g in NormalFields(a) ensures g in NormalFields(b) {
      var i :| 0 <= i < |a| && g == Field(a[i].key, Normal(a[i].value));
      assert HasTwin(a[i], b);
      var j :| 0 <= j < |b| && Twins(a[i], b[j]);
      assert g == Field(b[j].key, Normal(b[j].value));
    }
    SortedUnique(NormalFields(a), NormalFields(b));
  }

  lemma EqualThenTwin(a: seq<Field>, b: seq<Field>, i: nat)
    requires DistinctKeys(a) && DistinctKeys(b) && NormalFields(a) == NormalFields(b) && i < |a|
    ensures HasTwin(a[i], b)
  {
    hide Normal, Sorted, NormalFields, DistinctKeys;
    NormalFieldsForm(a);
    NormalFieldsForm(b);
    var g := Field(a[i].key, Normal(a[i].value));
    assert g in NormalFields(b);
    var j :| 0 <= j < |b| && g == Field(b[j].key, Normal(b[j].value));
    assert Twins(a[i], b[j]);
  }

  lemma SameIsTwin(f: Field, fields: seq<Field>)
    requires forall j :: 0 <= j < |fields| ==> (SameField(f, fields[j]) <==> Twins(f, fields[j]))
    ensures HasSame(f, fields) <==> HasTwin(f, fields)
  {
    hide SameField, Twins;
  }

  lemma SameFields(a: seq<Field>, b: seq<Field>)
    requires |a| == |b| && DistinctKeys(a) && DistinctKeys(b)
    requires forall i :: 0 <= i < |a| ==> (HasSame(a[i], b) <==> HasTwin(a[i], b))
    ensures (forall i :: 0 <= i < |a| ==> HasSame(a[i], b)) <==> NormalFields(a) == NormalFields(b)
  {
    hide HasSame, HasTwin, NormalFields, DistinctKeys;
    if forall i :: 0 <= i < |a| ==> HasSame(a[i], b) { TwinsThenEqual(a, b); }
    if NormalFields(a) == NormalFields(b) {
      forall i | 0 <= i < |a| ensures HasSame(a[i], b) { EqualThenTwin(a, b, i); }
    }
  }

  /** A strictly sorted list is determined by its members. */
  lemma {:induction false} SortedUnique(x: seq<Field>, y: seq<Field>)
    requires Sorted(x) && Sorted(y) && |x| == |y| && forall g :: g in x ==> g in y
    ensures x == y
    decreases |x|
  {
    if x == [] { return; }
    var (f, g) := (Last(x), Last(y));
    assert f in y;
    var k :| 0 <= k < |y| && y[k] == f;
    if k < |y| - 1 {
      TooFewLeft(x, y, k);
    }
    assert f == g;
    forall h | h in Front(x) ensures h in Front(y) {
      var i :| 0 <= i < |Front(x)| && Front(x)[i] == h;
      assert h in x && h in y;
      LessIsTotal(x[i].key, f.key);
      var j :| 0 <= j < |y| && y[j] == h;
      assert j != |y| - 1;
      assert Front(y)[j] == h;
    }
    SortedUnique(Front(x), Front(y));
    assert x == Front(x) + [f] && y == Front(y) + [g];
  }

  lemma SmallerIsEarlier(y: seq<Field>, j: nat, k: nat)
    requires Sorted(y) && j < |y| && k < |y| && Less(y[j].key, y[k].key)
    ensures j < k
  {
    LessIsTotal(y[j].key, y[k].key);
  }

  /** All members of `x` would have to fit among the first k + 1 members of `y`. */
  lemma {:induction false} TooFewLeft(x: seq<Field>, y: seq<Field>, k: nat)
    requires Sorted(x) && Sorted(y) && x != [] && k < |y| && y[k] == Last(x) && (forall g :: g in x ==> g in y)
    ensures |x| <= k + 1
    decreases |x|
  {
    if |x| == 1 { return; }
    var f := x[|x| - 2];
    assert f in x;
    var j :| 0 <= j < |y| && y[j] == f;
    SmallerIsEarlier(y, j, k);
    forall g | g in Front(x) ensures g in y { assert g in x; }
    TooFewLeft(Front(x), y, j);
  }

  /** Reading the units of a text loses nothing of the units. */
  lemma {:induction false} UnitsJoin(us: seq<nat>)
    requires ValidUnits(us)
    ensures Units(Join(us)) == us
    decreases |us|
  {
    if us == [] { return; }
    var t := Join(us);
    if |us| >= 2 && High(us[0]) && Low(us[1]) {
      UnitsJoin(us[2..]);
      assert t[1..] == Join(us[2..]) && us == [us[0], us[1]] + us[2..];
    } else {
      UnitsJoin(us[1..]);
      assert t[1..] == Join(us[1..]) && us == [us[0]] + us[1..];
    }
  }

  lemma SameQuote(t: Text, u: Text)
    requires ValidText(t) && ValidText(u) && Join(Units(t)) == Join(Units(u))
    ensures Quote(t) == Quote(u)
  {
    hide Units, Join, EscapeAll;
    UnitsValid(t);
    UnitsValid(u);
    UnitsJoin(Units(t));
    UnitsJoin(Units(u));
  }

  /** Values that are read back alike are printed alike. */
  lemma {:induction false} SamePrint(v: Json, w: Json)
    requires Printable(v) && Printable(w) && Joined(v) == Joined(w)
    ensures Print(v) == Print(w)
    decreases v, 1
  {
    hide Quote, Join, Units;
    match v
    case Str(text) => SameQuote(text, w.text);
    case Arr(items) => if items != [] { SamePrintItems(items, w.items); }
    case Obj(fields) => if fields != [] { SamePrintFields(fields, w.fields); }
    case _ =>
  }

  lemma {:induction false} SamePrintItems(v: seq<Json>, w: seq<Json>)
    requires v != [] && w != [] && PrintableItems(v) && PrintableItems(w) && JoinedItems(v) == JoinedItems(w)
    ensures PrintItems(v) == PrintItems(w)
    decreases v, 2
  {
    hide Joined, Print;
    assert |v| == |JoinedItems(v)| == |w| && Joined(v[0]) == JoinedItems(v)[0] == Joined(w[0]);
    SamePrint(v[0], w[0]);
    if |v| > 1 {
      assert JoinedItems(v[1..]) == JoinedItems(v)[1..] == JoinedItems(w[1..]);
      SamePrintItems(v[1..], w[1..]);
    }
  }

  lemma SamePrintField(f: Field, g: Field)
    requires ValidText(f.key) && Printable(f.value) && ValidText(g.key) && Printable(g.value)
    requires JoinedField(f) == JoinedField(g)
    ensures PrintField(f) == PrintField(g)
    decreases f, 2
  {
    hide Joined, Join, Units, Print, Quote;
    SameQuote(f.key, g.key);
    SamePrint(f.value, g.value);
  }

  lemma {:induction false} SamePrintFields(v: seq<Field>, w: seq<Field>)
    requires v != [] && w != [] && PrintableFields(v) && PrintableFields(w) && JoinedFields(v) == JoinedFields(w)
    ensures PrintFields(v) == PrintFields(w)
    decreases v, 3
  {
    hide JoinedField, PrintField;
    assert |v| == |JoinedFields(v)| == |w| && JoinedField(v[0]) == JoinedFields(v)[0] == JoinedField(w[0]);
    SamePrintField(v[0], w[0]);
    if |v| > 1 {
      assert JoinedFields(v[1..]) == JoinedFields(v)[1..] == JoinedFields(w[1..]);
      SamePrintFields(v[1..], w[1..]);
    }
  }

  /** For all values, exactly: equal bytes iff the values with sorted keys differ in nothing but split pairs. */
  lemma BytesEqualIffJoinedEqual(sensitive: Text -> bool, v: Json, w: Json)
    requires Freezable(sensitive, v) && Freezable(sensitive, w)
    ensures CanonicalBytes(sensitive, v) == CanonicalBytes(sensitive, w) <==> Joined(Normal(v)) == Joined(Normal(w))
  {
    hide Normal, Joined, Print, ReadValue;
    NormalPrintable(sensitive, v);
    NormalPrintable(sensitive, w);
    ValueRead(Normal(v), "");
    ValueRead(Normal(w), "");
    assert Print(Normal(v)) + "" == Print(Normal(v)) && Print(Normal(w)) + "" == Print(Normal(w));
    if Joined(Normal(v)) == Joined(Normal(w)) { SamePrint(Normal(v), Normal(w)); }
  }

  /** Equal bytes iff equal values, whatever the key order. */
  lemma BytesDetermineValue(sensitive: Text -> bool, v: Json, w: Json)
    requires Freezable(sensitive, v) && Freezable(sensitive, w) && Whole(v) && Whole(w)
    ensures CanonicalBytes(sensitive, v) == CanonicalBytes(sensitive, w) <==> Same(v, w)
  {
    hide Read, Whole;
    DecodeEncode(sensitive, v);
    DecodeEncode(sensitive, w);
    SameIffNormalEqual(sensitive, v, w);
  }

  /** Two lone surrogates and the one code point they would make up have the same bytes. */
  lemma SplitPairCollides(sensitive: Text -> bool)
    ensures var (v, w) := (Str([0xD83D, 0xDE00]), Str([0x1F600]));
            !Same(v, w) && CanonicalBytes(sensitive, v) == CanonicalBytes(sensitive, w)
  {
    hide EscapeAll;
    var t: Text, u: Text := [0xD83D, 0xDE00], [0x1F600];
    assert t[1..] == [0xDE00] && t[1..][1..] == [] && u[1..] == [];
    assert Units(t) == [0xD83D, 0xDE00] == Units(u);
  }

  // ---- Only printable characters

  predicate Ascii(s: string) { forall i :: 0 <= i < |s| ==> ' ' <= s[i] <= '~' }

  lemma HexAscii(d: nat)
    requires d < 16
    ensures ' ' <= HEX[d] <= '~'
  {}

  lemma EscapeAscii(u: nat)
    requires u < 0x10000
    ensures Ascii(Escape(u)) && Escape(u) != ""
  {
    HexSum(u);
    HexAscii(u / 0x1000);
    HexAscii(u / 0x100 % 0x10);
    HexAscii(u / 0x10 % 0x10);
    HexAscii(u % 0x10);
  }

  lemma {:induction false} EscapeAllAscii(us: seq<nat>)
    requires ValidUnits(us)
    ensures Ascii(EscapeAll(us))
  {
    hide Escape;
    if us != [] {
      EscapeAscii(us[0]);
      EscapeAllAscii(us[1..]);
    }
  }

  lemma QuoteAscii(t: Text)
    requires ValidText(t)
    ensures Ascii(Quote(t))
  {
    UnitsValid(t);
    EscapeAllAscii(Units(t));
  }

  lemma IntegerAscii(n: int)
    ensures Ascii(Integer(n))
  {
    DecimalForm(if n < 0 then -n else n);
  }

  lemma {:induction false} PrintAscii(v: Json)
    requires Printable(v)
    ensures Ascii(Print(v)) && Print(v) != ""
    decreases v, 1
  {
    hide Quote;
    FirstOfValue(v);
    match v
    case Int(n) => IntegerAscii(n);
    case Str(text) => QuoteAscii(text);
    case Arr(items) => if items != [] { ItemsAscii(items); }
    case Obj(fields) => if fields != [] { FieldsAscii(fields); }
    case _ =>
  }

  lemma {:induction false} ItemsAscii(items: seq<Json>)
    requires items != [] && PrintableItems(items)
    ensures Ascii(PrintItems(items))
    decreases items, 2
  {
    PrintAscii(items[0]);
    if |items| > 1 { ItemsAscii(items[1..]); }
  }

  lemma {:induction false} FieldsAscii(fields: seq<Field>)
    requires fields != [] && PrintableFields(fields)
    ensures Ascii(PrintFields(fields))
    decreases fields, 2
  {
    QuoteAscii(fields[0].key);
    PrintAscii(fields[0].value);
    if |fields| > 1 { FieldsAscii(fields[1..]); }
  }

  /** Every canonical encoding is a non-empty line of printable ASCII, without a newline. */
  lemma BytesAreOneLine(sensitive: Text -> bool, v: Json)
    requires Freezable(sensitive, v)
    ensures CanonicalBytes(sensitive, v).Ok? && CanonicalBytes(sensitive, v).value != ""
              && Ascii(CanonicalBytes(sensitive, v).value)
    ensures '\n' !in CanonicalBytes(sensitive, v).value
  {
    NormalPrintable(sensitive, v);
    PrintAscii(Normal(v));
  }

  // ---- Each part is written in one way, the shortest

  /** No other text that is read as this unit is shorter than its escape. */
  lemma ShortestEscape(u: nat, text: string)
    requires u < 0x10000 && text != "" && text[0] != '\"' && ReadUnit(text) == Some((u, ""))
    ensures |Escape(u)| <= |text|
  {
    HexFour(u);
    hide Hex, HexUnit;
  }

  /** An integer has a sign exactly when it is negative, and no leading zeros. */
  lemma IntegerForm(n: int)
    ensures var token := Integer(n);
            && token != "" && (token[0] == '-' <==> n < 0) && (token[0] == '0' <==> n == 0)
            && (n < 0 ==> |token| > 1 && token[1] != '0')
  {
    var m: nat := if n < 0 then -n else n;
    NoLeadingZero(m);
    DecimalForm(m);
    hide Decimal;
  }

  // ---- Which values are encoded at all

  /** All keys of all objects in the value. */
  function KeysIn(v: Json): set<Text> {
    match v
    case Arr(items) => set i, k | 0 <= i < |items| && k in KeysIn(items[i]) :: k
    case Obj(fields) =>
      (set i | 0 <= i < |fields| :: fields[i].key)
      + (set i, k | 0 <= i < |fields| && k in KeysIn(fields[i].value) :: k)
    case _ => {}
  }

  /** Beyond what can be printed, a value is refused exactly for a credential-like key at any depth. */
  lemma {:induction false} RefusedForSensitiveKeys(sensitive: Text -> bool, v: Json)
    ensures CanonicalBytes(sensitive, v).Ok? <==> Printable(v) && forall k :: k in KeysIn(v) ==> !sensitive(k)
    decreases v
  {
    match v
    case Arr(items) =>
      forall i | 0 <= i < |items|
        ensures Freezable(sensitive, items[i]) <==>
                  Printable(items[i]) && forall k :: k in KeysIn(items[i]) ==> !sensitive(k)
      {
        RefusedForSensitiveKeys(sensitive, items[i]);
      }
    case Obj(fields) =>
      forall i | 0 <= i < |fields|
        ensures Freezable(sensitive, fields[i].value) <==>
                  Printable(fields[i].value) && forall k :: k in KeysIn(fields[i].value) ==> !sensitive(k)
      {
        RefusedForSensitiveKeys(sensitive, fields[i].value);
      }
      FieldsRefused(sensitive, fields);
    case _ =>
  }

  lemma FieldsRefused(sensitive: Text -> bool, fields: seq<Field>)
    requires forall i :: 0 <= i < |fields| ==>
               (Freezable(sensitive, fields[i].value) <==>
                Printable(fields[i].value) && forall k :: k in KeysIn(fields[i].value) ==> !sensitive(k))
    ensures Freezable(sensitive, Obj(fields)) <==>
              Printable(Obj(fields)) && forall k :: k in KeysIn(Obj(fields)) ==> !sensitive(k)
  {
    hide DistinctKeys;
    if Printable(Obj(fields)) && forall k :: k in KeysIn(Obj(fields)) ==> !sensitive(k) {
      forall i | 0 <= i < |fields|
        ensures !sensitive(fields[i].key) && Freezable(sensitive, fields[i].value)
      {
        assert fields[i].key in KeysIn(Obj(fields));
        forall k | k in KeysIn(fields[i].value) ensures !sensitive(k) { assert k in KeysIn(Obj(fields)); }
      }
    }
  }

  /** A text is encoded exactly when all its code points are Unicode's. */
  lemma TextsEncoded(sensitive: Text -> bool, t: Text)
    ensures CanonicalBytes(sensitive, Str(t)).Ok? <==> forall i :: 0 <= i < |t| ==> t[i] <= 0x10FFFF
  {}
}
