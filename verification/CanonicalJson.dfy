/** The canonical JSON encoding under every digest (src/molly/core/ids.py:157-226), with the
    string grammar of section 7 of RFC 8259.  Texts are sequences of code points; a finite float
    is its decimal token, which always has a point or an exponent. */
module CanonicalJson {
  import opened Decimals
  import opened RunEvents

  type Text = seq<nat>

  datatype Json =
    | Null | Bool(b: bool) | Int(n: int) | Float(token: string) | Str(text: Text)
    | Arr(items: seq<Json>) | Obj(fields: seq<Field>)

  datatype Field = Field(key: Text, value: Json)

  // ---- What `_freeze_json` accepts

  const MAX_CODE_POINT := 0x10FFFF

  predicate ValidText(t: Text) { forall i :: 0 <= i < |t| ==> t[i] <= MAX_CODE_POINT }

  predicate NumberChar(c: char) { '0' <= c <= '9' || c in {'-', '+', '.', 'e'} }

  predicate FloatToken(s: string) {
    s != "" && (s[0] == '-' || '0' <= s[0] <= '9') && (forall i :: 0 <= i < |s| ==> NumberChar(s[i]))
        && ('.' in s || 'e' in s)
  }

  predicate DistinctKeys(fields: seq<Field>) { forall i, j :: 0 <= i < j < |fields| ==> fields[i].key != fields[j].key }

  /** A value without empty, repeated or credential-like keys and without non-finite floats. */
  predicate Freezable(sensitive: Text -> bool, v: Json) {
    match v
    case Null => true
    case Bool(_) => true
    case Int(_) => true
    case Float(token) => FloatToken(token)
    case Str(text) => ValidText(text)
    case Arr(items) => forall i :: 0 <= i < |items| ==> Freezable(sensitive, items[i])
    case Obj(fields) =>
      DistinctKeys(fields)
      && forall i :: 0 <= i < |fields| ==>
           fields[i].key != [] && !sensitive(fields[i].key) && ValidText(fields[i].key)
               && Freezable(sensitive, fields[i].value)
  }

  // ---- Key order

  /** Texts compare by code points, as Python compares strings. */
  predicate Less(a: Text, b: Text) {
    if b == [] then false else if a == [] then true else a[0] < b[0] || (a[0] == b[0] && Less(a[1..], b[1..]))
  }

  lemma {:induction false} LessIsIrreflexive(a: Text)
    ensures !Less(a, a)
  {
    if a != [] { LessIsIrreflexive(a[1..]); }
  }

  lemma {:induction false} LessIsTotal(a: Text, b: Text)
    ensures (Less(a, b) || a == b || Less(b, a)) && !(Less(a, b) && Less(b, a)) && !Less(a, a)
    decreases |a|
  {
    LessIsIrreflexive(a);
    if a != [] && b != [] {
      LessIsTotal(a[1..], b[1..]);
      assert a == [a[0]] + a[1..] && b == [b[0]] + b[1..];
    }
  }

  lemma {:induction false} LessIsTransitive(a: Text, b: Text, c: Text)
    requires Less(a, b) && Less(b, c)
    ensures Less(a, c)
    decreases |a|
  {
    if a != [] && a[0] == b[0] == c[0] { LessIsTransitive(a[1..], b[1..], c[1..]); }
  }

  predicate Sorted(fields: seq<Field>) { forall i, j :: 0 <= i < j < |fields| ==> Less(fields[i].key, fields[j].key) }

  function InsertField(f: Field, fields: seq<Field>): seq<Field> {
    if fields == [] || Less(f.key, fields[0].key) then [f] + fields else [fields[0]] + InsertField(f, fields[1..])
  }

  /** The value with the keys of every object sorted. */
  function Normal(v: Json): Json {
    match v
    case Arr(items) => Arr(NormalItems(items))
    case Obj(fields) => Obj(NormalFields(fields))
    case _ => v
  }

  function NormalItems(items: seq<Json>): (r: seq<Json>)
    ensures |r| == |items| && forall i :: 0 <= i < |items| ==> r[i] == Normal(items[i])
  { if items == [] then [] else [Normal(items[0])] + NormalItems(items[1..]) }

  function NormalFields(fields: seq<Field>): (r: seq<Field>)
    ensures |r| == |fields|
  {
    if fields == [] then []
    else
      InsertLength(Field(fields[0].key, Normal(fields[0].value)), NormalFields(fields[1..]));
      InsertField(Field(fields[0].key, Normal(fields[0].value)), NormalFields(fields[1..]))
  }

  lemma {:induction false} InsertLength(f: Field, fields: seq<Field>)
    ensures |InsertField(f, fields)| == |fields| + 1
    ensures forall g :: g in InsertField(f, fields) <==> g == f || g in fields
  {
    if fields != [] && !Less(f.key, fields[0].key) {
      InsertLength(f, fields[1..]);
      assert fields == [fields[0]] + fields[1..];
    }
  }

  // ---- Strings

  predicate High(u: nat) { 0xD800 <= u <= 0xDBFF }

  predicate Low(u: nat) { 0xDC00 <= u <= 0xDFFF }

  /** The 16-bit units of a text. */
  function Units(t: Text): seq<nat> {
    if t == [] then []
    else if t[0] < 0x10000 then [t[0]] + Units(t[1..])
    else [0xD800 + (t[0] - 0x10000) / 0x400, 0xDC00 + (t[0] - 0x10000) % 0x400] + Units(t[1..])
  }

  /** A high unit and the low unit right after it stand for one code point. */
  function Join(us: seq<nat>): Text {
    if us == [] then []
    else if |us| >= 2 && High(us[0]) && Low(us[1])
    then [0x10000 + (us[0] - 0xD800) * 0x400 + (us[1] - 0xDC00)] + Join(us[2..])
    else [us[0]] + Join(us[1..])
  }

  const HEX := "0123456789abcdef"

  function HexValue(c: char): Option<nat> {
    if '0' <= c <= '9' then Some((c as int - '0' as int) as nat)
    else if 'a' <= c <= 'f' then Some((c as int - 'a' as int + 10) as nat)
    else None
  }

  function Hex(u: nat): string
    requires u < 0x10000
  { [HEX[u / 0x1000], HEX[u / 0x100 % 0x10], HEX[u / 0x10 % 0x10], HEX[u % 0x10]] }

  function Escape(u: nat): string
    requires u < 0x10000
  {
    if u == 0x22 then "\\\""
    else if u == 0x5C then "\\\\"
    else if u == 0x0A then "\\n"
    else if u == 0x0D then "\\r"
    else if u == 0x09 then "\\t"
    else if u == 0x0C then "\\f"
    else if u == 0x08 then "\\b"
    else if 0x20 <= u <= 0x7E then [u as char]
    else "\\u" + Hex(u)
  }

  predicate ValidUnits(us: seq<nat>) { forall i :: 0 <= i < |us| ==> us[i] < 0x10000 }

  function EscapeAll(us: seq<nat>): string
    requires ValidUnits(us)
  { if us == [] then "" else Escape(us[0]) + EscapeAll(us[1..]) }

  lemma {:induction false} UnitsValid(t: Text)
    requires ValidText(t)
    ensures ValidUnits(Units(t))
  {
    if t != [] { UnitsValid(t[1..]); }
  }

  function Quote(t: Text): string
    requires ValidText(t)
  {
    UnitsValid(t);
    "\"" + EscapeAll(Units(t)) + "\""
  }

  // ---- Numbers

  function Integer(n: int): string { if n < 0 then "-" + Decimal(-n) else Decimal(n) }

  // ---- The printer: `json.dumps` in compact form, on sorted keys

  predicate Printable(v: Json) { Freezable(_ => false, v) }

  function Print(v: Json): string
    requires Printable(v)
    decreases v
  {
    match v
    case Null => "null"
    case Bool(b) => if b then "true" else "false"
    case Int(n) => Integer(n)
    case Float(token) => token
    case Str(text) => Quote(text)
    case Arr(items) => if items == [] then "[]" else "[" + PrintItems(items)
    case Obj(fields) => if fields == [] then "{}" else "{" + PrintFields(fields)
  }

  predicate PrintableItems(items: seq<Json>) { forall i :: 0 <= i < |items| ==> Printable(items[i]) }

  predicate PrintableFields(fields: seq<Field>) {
    forall i :: 0 <= i < |fields| ==> fields[i].key != [] && ValidText(fields[i].key) && Printable(fields[i].value)
  }

  function PrintItems(items: seq<Json>): string
    requires items != [] && PrintableItems(items)
    decreases items
  {
    if |items| == 1 then Print(items[0]) + "]" else Print(items[0]) + "," + PrintItems(items[1..])
  }

  function PrintField(f: Field): string
    requires ValidText(f.key) && Printable(f.value)
    decreases f
  { Quote(f.key) + ":" + Print(f.value) }

  function PrintFields(fields: seq<Field>): string
    requires fields != [] && PrintableFields(fields)
    decreases fields
  {
    if |fields| == 1 then PrintField(fields[0]) + "}" else PrintField(fields[0]) + "," + PrintFields(fields[1..])
  }

  datatype JsonError = NotCanonicalJson

  lemma {:induction false} NormalPrintable(sensitive: Text -> bool, v: Json)
    requires Freezable(sensitive, v)
    ensures Printable(Normal(v))
    decreases v
  {
    match v
    case Arr(items) =>
      forall i | 0 <= i < |items| ensures Printable(NormalItems(items)[i]) { NormalPrintable(sensitive, items[i]); }
    case Obj(fields) =>
      forall i | 0 <= i < |fields| ensures Printable(Normal(fields[i].value)) {
        NormalPrintable(sensitive, fields[i].value);
      }
      NormalFieldsForm(fields);
      SortedIsDistinct(NormalFields(fields));
      PrintableFromOrigin(fields);
    case _ =>
  }

  lemma PrintableFromOrigin(fields: seq<Field>)
    requires forall i :: 0 <= i < |fields| ==>
               fields[i].key != [] && ValidText(fields[i].key) && Printable(Normal(fields[i].value))
    requires forall g :: g in NormalFields(fields) ==>
               exists i :: 0 <= i < |fields| && g == Field(fields[i].key, Normal(fields[i].value))
    ensures PrintableFields(NormalFields(fields))
  {
    forall k | 0 <= k < |NormalFields(fields)|
      ensures NormalFields(fields)[k].key != [] && ValidText(NormalFields(fields)[k].key)
                && Printable(NormalFields(fields)[k].value)
    {
      assert NormalFields(fields)[k] in NormalFields(fields);
    }
  }

  /** `canonical_json_bytes`. */
  function CanonicalBytes(sensitive: Text -> bool, v: Json): Result<string, JsonError> {
    if !Freezable(sensitive, v) then Err(NotCanonicalJson)
    else
      NormalPrintable(sensitive, v);
      Ok(Print(Normal(v)))
  }

  // ---- Normal forms: sorted, with the same fields

  lemma {:induction false} InsertSorted(f: Field, fields: seq<Field>)
    requires Sorted(fields) && forall i :: 0 <= i < |fields| ==> fields[i].key != f.key
    ensures Sorted(InsertField(f, fields))
    decreases |fields|
  {
    if fields == [] { return; }
    LessIsTotal(f.key, fields[0].key);
    if Less(f.key, fields[0].key) {
      forall i | 0 < i < |fields| ensures Less(f.key, fields[i].key) {
        LessIsTransitive(f.key, fields[0].key, fields[i].key);
      }
    } else {
      InsertSorted(f, fields[1..]);
      InsertLength(f, fields[1..]);
      var rest := InsertField(f, fields[1..]);
      forall i | 0 <= i < |rest| ensures Less(fields[0].key, rest[i].key) {
        assert rest[i] in rest;
        if rest[i] != f {
          var j :| 0 <= j < |fields[1..]| && fields[1..][j] == rest[i];
          assert fields[j + 1] == rest[i];
        }
      }
    }
  }

  lemma {:induction false} NormalFieldsForm(fields: seq<Field>)
    requires DistinctKeys(fields)
    ensures Sorted(NormalFields(fields))
    ensures forall i :: 0 <= i < |fields| ==> Field(fields[i].key, Normal(fields[i].value)) in NormalFields(fields)
    ensures forall g :: g in NormalFields(fields) ==>
              exists i :: 0 <= i < |fields| && g == Field(fields[i].key, Normal(fields[i].value))
    decreases |fields|
  {
    hide Normal, Sorted;
    if fields == [] { NothingSorted(); return; }
    var (f, rest) := (Field(fields[0].key, Normal(fields[0].value)), NormalFields(fields[1..]));
    NormalFieldsForm(fields[1..]);
    InsertLength(f, rest);
    forall i | 0 <= i < |rest| ensures rest[i].key != f.key {
      assert rest[i] in rest;
      var j :| 0 <= j < |fields[1..]| && rest[i] == Field(fields[1..][j].key, Normal(fields[1..][j].value));
      assert fields[j + 1].key == rest[i].key;
    }
    InsertSorted(f, rest);
    forall i | 0 <= i < |fields| ensures Field(fields[i].key, Normal(fields[i].value)) in InsertField(f, rest) {
      if i > 0 { assert fields[1..][i - 1] == fields[i]; }
    }
    forall g | g in InsertField(f, rest)
      ensures exists i :: 0 <= i < |fields| && g == Field(fields[i].key, Normal(fields[i].value))
    {
      if g != f {
        var j :| 0 <= j < |fields[1..]| && g == Field(fields[1..][j].key, Normal(fields[1..][j].value));
        assert fields[j + 1] == fields[1..][j];
      }
    }
  }

  lemma NothingSorted() ensures Sorted([]) {}

  lemma SortedIsDistinct(fields: seq<Field>)
    requires Sorted(fields)
    ensures DistinctKeys(fields)
  {
    forall i, j | 0 <= i < j < |fields| ensures fields[i].key != fields[j].key {
      LessIsTotal(fields[i].key, fields[j].key);
    }
  }
}
