/** The slice of the JavaScript value model the route handlers rely on: JSON
    values as `request.json()` yields them, truthiness, property access,
    rendering inside a template literal, object spread, and the string
    quoting of `JSON.stringify`. */
module Json {
  import opened Strings

  datatype Option<T> = None | Some(value: T)

  /** One element of a Node.js `Buffer`. */
  type Byte = b: int | 0 <= b < 256

  /** A JSON value. A number is held as the text JavaScript's `String(x)`
      renders it as (so `-0` is held as "0"); object key order is not kept. */
  datatype JsonValue =
    | JNull
    | JBool(b: bool)
    | JNumber(repr: string)
    | JString(s: string)
    | JArray(items: seq<JsonValue>)
    | JObject(fields: map<string, JsonValue>)

  /** JavaScript truthiness of a value that may be `undefined` (`None`):
      `undefined`, `null`, `false`, `0`, `NaN` and `""` are falsy. */
  predicate Truthy(v: Option<JsonValue>) {
    match v
    case None => false
    case Some(JNull) => false
    case Some(JBool(b)) => b
    case Some(JNumber(repr)) => repr != "0" && repr != "NaN"
    case Some(JString(s)) => s != []
    case Some(_) => true
  }

  /** `v.key` for a `v` that is neither `null` nor `undefined`: only an
      object's own fields are found. */
  function Prop(v: JsonValue, key: string): Option<JsonValue> {
    if v.JObject? && key in v.fields then Some(v.fields[key]) else None
  }

  /** A request body as `await request.json()` sees it: text that is not
      JSON makes the call throw. */
  datatype Body = Unparseable | Parsed(value: JsonValue)

  /** `const { a, b } = await request.json()` throws on a body that is not
      JSON and on a `null` body; otherwise each name reads a property. */
  predicate Destructurable(body: Body) {
    body.Parsed? && !body.value.JNull?
  }

  function Field(body: Body, key: string): Option<JsonValue>
    requires Destructurable(body)
  {
    Prop(body.value, key)
  }

  /** The JSON reply of an API route: `{success: true, data}` with status
      200, or `{success: false, error}` with an error status. */
  datatype Reply<T> = Success(data: T) | Failure(status: int, error: string)

  /** `${v}`: how a template literal renders a value. */
  function Render(v: Option<JsonValue>): string {
    match v
    case None => "undefined"
    case Some(x) => RenderValue(x)
  }

  function RenderValue(v: JsonValue): string
    decreases v, 1
  {
    match v
    case JNull => "null"
    case JBool(b) => if b then "true" else "false"
    case JNumber(repr) => repr
    case JString(s) => s
    case JArray(items) => RenderItems(items)
    case JObject(_) => "[object Object]"
  }

  /** `Array.prototype.toString`: the elements joined by ",", with `null`
      elements rendered as the empty string. */
  function RenderItems(items: seq<JsonValue>): string
    decreases items, 0
  {
    if |items| == 0 then ""
    else
      var head := if items[0].JNull? then "" else RenderValue(items[0]);
      if |items| == 1 then head else head + "," + RenderItems(items[1..])
  }

  /** The own enumerable properties `{...v}` copies from a value: an
      object's fields, an array's elements or a string's characters under
      their decimal index, and nothing for `null`, booleans and numbers. */
  function SpreadFields(v: JsonValue): map<string, JsonValue> {
    match v
    case JObject(fields) => fields
    case JArray(items) => Indexed(items)
    case JString(s) => Indexed(seq(|s|, i requires 0 <= i < |s| => JString([s[i]])))
    case _ => map[]
  }

  function Indexed(xs: seq<JsonValue>): (m: map<string, JsonValue>)
    ensures forall i :: 0 <= i < |xs| ==> NatToString(i) in m && m[NatToString(i)] == xs[i]
  {
    if xs == [] then map[]
    else
      var m := Indexed(xs[..|xs| - 1]);
      assert forall i :: 0 <= i < |xs| - 1 ==> NatToString(i) != NatToString(|xs| - 1) by {
        forall i | 0 <= i < |xs| - 1 ensures NatToString(i) != NatToString(|xs| - 1) {
          if NatToString(i) == NatToString(|xs| - 1) { NatToStringInjective(i, |xs| - 1); }
        }
      }
      m[NatToString(|xs| - 1) := xs[|xs| - 1]]
  }

  /** `{...v, key: x}`: the spread fields of `v` with `key` set to `x`. */
  function SpreadWith(v: JsonValue, key: string, x: JsonValue): (r: JsonValue)
    ensures r.JObject? && key in r.fields && r.fields[key] == x
    ensures forall k :: k in SpreadFields(v) && k != key ==> k in r.fields && r.fields[k] == SpreadFields(v)[k]
    ensures forall k :: k in r.fields ==> k == key || k in SpreadFields(v)
  {
    JObject(SpreadFields(v)[key := x])
  }

  // ---------------------------------------------------------------------
  // JSON.stringify of a string

  function HexDigit(d: nat): (c: char)
    requires d < 16
    ensures ('0' <= c <= '9' || 'a' <= c <= 'f') && HexValue(c) == d
  {
    "0123456789abcdef"[d]
  }

  /** The escape `JSON.stringify` writes for one character. */
  function EscapeChar(c: char): (r: string)
    ensures |r| >= 1
    ensures r[0] == '\\' || (|r| == 1 && r[0] == c)
  {
    if c == '"' then "\\\""
    else if c == '\\' then "\\\\"
    else if c == '\U{8}' then "\\b"
    else if c == '\t' then "\\t"
    else if c == '\n' then "\\n"
    else if c == '\U{C}' then "\\f"
    else if c == '\r' then "\\r"
    else if (c as int) < 0x20 then ['\\', 'u', '0', '0', HexDigit((c as int) / 16), HexDigit((c as int) % 16)]
    else [c]
  }

  /** The body of `JSON.stringify(s)` for a string `s`, without its quotes. */
  function Escape(s: string): string {
    if s == [] then "" else EscapeChar(s[0]) + Escape(s[1..])
  }

  /** No character below U+0020 (so no line break) survives quoting, and a
      double quote only appears escaped. */
  lemma {:induction false} EscapeHasNoControl(s: string)
    ensures forall i :: 0 <= i < |Escape(s)| ==> (Escape(s)[i] as int) >= 0x20
    ensures forall i :: 0 <= i < |Escape(s)| && Escape(s)[i] == '"' ==> i > 0 && Escape(s)[i - 1] == '\\'
  {
    if s != [] {
      EscapeHasNoControl(s[1..]);
      EscapeCharSafe(s[0]);
      SafeConcat(EscapeChar(s[0]), Escape(s[1..]));
    }
  }

  /** No control character, and every double quote preceded by a backslash. */
  predicate Safe(e: string) {
    (forall i :: 0 <= i < |e| ==> (e[i] as int) >= 0x20) &&
    (forall i :: 0 <= i < |e| && e[i] == '"' ==> i > 0 && e[i - 1] == '\\')
  }

  lemma EscapeCharSafe(c: char)
    ensures Safe(EscapeChar(c))
  {
    if (c as int) < 0x20 && c != '\U{8}' && c != '\t' && c != '\n' && c != '\U{C}' && c != '\r' && c != '"' && c != '\\' {
      var r := ['\\', 'u', '0', '0', HexDigit((c as int) / 16), HexDigit((c as int) % 16)];
      assert EscapeChar(c) == r;
      assert forall i :: 0 <= i < |r| ==> r[i] != '"' && (r[i] as int) >= 0x20;
    }
  }

  lemma SafeConcat(e: string, t: string)
    requires Safe(e) && Safe(t)
    ensures Safe(e + t)
  {
    forall i | 0 <= i < |e + t| ensures ((e + t)[i] as int) >= 0x20 {
      if i >= |e| { assert (e + t)[i] == t[i - |e|]; }
    }
    forall i | 0 <= i < |e + t| && (e + t)[i] == '"' ensures i > 0 && (e + t)[i - 1] == '\\' {
      if i >= |e| {
        assert (e + t)[i] == t[i - |e|];
        if i > |e| { assert (e + t)[i - 1] == t[i - 1 - |e|]; }
      }
    }
  }

  function HexValue(c: char): nat {
    if '0' <= c <= '9' then (c as int) - ('0' as int)
    else if 'a' <= c <= 'f' then (c as int) - ('a' as int) + 10
    else 0
  }

  /** Reads back the escapes `EscapeChar` writes; `None` on anything else. */
  function Unescape(e: string): Option<string>
    decreases |e|
  {
    if e == [] then Some("")
    else if e[0] != '\\' then
      (if e[0] == '"' || (e[0] as int) < 0x20 then None
       else match Unescape(e[1..]) case None => None case Some(t) => Some([e[0]] + t))
    else if |e| < 2 then None
    else
      var c := e[1];
      var single :=
        if c == '"' then Some('"') else if c == '\\' then Some('\\')
        else if c == 'b' then Some('\U{8}') else if c == 't' then Some('\t')
        else if c == 'n' then Some('\n') else if c == 'f' then Some('\U{C}')
        else if c == 'r' then Some('\r') else None;
      if single.Some? then
        match Unescape(e[2..]) case None => None case Some(t) => Some([single.value] + t)
      else if c == 'u' && |e| >= 6 && e[2] == '0' && e[3] == '0' then
        var code := 16 * HexValue(e[4]) + HexValue(e[5]);
        match Unescape(e[6..]) case None => None case Some(t) => Some([code as char] + t)
      else None
  }

  lemma UnescapeChar(c: char, rest: string)
    ensures Unescape(EscapeChar(c) + rest) ==
      (match Unescape(rest) case None => None case Some(t) => Some([c] + t))
  {
    var e := EscapeChar(c) + rest;
    if (c as int) < 0x20 && c != '\U{8}' && c != '\t' && c != '\n' && c != '\U{C}' && c != '\r' {
      UnescapeHex(c, rest);
    } else if |EscapeChar(c)| == 2 {
      assert e[2..] == rest;
    } else {
      assert e[1..] == rest;
    }
  }

  /** The `\u00XX` form of a control character reads back. */
  lemma UnescapeHex(c: char, rest: string)
    requires (c as int) < 0x20 && c != '\U{8}' && c != '\t' && c != '\n' && c != '\U{C}' && c != '\r'
    ensures Unescape(EscapeChar(c) + rest) ==
      (match Unescape(rest) case None => None case Some(t) => Some([c] + t))
  {
    var hi := (c as int) / 16;
    var lo := (c as int) % 16;
    var e := ['\\', 'u', '0', '0', HexDigit(hi), HexDigit(lo)] + rest;
    assert EscapeChar(c) + rest == e;
    assert e[6..] == rest;
  }

  /** Escaping is lossless: unescaping `Escape(s)` gives `s` back. */
  lemma {:induction false} UnescapeEscape(s: string)
    ensures Unescape(Escape(s)) == Some(s)
  {
    if s != [] {
      UnescapeEscape(s[1..]);
      UnescapeChar(s[0], Escape(s[1..]));
      assert [s[0]] + s[1..] == s;
    }
  }

  // ---------------------------------------------------------------------
  // String.prototype.toLowerCase, restricted to ASCII letters

  function AsciiLower(s: string): (r: string)
    ensures |r| == |s|
    ensures forall i :: 0 <= i < |s| ==> r[i] == (if 'A' <= s[i] <= 'Z' then (s[i] as int + 32) as char else s[i])
  {
    if s == [] then "" else
      [if 'A' <= s[0] <= 'Z' then (s[0] as int + 32) as char else s[0]] + AsciiLower(s[1..])
  }
}
