/** JSON values as the sources see them after `JSON.parse`, and the two
    ways the sources turn a value into text: string interpolation
    (`${v}`, JavaScript's `String(v)`) and `JSON.stringify(v)`.
    Numbers are integers here.  An object's members are listed in the
    order JavaScript enumerates its own keys (integer-like keys first, in
    ascending order, then the others in insertion order), which is the
    order `JSON.stringify` writes them in; the objects `JSON.parse` builds
    have distinct keys. */
module Json {
  import opened Base

  datatype Json =
    | JNull
    | JBool(b: bool)
    | JNumber(n: int)
    | JString(s: string)
    | JArray(items: seq<Json>)
    | JObject(members: seq<Member>)

  datatype Member = Member(key: string, value: Json)

  /** Property access `obj[key]`: the member with that key, if any. */
  function Lookup(members: seq<Member>, key: string): (r: Option<Json>)
    ensures r.Some? <==> exists i :: 0 <= i < |members| && members[i].key == key
  {
    if |members| == 0 then None
    else if members[0].key == key then Some(members[0].value)
    else Lookup(members[1..], key)
  }

  /** `${v}`: how a template literal renders a value.  Array elements
      that are `null` render as the empty string, as `Array.prototype.join`
      does, and every object renders as `[object Object]`. */
  function Render(j: Json): string
    decreases j
  {
    match j
    case JNull => "null"
    case JBool(b) => if b then "true" else "false"
    case JNumber(n) => IntToString(n)
    case JString(s) => s
    case JArray(items) =>
      Join(seq(|items|, i requires 0 <= i < |items| => if items[i].JNull? then "" else Render(items[i])), ",")
    case JObject(_) => "[object Object]"
  }

  function HexDigit(d: nat): char
    requires d < 16
  {
    "0123456789abcdef"[d]
  }

  /** The escape `JSON.stringify` writes for one character of a string. */
  function EscapeChar(c: char): (r: string)
    ensures |r| >= 1
    ensures r[0] != '"' || c == '"'
  {
    if c == '"' then "\\\""
    else if c == '\\' then "\\\\"
    else if c == '\n' then "\\n"
    else if c == '\r' then "\\r"
    else if c == '\t' then "\\t"
    else if c as int == 8 then "\\b"
    else if c as int == 12 then "\\f"
    else if (c as int) < 32 then "\\u00" + [HexDigit((c as int) / 16), HexDigit((c as int) % 16)]
    else [c]
  }

  function Escape(s: string): string
  {
    if |s| == 0 then "" else EscapeChar(s[0]) + Escape(s[1..])
  }

  /** A string literal as `JSON.stringify` writes it. */
  function Quote(s: string): (r: string)
    ensures |r| >= 2 && r[0] == '"'
  {
    "\"" + Escape(s) + "\""
  }

  /** `JSON.stringify(v)`, without indentation. */
  function Stringify(j: Json): string
    decreases j
  {
    match j
    case JNull => "null"
    case JBool(b) => if b then "true" else "false"
    case JNumber(n) => IntToString(n)
    case JString(s) => Quote(s)
    case JArray(items) =>
      "[" + Join(seq(|items|, i requires 0 <= i < |items| => Stringify(items[i])), ",") + "]"
    case JObject(members) =>
      "{" + Join(seq(|members|, i requires 0 <= i < |members| =>
                    Quote(members[i].key) + ":" + Stringify(members[i].value)), ",") + "}"
  }

  /** The characters a serialised value can start with. */
  predicate OpensValue(c: char) {
    c in "nft-0123456789\"[{"
  }

  lemma {:induction false} JoinStartsWithFirst(parts: seq<string>, sep: string)
    requires |parts| >= 1 && |parts[0]| >= 1
    ensures |Join(parts, sep)| >= 1 && Join(parts, sep)[0] == parts[0][0]
  {
  }

  /** Every serialised value is non-empty and opens with a character that
      begins a JSON literal, number, string, array or object. */
  lemma {:induction false} StringifyOpens(j: Json)
    ensures |Stringify(j)| >= 1 && OpensValue(Stringify(j)[0])
  {
    match j
    case JNull =>
    case JBool(b) =>
    case JNumber(n) =>
      var d := NatToString(if n >= 0 then n else -n);
      assert '0' <= d[0] <= '9';
    case JString(s) =>
    case JArray(items) =>
    case JObject(members) =>
  }

  /** `JSON.stringify` never yields the placeholder `[object Object]` that
      `String(v)` gives for a plain object: an array opens with `[` and is
      followed either by `]` or by the opening character of a value. */
  lemma {:induction false} StringifyIsNotPlaceholder(j: Json)
    ensures Stringify(j) != "[object Object]"
  {
    var placeholder := "[object Object]";
    match j
    case JArray(items) =>
      if |items| > 0 {
        var parts := seq(|items|, i requires 0 <= i < |items| => Stringify(items[i]));
        StringifyOpens(items[0]);
        JoinStartsWithFirst(parts, ",");
        var body := Join(parts, ",");
        assert Stringify(j) == "[" + body + "]";
        assert Stringify(j)[1] == body[0] == Stringify(items[0])[0];
        assert placeholder[1] == 'o';
      } else {
        assert Stringify(j) == "[]";
      }
    case JObject(members) =>
      assert Stringify(j)[0] == '{';
    case JString(s) =>
      assert Stringify(j)[0] == '"';
    case JNumber(n) =>
      StringifyOpens(j);
    case JNull =>
    case JBool(b) =>
  }
}
