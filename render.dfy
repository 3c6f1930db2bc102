/**
 * `_render`: the response triple of compact JSON text, status code and
 * headers. The JSON text is what `json.dumps(data, separators=(",", ":"))`
 * prints with its default `ensure_ascii`.
 */
module Render {
  /** The JSON values the view renders: strings, arrays and objects. */
  datatype Json =
    | JString(s: string)
    | JArray(items: seq<Json>)
    | JObject(members: seq<(string, Json)>)

  datatype Response = Response(body: string, status: int, headers: map<string, string>)

  const JsonHeaders: map<string, string> := map["Content-Type" := "application/json"]

  /** A character printed as itself: printable ASCII other than `"` and `\`. */
  predicate IsPlain(c: char) {
    ' ' <= c <= '~' && c != '"' && c != '\\'
  }

  predicate IsPrintableAscii(c: char) { ' ' <= c <= '~' }

  predicate AllPrintableAscii(s: string) {
    forall i :: 0 <= i < |s| ==> IsPrintableAscii(s[i])
  }

  function HexDigit(d: int): (c: char)
    requires 0 <= d < 16
    ensures IsPlain(c)
  {
    if d < 10 then ('0' as int + d) as char else ('a' as int + d - 10) as char
  }

  /** `\uXXXX` with four lower-case hexadecimal digits. */
  function UnicodeEscape(n: int): (e: string)
    requires 0 <= n < 0x1_0000
    ensures |e| == 6 && AllPrintableAscii(e)
  {
    ['\\', 'u', HexDigit(n / 0x1000), HexDigit(n / 0x100 % 0x10), HexDigit(n / 0x10 % 0x10), HexDigit(n % 0x10)]
  }

  /**
   * How `json.dumps` prints one character of a string: named escapes for the
   * quote, the backslash and five control characters, `\uXXXX` for the
   * remaining characters outside printable ASCII, and a surrogate pair
   * beyond the basic multilingual plane.
   */
  function EscapeChar(c: char): (e: string)
    ensures AllPrintableAscii(e)
    ensures IsPlain(c) <==> e == [c]
  {
    var n := c as int;
    if IsPlain(c) then [c]
    else if c == '"' then "\\\""
    else if c == '\\' then "\\\\"
    else if c == '\n' then "\\n"
    else if c == '\r' then "\\r"
    else if c == '\t' then "\\t"
    else if n == 8 then "\\b"
    else if n == 12 then "\\f"
    else if n < 0x1_0000 then UnicodeEscape(n)
    else
      var m := n - 0x1_0000;
      UnicodeEscape(0xD800 + m / 0x400) + UnicodeEscape(0xDC00 + m % 0x400)
  }

  function Escape(s: string): (e: string)
    ensures AllPrintableAscii(e)
  {
    if s == [] then [] else EscapeChar(s[0]) + Escape(s[1..])
  }

  /** A string made of plain characters only is printed verbatim. */
  lemma {:induction false} EscapePlain(s: string)
    requires forall i :: 0 <= i < |s| ==> IsPlain(s[i])
    ensures Escape(s) == s
  {
    if s != [] {
      EscapePlain(s[1..]);
    }
  }

  /** The elements joined with commas and no spaces. */
  function JoinCommas(parts: seq<string>): string
  {
    if parts == [] then []
    else if |parts| == 1 then parts[0]
    else parts[0] + "," + JoinCommas(parts[1..])
  }

  function Quote(s: string): string { "\"" + Escape(s) + "\"" }

  /** `json.dumps(data, separators=(",", ":"))`. */
  function Serialize(j: Json): (s: string)
    ensures |s| >= 2
    ensures j.JString? ==> s[0] == '"' && s[|s| - 1] == '"'
    ensures j.JArray? ==> s[0] == '[' && s[|s| - 1] == ']'
    ensures j.JObject? ==> s[0] == '{' && s[|s| - 1] == '}'
    decreases j
  {
    match j
    case JString(s) => Quote(s)
    case JArray(items) =>
      "[" + JoinCommas(seq(|items|, i requires 0 <= i < |items| => Serialize(items[i]))) + "]"
    case JObject(members) =>
      "{" + JoinCommas(seq(|members|, i requires 0 <= i < |members| =>
        Quote(members[i].0) + ":" + Serialize(members[i].1))) + "}"
  }

  /** `_render(data, status=200)`. */
  function RenderJson(data: Json, status: int := 200): (r: Response)
    ensures r.body == Serialize(data)
    ensures r.status == status && r.headers == JsonHeaders
    ensures AllPrintableAscii(r.body)
  {
    SerializePrintable(data);
    Response(Serialize(data), status, JsonHeaders)
  }

  /** A list of strings as a JSON array, the shape the view renders. */
  function StringArray(items: seq<string>): (j: Json)
    ensures j.JArray? && |j.items| == |items|
  {
    JArray(seq(|items|, i requires 0 <= i < |items| => JString(items[i])))
  }

  lemma {:induction false} JoinPrintable(parts: seq<string>)
    requires forall i :: 0 <= i < |parts| ==> AllPrintableAscii(parts[i])
    ensures AllPrintableAscii(JoinCommas(parts))
  {
    if |parts| > 1 {
      JoinPrintable(parts[1..]);
    }
  }

  /** Everything `_render` emits is printable ASCII: the body needs no further encoding. */
  lemma {:induction false} SerializePrintable(j: Json)
    ensures AllPrintableAscii(Serialize(j))
    decreases j
  {
    match j
    case JString(s) =>
    case JArray(items) =>
      var parts := seq(|items|, i requires 0 <= i < |items| => Serialize(items[i]));
      forall i | 0 <= i < |items| ensures AllPrintableAscii(parts[i]) {
        SerializePrintable(items[i]);
      }
      JoinPrintable(parts);
    case JObject(members) =>
      var parts := seq(|members|, i requires 0 <= i < |members| =>
        Quote(members[i].0) + ":" + Serialize(members[i].1));
      forall i | 0 <= i < |members| ensures AllPrintableAscii(parts[i]) {
        SerializePrintable(members[i].1);
      }
      JoinPrintable(parts);
  }

  predicate NoSpace(s: string) { forall i :: 0 <= i < |s| ==> s[i] != ' ' }

  /** No string inside `j`, key or value, contains a space. */
  predicate NoSpaceInStrings(j: Json)
    decreases j
  {
    match j
    case JString(s) => NoSpace(s)
    case JArray(items) => forall i :: 0 <= i < |items| ==> NoSpaceInStrings(items[i])
    case JObject(members) =>
      forall i :: 0 <= i < |members| ==> NoSpace(members[i].0) && NoSpaceInStrings(members[i].1)
  }

  lemma {:induction false} EscapeNoSpace(s: string)
    requires NoSpace(s)
    ensures NoSpace(Escape(s))
  {
    if s != [] {
      EscapeNoSpace(s[1..]);
      assert s[0] != ' ';
    }
  }

  lemma {:induction false} JoinNoSpace(parts: seq<string>)
    requires forall i :: 0 <= i < |parts| ==> NoSpace(parts[i])
    ensures NoSpace(JoinCommas(parts))
  {
    if |parts| > 1 {
      JoinNoSpace(parts[1..]);
    }
  }

  /**
   * The separators are "," and ":" with no padding: the only spaces in the
   * text are those inside the strings themselves.
   */
  lemma {:induction false} SerializeCompact(j: Json)
    requires NoSpaceInStrings(j)
    ensures NoSpace(Serialize(j))
    decreases j
  {
    match j
    case JString(s) => EscapeNoSpace(s);
    case JArray(items) =>
      var parts := seq(|items|, i requires 0 <= i < |items| => Serialize(items[i]));
      forall i | 0 <= i < |items| ensures NoSpace(parts[i]) {
        SerializeCompact(items[i]);
      }
      JoinNoSpace(parts);
    case JObject(members) =>
      var parts := seq(|members|, i requires 0 <= i < |members| =>
        Quote(members[i].0) + ":" + Serialize(members[i].1));
      forall i | 0 <= i < |members| ensures NoSpace(parts[i]) {
        EscapeNoSpace(members[i].0);
        SerializeCompact(members[i].1);
      }
      JoinNoSpace(parts);
  }

  /** The test's example: a one-entry object, compact, with status 200 and the JSON header. */
  lemma RenderExample()
    ensures RenderJson(JObject([("x", JString("y"))])) == Response("{\"x\":\"y\"}", 200, JsonHeaders)
    ensures RenderJson(StringArray([])) == Response("[]", 200, JsonHeaders)
  {
    EscapePlain("x");
    EscapePlain("y");
  }

  /** Two suggestions are separated by a bare comma. */
  lemma RenderTwoItems()
    ensures RenderJson(StringArray(["a", "b"])).body == "[\"a\",\"b\"]"
  {
    EscapePlain("a");
    EscapePlain("b");
    var j := StringArray(["a", "b"]);
    assert j.items == [JString("a"), JString("b")];
    assert Serialize(JString("a")) == "\"" + "a" + "\"";
    assert Serialize(JString("b")) == "\"" + "b" + "\"";
    var parts := seq(|j.items|, i requires 0 <= i < |j.items| => Serialize(j.items[i]));
    assert |parts| == 2 && parts[0] == "\"a\"" && parts[1] == "\"b\"";
    assert parts[1..] == ["\"b\""];
    assert JoinCommas(parts) == "\"a\"" + "," + "\"b\"";
  }
}
