/**
 * `json.dumps` with its default settings (`ensure_ascii=True`, separators
 * `", "` and `": "`, no indentation), over the values `json.loads` produces.
 * Floating-point numbers are not part of this model.
 */
module JsonText {
  import opened PyText

  /** A decoded JSON value: `None`, `bool`, `int`, `str`, `list` or `dict`. */
  datatype Json =
    | JNull
    | JBool(b: bool)
    | JInt(i: int)
    | JStr(s: string)
    | JArr(items: seq<Json>)
    | JObj(members: seq<(string, Json)>)

  /** Only the printable ASCII characters, space to tilde. */
  predicate Printable(s: string) {
    forall k :: 0 <= k < |s| ==> ' ' <= s[k] <= '~'
  }

  /** Every printable character except the space is something `strip()` and `split()` keep. */
  lemma PrintableSpace(c: char)
    requires ' ' <= c <= '~'
    ensures IsSpace(c) <==> c == ' '
  {
  }

  const HexDigits := "0123456789abcdef"

  /** `'{0:04x}'.format(n)`. */
  function Hex4(n: int): (h: string)
    requires 0 <= n < 0x10000
    ensures |h| == 4
    ensures forall k :: 0 <= k < 4 ==> h[k] in HexDigits
  {
    [HexDigits[n / 0x1000], HexDigits[n / 0x100 % 0x10], HexDigits[n / 0x10 % 0x10], HexDigits[n % 0x10]]
  }

  /** `\uXXXX`. */
  function UnicodeEscape(n: int): (e: string)
    requires 0 <= n < 0x10000
    ensures |e| == 6 && e[0] == '\\' && Printable(e) && ' ' !in e
  {
    var h := Hex4(n);
    ['\\', 'u'] + h
  }

  /**
   * What `json.dumps` writes for one character of a string: printable ASCII other
   * than the quote and the backslash as itself, everything else as a backslash escape
   * (a UTF-16 surrogate pair above U+FFFF).
   */
  function Escape(c: char): (e: string)
    ensures Printable(e) && |e| >= 1
    ensures e == [c] <==> ' ' <= c <= '~' && c != '"' && c != '\\'
    ensures e != [c] ==> e[0] == '\\'
    ensures ' ' in e <==> c == ' '
  {
    var n := c as int;
    if c == '"' then ['\\', '"']
    else if c == '\\' then ['\\', '\\']
    else if ' ' <= c <= '~' then [c]
    else if c == '\n' then ['\\', 'n']
    else if c == '\r' then ['\\', 'r']
    else if c == '\t' then ['\\', 't']
    else if n == 0x08 then ['\\', 'b']
    else if n == 0x0C then ['\\', 'f']
    else if n < 0x10000 then UnicodeEscape(n)
    else
      var v := n - 0x10000;
      UnicodeEscape(0xD800 + v / 0x400) + UnicodeEscape(0xDC00 + v % 0x400)
  }

  /** The escaped body of a string, character by character. */
  function EscapeAll(s: string): (r: string)
    ensures Printable(r) && |r| >= |s|
    ensures ' ' in r <==> ' ' in s
  {
    if s == [] then [] else
      var head, tail := Escape(s[0]), EscapeAll(s[1..]);
      assert ' ' in s <==> s[0] == ' ' || ' ' in s[1..] by {
        assert s == [s[0]] + s[1..];
      }
      head + tail
  }

  /** `json.dumps(s)` for a `str`. */
  function EncodeString(s: string): (r: string)
    ensures Printable(r) && |r| >= |s| + 2
    ensures r[0] == '"' && r[|r| - 1] == '"'
    ensures ' ' in r <==> ' ' in s
  {
    "\"" + EscapeAll(s) + "\""
  }

  function Digit(d: int): (c: char)
    requires 0 <= d < 10
    ensures '0' <= c <= '9'
  {
    "0123456789"[d]
  }

  /** `str(n)` for a natural number. */
  function NatText(n: nat): (r: string)
    ensures r != [] && forall k :: 0 <= k < |r| ==> '0' <= r[k] <= '9'
  {
    if n < 10 then [Digit(n)] else NatText(n / 10) + [Digit(n % 10)]
  }

  /** `json.dumps(i)` for an `int`. */
  function IntText(i: int): (r: string)
    ensures r != [] && Printable(r) && ' ' !in r
    ensures '0' <= r[|r| - 1] <= '9'
    ensures r[0] == '-' <==> i < 0
  {
    if i < 0 then "-" + NatText(-i) else NatText(i)
  }

  /** `json.dumps(j)`. */
  function Dumps(j: Json): string
    decreases j, 1
  {
    match j
    case JNull => "null"
    case JBool(b) => if b then "true" else "false"
    case JInt(i) => IntText(i)
    case JStr(s) => EncodeString(s)
    case JArr(items) => Enclose('[', DumpsItems(j, items), ']')
    case JObj(members) => Enclose('{', DumpsMembers(j, members), '}')
  }

  /** The elements of a list, each encoded, separated by `", "`. */
  function DumpsItems(ghost parent: Json, items: seq<Json>): string
    requires forall k :: 0 <= k < |items| ==> items[k] < parent
    decreases parent, 0, |items|
  {
    if items == [] then ""
    else if |items| == 1 then Dumps(items[0])
    else Dumps(items[0]) + ", " + DumpsItems(parent, items[1..])
  }

  /** The members of an object, each as `key: value`, separated by `", "`. */
  function DumpsMembers(ghost parent: Json, members: seq<(string, Json)>): string
    requires forall k :: 0 <= k < |members| ==> members[k].1 < parent
    decreases parent, 0, |members|
  {
    if members == [] then ""
    else
      var first := EncodeString(members[0].0) + ": " + Dumps(members[0].1);
      if |members| == 1 then first else first + ", " + DumpsMembers(parent, members[1..])
  }

  /**
   * Every output of `json.dumps` is printable ASCII (so it never contains a line
   * break) and neither starts nor ends with a space.
   */
  lemma {:induction false} DumpsShape(j: Json)
    ensures var r := Dumps(j); Printable(r) && r != [] && r[0] != ' ' && r[|r| - 1] != ' '
    decreases j, 1
  {
    match j
    case JArr(items) => DumpsItemsPrintable(j, items);
    case JObj(members) => DumpsMembersPrintable(j, members);
    case _ =>
  }

  lemma {:induction false} DumpsItemsPrintable(parent: Json, items: seq<Json>)
    requires forall k :: 0 <= k < |items| ==> items[k] < parent
    ensures Printable(DumpsItems(parent, items))
    decreases parent, 0, |items|
  {
    if items != [] {
      DumpsShape(items[0]);
      if |items| > 1 {
        DumpsItemsPrintable(parent, items[1..]);
        PrintableConcat(Dumps(items[0]), ", ");
        PrintableConcat(Dumps(items[0]) + ", ", DumpsItems(parent, items[1..]));
      }
    }
  }

  lemma {:induction false} DumpsMembersPrintable(parent: Json, members: seq<(string, Json)>)
    requires forall k :: 0 <= k < |members| ==> members[k].1 < parent
    ensures Printable(DumpsMembers(parent, members))
    decreases parent, 0, |members|
  {
    if members != [] {
      DumpsShape(members[0].1);
      var first := EncodeString(members[0].0) + ": " + Dumps(members[0].1);
      PrintableConcat(EncodeString(members[0].0), ": ");
      PrintableConcat(EncodeString(members[0].0) + ": ", Dumps(members[0].1));
      if |members| > 1 {
        DumpsMembersPrintable(parent, members[1..]);
        PrintableConcat(first, ", ");
        PrintableConcat(first + ", ", DumpsMembers(parent, members[1..]));
      }
    }
  }

  lemma PrintableConcat(a: string, b: string)
    requires Printable(a) && Printable(b)
    ensures Printable(a + b)
  {
  }

  /** A body between two brackets. */
  function Enclose(open: char, body: string, close: char): (r: string)
    requires ' ' < open <= '~' && ' ' < close <= '~'
    ensures Printable(body) ==> Printable(r)
    ensures r != [] && r[0] == open && r[|r| - 1] == close
  {
    [open] + body + [close]
  }

  /** Printable text holds no line break. */
  lemma PrintableNoLineBreak(s: string)
    requires Printable(s)
    ensures NoLineBreak(s)
  {
  }
}
