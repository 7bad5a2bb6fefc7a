/** The part of JSON that `JSON.stringify` writes for an object whose values are strings,
    and a reader for it. The reader is the inverse used to state what the writer keeps. */
module Json {
  import opened Wrappers

  /** Lower-case hexadecimal digit, as `JSON.stringify` writes them in `\u00XX`. */
  function HexDigit(d: nat): (c: char)
    requires d < 16
  {
    if d < 10 then ('0' as int + d) as char else ('a' as int + d - 10) as char
  }

  function HexValue(c: char): Option<nat> {
    if '0' <= c <= '9' then Some(c as int - '0' as int)
    else if 'a' <= c <= 'f' then Some(c as int - 'a' as int + 10)
    else if 'A' <= c <= 'F' then Some(c as int - 'A' as int + 10)
    else None
  }

  lemma HexValueOfHexDigit(d: nat)
    requires d < 16
    ensures HexValue(HexDigit(d)) == Some(d)
  {
  }

  /** How `JSON.stringify` writes one character inside a string literal. */
  function EscapeChar(c: char): string {
    if c == '"' then "\\\""
    else if c == '\\' then "\\\\"
    else if c == '\U{0008}' then "\\b"
    else if c == '\t' then "\\t"
    else if c == '\n' then "\\n"
    else if c == '\U{000C}' then "\\f"
    else if c == '\r' then "\\r"
    else if c < ' ' then "\\u00" + [HexDigit(c as int / 16), HexDigit(c as int % 16)]
    else [c]
  }

  function Escape(s: string): string {
    if s == [] then [] else EscapeChar(s[0]) + Escape(s[1..])
  }

  /** `JSON.stringify(s)` for a string `s`. */
  function Quote(s: string): string {
    "\"" + Escape(s) + "\""
  }

  /** The character that an escape sequence `\u` followed by four hexadecimal digits stands
      for; UTF-16 surrogate halves are outside the model. */
  function UnicodeEscape(t: string): Option<char>
    requires |t| >= 4
  {
    match (HexValue(t[0]), HexValue(t[1]), HexValue(t[2]), HexValue(t[3]))
    case (Some(a), Some(b), Some(c), Some(d)) =>
      var v := ((a * 16 + b) * 16 + c) * 16 + d;
      if v < 0xD800 || 0xE000 <= v then Some(v as char) else None
    case _ => None
  }

  function Prepend(c: char, r: Option<(string, string)>): Option<(string, string)> {
    match r
    case Some((text, rest)) => Some(([c] + text, rest))
    case None => None
  }

  /** Reads the inside of a string literal up to its closing quote: the decoded text and
      what follows the quote. */
  function ReadString(t: string): Option<(string, string)>
    decreases |t|
  {
    if t == [] then None
    else if t[0] == '"' then Some(("", t[1..]))
    else if t[0] < ' ' then None
    else if t[0] != '\\' then Prepend(t[0], ReadString(t[1..]))
    else if |t| < 2 then None
    else if t[1] == '"' then Prepend('"', ReadString(t[2..]))
    else if t[1] == '\\' then Prepend('\\', ReadString(t[2..]))
    else if t[1] == '/' then Prepend('/', ReadString(t[2..]))
    else if t[1] == 'b' then Prepend('\U{0008}', ReadString(t[2..]))
    else if t[1] == 'f' then Prepend('\U{000C}', ReadString(t[2..]))
    else if t[1] == 'n' then Prepend('\n', ReadString(t[2..]))
    else if t[1] == 'r' then Prepend('\r', ReadString(t[2..]))
    else if t[1] == 't' then Prepend('\t', ReadString(t[2..]))
    else if t[1] == 'u' && |t| >= 6 then
      match UnicodeEscape(t[2..6])
      case Some(c) => Prepend(c, ReadString(t[6..]))
      case None => None
    else None
  }

  lemma ReadEscapedChar(c: char, tail: string)
    ensures ReadString(EscapeChar(c) + tail) == Prepend(c, ReadString(tail))
  {
    var t := EscapeChar(c) + tail;
    if c < ' ' && c != '\U{0008}' && c != '\t' && c != '\n' && c != '\U{000C}' && c != '\r' {
      var hi, lo := c as int / 16, c as int % 16;
      HexValueOfHexDigit(hi);
      HexValueOfHexDigit(lo);
      var e := EscapeChar(c);
      assert e == ['\\', 'u', '0', '0', HexDigit(hi), HexDigit(lo)];
      assert t[..6] == e;
      assert t[2..6] == e[2..6];
      assert t[6..] == tail;
    } else if c == '"' || c == '\\' || c == '\U{0008}' || c == '\t' || c == '\n'
           || c == '\U{000C}' || c == '\r' {
      assert t[2..] == tail;
    } else {
      assert t[1..] == tail;
    }
  }

  lemma {:induction false} ReadEscape(s: string, rest: string)
    ensures ReadString(Escape(s) + "\"" + rest) == Some((s, rest))
  {
    if s == [] {
      assert Escape(s) + "\"" + rest == "\"" + rest;
    } else {
      assert Escape(s) + "\"" + rest == EscapeChar(s[0]) + (Escape(s[1..]) + "\"" + rest);
      ReadEscapedChar(s[0], Escape(s[1..]) + "\"" + rest);
      ReadEscape(s[1..], rest);
      assert [s[0]] + s[1..] == s;
    }
  }

  /** A written string literal reads back as the string, leaving what followed it. */
  lemma ReadQuote(s: string, rest: string)
    ensures |Quote(s)| > 0 && Quote(s)[0] == '"'
    ensures ReadString(Quote(s)[1..] + rest) == Some((s, rest))
  {
    assert Quote(s)[1..] + rest == Escape(s) + "\"" + rest;
    ReadEscape(s, rest);
  }

  /** `"key":"value"` as `JSON.stringify` writes one member. */
  function Member(key: string, value: string): string {
    Quote(key) + ":" + Quote(value)
  }

  function Members(keys: seq<string>, values: seq<string>): string
    requires |keys| == |values|
  {
    if keys == [] then ""
    else if |keys| == 1 then Member(keys[0], values[0])
    else Member(keys[0], values[0]) + "," + Members(keys[1..], values[1..])
  }

  /** `JSON.stringify` of an object with string values, members in the order given. */
  function Stringify(keys: seq<string>, values: seq<string>): string
    requires |keys| == |values|
  {
    "{" + Members(keys, values) + "}"
  }

  /** Reads `"key":` followed by a string literal, then the separator `sep`. */
  function ReadMember(t: string, key: string, sep: char): Option<(string, string)> {
    var head := Quote(key) + ":\"";
    if head <= t then
      match ReadString(t[|head|..])
      case Some((value, rest)) =>
        if rest != [] && rest[0] == sep then Some((value, rest[1..])) else None
      case None => None
    else None
  }

  /** Reads the members for `keys`, in that order, then what follows the closing brace. */
  function ReadMembers(t: string, keys: seq<string>): Option<(seq<string>, string)>
    requires keys != []
    decreases |keys|
  {
    var sep := if |keys| == 1 then '}' else ',';
    match ReadMember(t, keys[0], sep)
    case None => None
    case Some((value, rest)) =>
      if |keys| == 1 then Some(([value], rest))
      else
        match ReadMembers(rest, keys[1..])
        case Some((values, rest')) => Some(([value] + values, rest'))
        case None => None
  }

  /** Reads an object with exactly the members `keys` in that order: the values. */
  function Parse(t: string, keys: seq<string>): Option<seq<string>>
    requires keys != []
  {
    if t != [] && t[0] == '{' then
      match ReadMembers(t[1..], keys)
      case Some((values, rest)) => if rest == [] then Some(values) else None
      case None => None
    else None
  }

  lemma ReadWrittenMember(key: string, value: string, sep: char, rest: string)
    ensures ReadMember(Member(key, value) + [sep] + rest, key, sep) == Some((value, rest))
  {
    var head := Quote(key) + ":\"";
    var t := Member(key, value) + [sep] + rest;
    assert Member(key, value) == head + Quote(value)[1..];
    assert t == head + (Quote(value)[1..] + ([sep] + rest));
    assert head <= t;
    assert t[|head|..] == Quote(value)[1..] + ([sep] + rest);
    ReadQuote(value, [sep] + rest);
    assert ([sep] + rest)[1..] == rest;
  }

  lemma {:induction false} ReadWrittenMembers(keys: seq<string>, values: seq<string>, rest: string)
    requires |keys| == |values| && keys != []
    ensures ReadMembers(Members(keys, values) + "}" + rest, keys) == Some((values, rest))
  {
    if |keys| == 1 {
      ReadWrittenMember(keys[0], values[0], '}', rest);
      assert [values[0]] == values;
    } else {
      var tail := Members(keys[1..], values[1..]) + "}" + rest;
      assert Members(keys, values) + "}" + rest == Member(keys[0], values[0]) + [','] + tail;
      ReadWrittenMember(keys[0], values[0], ',', tail);
      ReadWrittenMembers(keys[1..], values[1..], rest);
      assert [values[0]] + values[1..] == values;
    }
  }

  /** Reading back what `Stringify` wrote gives the same values. */
  lemma ParseStringify(keys: seq<string>, values: seq<string>)
    requires |keys| == |values| && keys != []
    ensures Parse(Stringify(keys, values), keys) == Some(values)
  {
    var t := Stringify(keys, values);
    assert t[1..] == Members(keys, values) + "}" + "";
    ReadWrittenMembers(keys, values, "");
  }
}
