/**
 * The user-info record that `setUserInfo` stores and `getUserInfo` reads
 * back (frontend/src/utils/auth.js), with `JSON.stringify` as it writes
 * such a record and `JSON.parse` restricted to the text that `stringify`
 * produces (ECMAScript, sections 25.5.1 and 25.5.2 of ECMA-262).
 */
module UserJson {
  import opened Wrappers

  /** `{ id, name, avatar, roles, permissions }`, as the user store holds it. */
  datatype UserInfo = UserInfo(
    id: string, name: string, avatar: string,
    roles: seq<string>, permissions: seq<string>)

  function HexDigit(n: int): (c: char)
    requires 0 <= n < 16
    ensures ('0' <= c <= '9') || ('a' <= c <= 'f')
  {
    if n < 10 then ('0' as int + n) as char else ('a' as int + n - 10) as char
  }

  /** The value of one hexadecimal digit, either case. */
  function HexValue(c: char): (r: Option<int>)
    ensures r.Some? ==> 0 <= r.value < 16
    ensures r.Some? <==> ('0' <= c <= '9') || ('a' <= c <= 'f') || ('A' <= c <= 'F')
  {
    if '0' <= c <= '9' then Some(c as int - '0' as int)
    else if 'a' <= c <= 'f' then Some(c as int - 'a' as int + 10)
    else if 'A' <= c <= 'F' then Some(c as int - 'A' as int + 10)
    else None
  }

  lemma HexValueOfDigit(n: int)
    requires 0 <= n < 16
    ensures HexValue(HexDigit(n)) == Some(n)
  {
  }

  /**
   * How `JSON.stringify` writes one character inside a string: `"` and `\`
   * are escaped, the five control characters with a short form get it, the
   * other control characters become `\u00xx` in lower-case hex, and every
   * other character is written as is.
   */
  function EscapeChar(c: char): (r: string)
    ensures |r| >= 1 && (r[0] == '\\' <==> c == '"' || c == '\\' || c < ' ')
    ensures r[0] != '"'
  {
    if c == '"' then "\\\""
    else if c == '\\' then "\\\\"
    else if c == '\U{0008}' then "\\b"
    else if c == '\U{000C}' then "\\f"
    else if c == '\n' then "\\n"
    else if c == '\r' then "\\r"
    else if c == '\t' then "\\t"
    else if c < ' ' then "\\u00" + [HexDigit(c as int / 16), HexDigit(c as int % 16)]
    else [c]
  }

  function Escape(s: string): string
    decreases |s|
  {
    if s == [] then "" else EscapeChar(s[0]) + Escape(s[1..])
  }

  /** `JSON.stringify(s)` for a string. */
  function QuoteString(s: string): string {
    "\"" + Escape(s) + "\""
  }

  /** The character an escape sequence `\c` stands for, for the one-letter escapes. */
  function ShortEscape(c: char): Option<char> {
    if c == '"' then Some('"')
    else if c == '\\' then Some('\\')
    else if c == '/' then Some('/')
    else if c == 'b' then Some('\U{0008}')
    else if c == 'f' then Some('\U{000C}')
    else if c == 'n' then Some('\n')
    else if c == 'r' then Some('\r')
    else if c == 't' then Some('\t')
    else None
  }

  /** The code point four hex digits spell, when it is a character (not a surrogate half). */
  function HexCode(t: string): (r: Option<char>)
    requires |t| >= 4
  {
    var d0, d1, d2, d3 := HexValue(t[0]), HexValue(t[1]), HexValue(t[2]), HexValue(t[3]);
    if d0.None? || d1.None? || d2.None? || d3.None? then None
    else
      var n := ((d0.value * 16 + d1.value) * 16 + d2.value) * 16 + d3.value;
      if 0xD800 <= n < 0xE000 then None else Some(n as char)
  }

  function Prepend(c: char, p: Option<(string, string)>): Option<(string, string)> {
    if p.None? then None else Some(([c] + p.value.0, p.value.1))
  }

  /**
   * Reads the rest of a JSON string literal whose opening quote is already
   * consumed: the decoded characters and the text after the closing quote.
   * Raw control characters and unknown escapes are syntax errors (None).
   */
  function ParseChars(t: string): (r: Option<(string, string)>)
    ensures r.Some? ==> |r.value.1| < |t|
    decreases |t|
  {
    if t == [] then None
    else if t[0] == '"' then Some(("", t[1..]))
    else if t[0] == '\\' then
      if |t| < 2 then None
      else if t[1] == 'u' then
        if |t| < 6 then None
        else
          var c := HexCode(t[2..6]);
          if c.None? then None else Prepend(c.value, ParseChars(t[6..]))
      else
        var c := ShortEscape(t[1]);
        if c.None? then None else Prepend(c.value, ParseChars(t[2..]))
    else if t[0] < ' ' then None
    else Prepend(t[0], ParseChars(t[1..]))
  }

  /** Reading one escaped character gives back that character ahead of whatever follows. */
  lemma ParseEscapedChar(c: char, t: string)
    ensures ParseChars(EscapeChar(c) + t) == Prepend(c, ParseChars(t))
  {
    var e := EscapeChar(c);
    if c < ' ' && c != '\U{0008}' && c != '\U{000C}' && c != '\n' && c != '\r' && c != '\t' {
      var n := c as int;
      HexValueOfDigit(n / 16);
      HexValueOfDigit(n % 16);
      assert (e + t)[2..6] == e[2..6];
      assert (e + t)[6..] == t;
      assert HexCode(e[2..6]) == Some(c);
    } else if e == [c] {
      assert (e + t)[1..] == t;
    } else {
      assert (e + t)[2..] == t;
    }
  }

  /** The escaped form of `s`, closed by a quote, reads back as `s`. */
  lemma {:induction false} ParseEscape(s: string, rest: string)
    ensures ParseChars(Escape(s) + "\"" + rest) == Some((s, rest))
    decreases |s|
  {
    if s == [] {
      assert Escape(s) + "\"" + rest == "\"" + rest;
    } else {
      ParseEscape(s[1..], rest);
      assert Escape(s) + "\"" + rest == EscapeChar(s[0]) + (Escape(s[1..]) + "\"" + rest);
      ParseEscapedChar(s[0], Escape(s[1..]) + "\"" + rest);
      assert [s[0]] + s[1..] == s;
    }
  }

  /** Reads a JSON string literal at the start of `t`. */
  function ParseString(t: string): (r: Option<(string, string)>)
    ensures r.Some? ==> |r.value.1| < |t|
  {
    if t == [] || t[0] != '"' then None else ParseChars(t[1..])
  }

  /** `JSON.parse` of `JSON.stringify(s)` gives back `s`, whatever follows it. */
  lemma QuoteStringRoundTrip(s: string, rest: string)
    ensures ParseString(QuoteString(s) + rest) == Some((s, rest))
  {
    var body := Escape(s) + "\"" + rest;
    ParseEscape(s, rest);
    assert QuoteString(s) + rest == "\"" + body;
    assert ("\"" + body)[1..] == body;
  }

  /** The comma-separated elements of an array of strings. */
  function Elements(xs: seq<string>): string
    decreases |xs|
  {
    if xs == [] then ""
    else if |xs| == 1 then QuoteString(xs[0])
    else QuoteString(xs[0]) + ("," + Elements(xs[1..]))
  }

  /** `JSON.stringify(xs)` for an array of strings. */
  function QuoteList(xs: seq<string>): string {
    "[" + Elements(xs) + "]"
  }

  /** Reads the elements of a non-empty array after its `[`, up to and including `]`. */
  function ParseElements(t: string): (r: Option<(seq<string>, string)>)
    ensures r.Some? ==> |r.value.1| < |t|
    decreases |t|
  {
    var first := ParseString(t);
    if first.None? then None
    else
      var rest := first.value.1;
      if rest == [] then None
      else if rest[0] == ']' then Some(([first.value.0], rest[1..]))
      else if rest[0] == ',' then
        var more := ParseElements(rest[1..]);
        if more.None? then None else Some(([first.value.0] + more.value.0, more.value.1))
      else None
  }

  /** Reads a JSON array of strings at the start of `t`. */
  function ParseList(t: string): (r: Option<(seq<string>, string)>)
    ensures r.Some? ==> |r.value.1| < |t|
  {
    if t == [] || t[0] != '[' then None
    else if |t| >= 2 && t[1] == ']' then Some(([], t[2..]))
    else ParseElements(t[1..])
  }

  /** A first element followed by `,` continues with the elements after the comma. */
  lemma ParseElementsStep(x: string, tail: string)
    ensures ParseElements(QuoteString(x) + ("," + tail)) ==
      (var more := ParseElements(tail); if more.None? then None else Some(([x] + more.value.0, more.value.1)))
  {
    QuoteStringRoundTrip(x, "," + tail);
    assert ("," + tail)[1..] == tail;
  }

  /** A last element followed by `]` ends the array. */
  lemma ParseElementsLast(x: string, rest: string)
    ensures ParseElements(QuoteString(x) + "]" + rest) == Some(([x], rest))
  {
    var closing := "]" + rest;
    QuoteStringRoundTrip(x, closing);
    assert closing[0] == ']' && closing[1..] == rest;
    assert QuoteString(x) + "]" + rest == QuoteString(x) + closing;
  }

  /** The text after the first of two or more elements and its comma, regrouped. */
  lemma Regroup(first: string, others: string, rest: string)
    ensures first + ("," + others) + "]" + rest == first + ("," + (others + "]" + rest))
  {
  }

  lemma {:induction false} ParseElementsRoundTrip(xs: seq<string>, rest: string)
    requires xs != []
    ensures ParseElements(Elements(xs) + "]" + rest) == Some((xs, rest))
    decreases |xs|
  {
    var x, ys := xs[0], xs[1..];
    assert [x] + ys == xs;
    if |xs| == 1 {
      assert xs == [x] && Elements(xs) == QuoteString(x);
      ParseElementsLast(x, rest);
    } else {
      var tail := Elements(ys) + "]" + rest;
      ParseElementsRoundTrip(ys, rest);
      assert Elements(xs) == QuoteString(x) + ("," + Elements(ys));
      Regroup(QuoteString(x), Elements(ys), rest);
      ParseElementsStep(x, tail);
    }
  }

  lemma ElementsStartWithQuote(xs: seq<string>)
    requires xs != []
    ensures |Elements(xs)| > 0 && Elements(xs)[0] == '"'
  {
    assert QuoteString(xs[0])[0] == '"';
  }

  lemma EmptyListRoundTrip(rest: string)
    ensures ParseList(QuoteList([]) + rest) == Some(([], rest))
  {
    var t := QuoteList([]) + rest;
    assert t == "[]" + rest;
    assert t[2..] == rest;
  }

  /** After a `[` that does not close at once, the list is read element by element. */
  lemma ParseListOpen(inner: string)
    requires |inner| > 0 && inner[0] != ']'
    ensures ParseList("[" + inner) == ParseElements(inner)
  {
    var t := "[" + inner;
    assert t[1] == inner[0];
    assert t[1..] == inner;
  }

  /** `JSON.parse` of `JSON.stringify(xs)` gives back `xs`, whatever follows it. */
  lemma QuoteListRoundTrip(xs: seq<string>, rest: string)
    ensures ParseList(QuoteList(xs) + rest) == Some((xs, rest))
  {
    if xs == [] {
      EmptyListRoundTrip(rest);
    } else {
      var inner := Elements(xs) + "]" + rest;
      ElementsStartWithQuote(xs);
      assert QuoteList(xs) + rest == "[" + inner;
      ParseListOpen(inner);
      ParseElementsRoundTrip(xs, rest);
    }
  }

  /** `JSON.stringify(user)`: the five keys in the order the record declares them. */
  function Stringify(u: UserInfo): (s: string)
    ensures s != "" && s[0] == '{'
  {
    "{\"id\":" + (QuoteString(u.id) +
    (",\"name\":" + (QuoteString(u.name) +
    (",\"avatar\":" + (QuoteString(u.avatar) +
    (",\"roles\":" + (QuoteList(u.roles) +
    (",\"permissions\":" + (QuoteList(u.permissions) + "}")))))))))
  }

  /** The text after the literal `lit`, when `t` starts with it. */
  function Expect(lit: string, t: string): (r: Option<string>)
    ensures r.Some? ==> |r.value| <= |t|
  {
    if lit <= t then Some(t[|lit|..]) else None
  }

  lemma ExpectLiteral(lit: string, rest: string)
    ensures Expect(lit, lit + rest) == Some(rest)
  {
    assert lit <= lit + rest;
    assert (lit + rest)[|lit|..] == rest;
  }

  /** A string member `"key":"…"` at the start of `t`: its value and what follows. */
  function ParseStringMember(key: string, t: string): Option<(string, string)> {
    var after := Expect(key, t);
    if after.None? then None else ParseString(after.value)
  }

  function ParseListMember(key: string, t: string): Option<(seq<string>, string)> {
    var after := Expect(key, t);
    if after.None? then None else ParseList(after.value)
  }

  /**
   * `JSON.parse` on the text `Stringify` writes: the five members in that
   * order and nothing after the closing brace.  Any other text is None here.
   */
  function Parse(text: string): (r: Option<UserInfo>)
    ensures r.Some? ==> "{\"id\":" <= text
  {
    var id := ParseStringMember("{\"id\":", text);
    if id.None? then None else
    var name := ParseStringMember(",\"name\":", id.value.1);
    if name.None? then None else
    var avatar := ParseStringMember(",\"avatar\":", name.value.1);
    if avatar.None? then None else
    var roles := ParseListMember(",\"roles\":", avatar.value.1);
    if roles.None? then None else
    var permissions := ParseListMember(",\"permissions\":", roles.value.1);
    if permissions.None? || permissions.value.1 != "}" then None
    else Some(UserInfo(id.value.0, name.value.0, avatar.value.0, roles.value.0, permissions.value.0))
  }

  lemma StringMemberRoundTrip(key: string, s: string, rest: string)
    ensures ParseStringMember(key, key + (QuoteString(s) + rest)) == Some((s, rest))
  {
    ExpectLiteral(key, QuoteString(s) + rest);
    QuoteStringRoundTrip(s, rest);
  }

  lemma ListMemberRoundTrip(key: string, xs: seq<string>, rest: string)
    ensures ParseListMember(key, key + (QuoteList(xs) + rest)) == Some((xs, rest))
  {
    ExpectLiteral(key, QuoteList(xs) + rest);
    QuoteListRoundTrip(xs, rest);
  }

  /** Reading back what was written gives the same user info. */
  lemma ParseStringify(u: UserInfo)
    ensures Parse(Stringify(u)) == Some(u)
  {
    var tPerm := ",\"permissions\":" + (QuoteList(u.permissions) + "}");
    var tRoles := ",\"roles\":" + (QuoteList(u.roles) + tPerm);
    var tAvatar := ",\"avatar\":" + (QuoteString(u.avatar) + tRoles);
    var tName := ",\"name\":" + (QuoteString(u.name) + tAvatar);
    StringMemberRoundTrip("{\"id\":", u.id, tName);
    StringMemberRoundTrip(",\"name\":", u.name, tAvatar);
    StringMemberRoundTrip(",\"avatar\":", u.avatar, tRoles);
    ListMemberRoundTrip(",\"roles\":", u.roles, tPerm);
    ListMemberRoundTrip(",\"permissions\":", u.permissions, "}");
  }

  /** Different user infos are written as different texts. */
  lemma StringifyInjective(u: UserInfo, v: UserInfo)
    requires Stringify(u) == Stringify(v)
    ensures u == v
  {
    ParseStringify(u);
    ParseStringify(v);
  }
}
