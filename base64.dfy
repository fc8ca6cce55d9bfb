/**
 * Base64 with the standard alphabet and `=` padding (section 4 of RFC 4648),
 * as `Buffer.toString('base64')` writes it and as `Buffer.from(s, 'base64')`
 * reads canonical text.
 */
module Base64 {
  import opened Wrappers

  type Byte = x: int | 0 <= x < 256

  /** The alphabet of section 4 of RFC 4648: A-Z, a-z, 0-9, `+`, `/`. */
  function Symbol(n: int): (c: char)
    requires 0 <= n < 64
    ensures c != '='
  {
    if n < 26 then ('A' as int + n) as char
    else if n < 52 then ('a' as int + n - 26) as char
    else if n < 62 then ('0' as int + n - 52) as char
    else if n == 62 then '+'
    else '/'
  }

  /** The value of an alphabet symbol; None for any other character. */
  function SymbolValue(c: char): (r: Option<int>)
    ensures r.Some? ==> 0 <= r.value < 64
  {
    if 'A' <= c <= 'Z' then Some(c as int - 'A' as int)
    else if 'a' <= c <= 'z' then Some(c as int - 'a' as int + 26)
    else if '0' <= c <= '9' then Some(c as int - '0' as int + 52)
    else if c == '+' then Some(62)
    else if c == '/' then Some(63)
    else None
  }

  lemma SymbolValueOfSymbol(n: int)
    requires 0 <= n < 64
    ensures SymbolValue(Symbol(n)) == Some(n)
  {
  }

  /** Three bytes as four symbols, six bits each, most significant first. */
  function EncodeBlock(b0: Byte, b1: Byte, b2: Byte): string {
    [Symbol(b0 / 4), Symbol((b0 % 4) * 16 + b1 / 16), Symbol((b1 % 16) * 4 + b2 / 64), Symbol(b2 % 64)]
  }

  /** The encoding: full blocks, then two or three symbols and padding for a short tail. */
  function Encode(bytes: seq<Byte>): (s: string)
    ensures |s| % 4 == 0
    decreases |bytes|
  {
    if |bytes| == 0 then ""
    else if |bytes| == 1 then
      [Symbol(bytes[0] / 4), Symbol((bytes[0] % 4) * 16), '=', '=']
    else if |bytes| == 2 then
      [Symbol(bytes[0] / 4), Symbol((bytes[0] % 4) * 16 + bytes[1] / 16), Symbol((bytes[1] % 16) * 4), '=']
    else
      EncodeBlock(bytes[0], bytes[1], bytes[2]) + Encode(bytes[3..])
  }

  /** Four symbol values as three bytes. */
  function Bytes3(c0: int, c1: int, c2: int, c3: int): seq<Byte>
    requires 0 <= c0 < 64 && 0 <= c1 < 64 && 0 <= c2 < 64 && 0 <= c3 < 64
  {
    [c0 * 4 + c1 / 16, (c1 % 16) * 16 + c2 / 4, (c2 % 4) * 64 + c3]
  }

  /**
   * Decoding of canonical text: a multiple of four characters, padding only
   * at the very end, and zero in the bits the padding leaves over.  Other
   * text is an error.
   */
  function Decode(s: string): (r: Result<seq<Byte>, string>)
    ensures r.Ok? ==> |s| % 4 == 0
    decreases |s|
  {
    if s == [] then Ok([])
    else if |s| < 4 then Err("truncated")
    else
      var v0, v1, v2, v3 := SymbolValue(s[0]), SymbolValue(s[1]), SymbolValue(s[2]), SymbolValue(s[3]);
      if v0.None? || v1.None? then Err("bad symbol")
      else if |s| == 4 && s[2] == '=' && s[3] == '=' then
        if v1.value % 16 != 0 then Err("bad padding") else Ok([v0.value * 4 + v1.value / 16])
      else if |s| == 4 && s[3] == '=' then
        if v2.None? || v2.value % 4 != 0 then Err("bad padding")
        else Ok([v0.value * 4 + v1.value / 16, (v1.value % 16) * 16 + v2.value / 4])
      else if v2.None? || v3.None? then Err("bad symbol")
      else
        var rest := Decode(s[4..]);
        if rest.Err? then rest else Ok(Bytes3(v0.value, v1.value, v2.value, v3.value) + rest.value)
  }

  lemma BlockRoundTrip(b0: Byte, b1: Byte, b2: Byte)
    ensures Bytes3(b0 / 4, (b0 % 4) * 16 + b1 / 16, (b1 % 16) * 4 + b2 / 64, b2 % 64) == [b0, b1, b2]
  {
    var c1 := (b0 % 4) * 16 + b1 / 16;
    var c2 := (b1 % 16) * 4 + b2 / 64;
    assert c1 / 16 == b0 % 4 && c1 % 16 == b1 / 16;
    assert c2 / 4 == b1 % 16 && c2 % 4 == b2 / 64;
  }

  /** Four symbols without padding decode to three bytes ahead of what the rest decodes to. */
  lemma DecodeSymbols(s: string, c0: int, c1: int, c2: int, c3: int)
    requires |s| >= 4 && 0 <= c0 < 64 && 0 <= c1 < 64 && 0 <= c2 < 64 && 0 <= c3 < 64
    requires SymbolValue(s[0]) == Some(c0) && SymbolValue(s[1]) == Some(c1)
    requires SymbolValue(s[2]) == Some(c2) && SymbolValue(s[3]) == Some(c3)
    ensures var d := Decode(s[4..]);
      Decode(s) == if d.Err? then d else Ok(Bytes3(c0, c1, c2, c3) + d.value)
  {
    assert s[3] != '=';
  }

  /** The four symbols of a block carry the four six-bit groups of its bytes. */
  lemma BlockSymbols(b0: Byte, b1: Byte, b2: Byte)
    ensures var e := EncodeBlock(b0, b1, b2);
      && SymbolValue(e[0]) == Some(b0 / 4) && SymbolValue(e[1]) == Some((b0 % 4) * 16 + b1 / 16)
      && SymbolValue(e[2]) == Some((b1 % 16) * 4 + b2 / 64) && SymbolValue(e[3]) == Some(b2 % 64)
  {
    SymbolValueOfSymbol(b0 / 4);
    SymbolValueOfSymbol((b0 % 4) * 16 + b1 / 16);
    SymbolValueOfSymbol((b1 % 16) * 4 + b2 / 64);
    SymbolValueOfSymbol(b2 % 64);
  }

  /** A full block in front of `t` decodes to its three bytes in front of what `t` decodes to. */
  lemma DecodeBlock(b0: Byte, b1: Byte, b2: Byte, t: string)
    ensures var d := Decode(t);
      Decode(EncodeBlock(b0, b1, b2) + t) == if d.Err? then d else Ok([b0, b1, b2] + d.value)
  {
    var e := EncodeBlock(b0, b1, b2);
    var s := e + t;
    BlockSymbols(b0, b1, b2);
    assert s[0] == e[0] && s[1] == e[1] && s[2] == e[2] && s[3] == e[3];
    DecodeSymbols(s, b0 / 4, (b0 % 4) * 16 + b1 / 16, (b1 % 16) * 4 + b2 / 64, b2 % 64);
    BlockRoundTrip(b0, b1, b2);
    assert s[4..] == t;
  }

  /** One trailing byte: two symbols and two padding characters. */
  lemma DecodeOne(b0: Byte)
    ensures Decode(Encode([b0])) == Ok([b0])
  {
    SymbolValueOfSymbol(b0 / 4);
    SymbolValueOfSymbol((b0 % 4) * 16);
    assert ((b0 % 4) * 16) / 16 == b0 % 4;
  }

  /** Two trailing bytes: three symbols and one padding character. */
  lemma DecodeTwo(b0: Byte, b1: Byte)
    ensures Decode(Encode([b0, b1])) == Ok([b0, b1])
  {
    var c1 := (b0 % 4) * 16 + b1 / 16;
    SymbolValueOfSymbol(b0 / 4);
    SymbolValueOfSymbol(c1);
    SymbolValueOfSymbol((b1 % 16) * 4);
    assert c1 / 16 == b0 % 4 && c1 % 16 == b1 / 16;
    assert ((b1 % 16) * 4) / 4 == b1 % 16;
  }

  /** Decoding what was encoded gives back the bytes. */
  lemma {:induction false} DecodeEncode(bytes: seq<Byte>)
    ensures Decode(Encode(bytes)) == Ok(bytes)
    decreases |bytes|
  {
    if |bytes| == 1 {
      var b0 := bytes[0];
      assert bytes == [b0];
      DecodeOne(b0);
    } else if |bytes| == 2 {
      var b0, b1 := bytes[0], bytes[1];
      assert bytes == [b0, b1];
      DecodeTwo(b0, b1);
    } else if |bytes| >= 3 {
      var rest := bytes[3..];
      assert Encode(bytes) == EncodeBlock(bytes[0], bytes[1], bytes[2]) + Encode(rest);
      DecodeEncode(rest);
      DecodeBlock(bytes[0], bytes[1], bytes[2], Encode(rest));
      assert [bytes[0], bytes[1], bytes[2]] + rest == bytes;
    }
  }

  /** Every three bytes, or fewer at the end, take four characters. */
  lemma {:induction false} EncodeLength(bytes: seq<Byte>)
    ensures |Encode(bytes)| == 4 * ((|bytes| + 2) / 3)
    decreases |bytes|
  {
    var n := |bytes|;
    if n >= 3 {
      EncodeLength(bytes[3..]);
      assert (n + 2) / 3 == (n - 3 + 2) / 3 + 1;
      assert |Encode(bytes)| == 4 + |Encode(bytes[3..])|;
    }
  }

}
