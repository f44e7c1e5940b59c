/** Strict UTF-8, as `str.encode("utf-8")` and `bytes.decode("utf-8")` perform it (RFC 3629). */
module Utf8 {
  import opened Base

  function EncodeChar(c: char): (bs: Bytes) {
    var n := c as int;
    if n < 0x80 then [n]
    else if n < 0x800 then [0xC0 + n / 64, 0x80 + n % 64]
    else if n < 0x1_0000 then [0xE0 + n / 64 / 64, 0x80 + n / 64 % 64, 0x80 + n % 64]
    else [0xF0 + n / 64 / 64 / 64, 0x80 + n / 64 / 64 % 64, 0x80 + n / 64 % 64, 0x80 + n % 64]
  }

  function Encode(s: string): Bytes {
    if s == [] then [] else EncodeChar(s[0]) + Encode(s[1..])
  }

  predicate Continuation(b: byte) {
    0x80 <= b < 0xC0
  }

  /** Six more bits below those already read. */
  function Extend(high: nat, b: byte): nat
    requires Continuation(b)
  {
    high * 64 + (b as int - 0x80)
  }

  predicate ScalarValue(n: int) {
    0 <= n < 0xD800 || 0xE000 <= n < 0x11_0000
  }

  /** The first character and its length in bytes; overlong forms, surrogates and stray bytes are refused. */
  function DecodeChar(bs: Bytes): Option<(char, nat)> {
    if bs == [] then None
    else if bs[0] < 0x80 then Some((bs[0] as char, 1))
    else if 0xC0 <= bs[0] < 0xE0 && |bs| >= 2 && Continuation(bs[1]) then
      var n := Extend(bs[0] as int - 0xC0, bs[1]);
      if n >= 0x80 then Some((n as char, 2)) else None
    else if 0xE0 <= bs[0] < 0xF0 && |bs| >= 3 && Continuation(bs[1]) && Continuation(bs[2]) then
      var n := Extend(Extend(bs[0] as int - 0xE0, bs[1]), bs[2]);
      if n >= 0x800 && ScalarValue(n) then Some((n as char, 3)) else None
    else if 0xF0 <= bs[0] < 0xF8 && |bs| >= 4 && Continuation(bs[1]) && Continuation(bs[2]) && Continuation(bs[3]) then
      var n := Extend(Extend(Extend(bs[0] as int - 0xF0, bs[1]), bs[2]), bs[3]);
      if n >= 0x1_0000 && ScalarValue(n) then Some((n as char, 4)) else None
    else None
  }

  function Decode(bs: Bytes): Option<string> {
    if bs == [] then Some([])
    else
      match DecodeChar(bs)
      case None => None
      case Some((c, k)) =>
        if 0 < k <= |bs| then
          match Decode(bs[k..])
          case None => None
          case Some(rest) => Some([c] + rest)
        else None
  }

  lemma ExtendSplits(high: nat, b: byte)
    requires Continuation(b)
    ensures Extend(high, b) / 64 == high && 0x80 + Extend(high, b) % 64 == b
  {
  }

  lemma SplitExtends(n: nat)
    ensures Extend(n / 64, 0x80 + n % 64) == n
  {
  }

  lemma DecodeEncodedChar(c: char, rest: Bytes)
    ensures |EncodeChar(c)| > 0 && DecodeChar(EncodeChar(c) + rest) == Some((c, |EncodeChar(c)|))
  {
    var bs := EncodeChar(c) + rest;
    var n := c as int;
    SplitExtends(n);
    SplitExtends(n / 64);
    SplitExtends(n / 64 / 64);
  }

  lemma EncodeDecodedChar(bs: Bytes)
    requires DecodeChar(bs).Some?
    ensures var (c, k) := DecodeChar(bs).value; 0 < k <= |bs| && EncodeChar(c) == bs[..k]
  {
    var (c, k) := DecodeChar(bs).value;
    if k == 2 {
      ExtendSplits(bs[0] as int - 0xC0, bs[1]);
    } else if k == 3 {
      var high := Extend(bs[0] as int - 0xE0, bs[1]);
      ExtendSplits(bs[0] as int - 0xE0, bs[1]);
      ExtendSplits(high, bs[2]);
    } else if k == 4 {
      var high := Extend(bs[0] as int - 0xF0, bs[1]);
      ExtendSplits(bs[0] as int - 0xF0, bs[1]);
      ExtendSplits(high, bs[2]);
      ExtendSplits(Extend(high, bs[2]), bs[3]);
    }
  }

  /** Decoding undoes encoding. */
  lemma {:induction false} DecodeEncode(s: string)
    ensures Decode(Encode(s)) == Some(s)
  {
    hide DecodeChar, EncodeChar;
    if s != [] {
      var head := EncodeChar(s[0]);
      DecodeEncodedChar(s[0], Encode(s[1..]));
      DecodeEncode(s[1..]);
      assert (head + Encode(s[1..]))[|head|..] == Encode(s[1..]);
      assert s == [s[0]] + s[1..];
    }
  }

  /** Only the encoding of a text decodes to it: no two byte strings decode alike. */
  lemma {:induction false} EncodeDecode(bs: Bytes)
    requires Decode(bs).Some?
    ensures Encode(Decode(bs).value) == bs
    decreases |bs|
  {
    hide DecodeChar, EncodeChar;
    if bs != [] {
      var (c, k) := DecodeChar(bs).value;
      EncodeDecodedChar(bs);
      EncodeDecode(bs[k..]);
      var rest := Decode(bs[k..]).value;
      assert Decode(bs).value == [c] + rest;
      assert ([c] + rest)[1..] == rest;
      assert bs == bs[..k] + bs[k..];
    }
  }

  lemma EncodeInjective(s: string, t: string)
    requires Encode(s) == Encode(t)
    ensures s == t
  {
    DecodeEncode(s);
    DecodeEncode(t);
  }

  lemma {:induction false} EncodeAppend(s: string, t: string)
    ensures Encode(s + t) == Encode(s) + Encode(t)
  {
    hide EncodeChar;
    if s == [] {
      assert s + t == t;
    } else {
      assert (s + t)[1..] == s[1..] + t;
      EncodeAppend(s[1..], t);
    }
  }

  lemma AsciiInEncodeChar(c: char, d: char)
    requires d as int < 0x80
    ensures d as int in EncodeChar(c) <==> d == c
    ensures |EncodeChar(c)| > 0
    ensures EncodeChar(c)[|EncodeChar(c)| - 1] == d as int <==> d == c
  {
  }

  /** A byte below 0x80 occurs in an encoding exactly where that ASCII character occurs in the text. */
  lemma {:induction false} AsciiInEncode(s: string, c: char)
    requires c as int < 0x80
    ensures c as int in Encode(s) <==> c in s
  {
    hide EncodeChar;
    if s != [] {
      AsciiInEncode(s[1..], c);
      AsciiInEncodeChar(s[0], c);
      assert s == [s[0]] + s[1..];
    }
  }

  lemma EncodeOne(c: char)
    ensures Encode([c]) == EncodeChar(c)
  {
    assert [c][1..] == [];
  }

  lemma LastAsciiOfEncode(s: string, c: char)
    requires c as int < 0x80
    ensures EndsWith(Encode(s), [c as int]) <==> EndsWith(s, [c])
  {
    hide EncodeChar, Encode;
    if s != [] {
      var front, last := s[..|s| - 1], s[|s| - 1];
      assert s == front + [last];
      EncodeAppend(front, [last]);
      EncodeOne(last);
      AsciiInEncodeChar(last, c);
      var all := Encode(s);
      assert all[|all| - 1..] == [all[|all| - 1]];
      assert s[|s| - 1..] == [last];
    } else {
      EncodeNothing();
    }
  }

  lemma EncodeNothing()
    ensures Encode([]) == []
  {
  }

  /** The examples of section 7 of RFC 3629, one for each length. */
  lemma Examples()
    ensures Encode("A") == [0x41]
    ensures Encode("\U{391}") == [0xCE, 0x91]
    ensures Encode("\U{2262}") == [0xE2, 0x89, 0xA2]
    ensures Encode("\U{233B4}") == [0xF0, 0xA3, 0x8E, 0xB4]
  {
    EncodeOne('A');
    EncodeOne('\U{391}');
    EncodeOne('\U{2262}');
    EncodeOne('\U{233B4}');
  }
}
