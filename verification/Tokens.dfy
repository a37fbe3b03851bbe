/** Page tokens (core/server.go): unpadded base64url, section 5 of RFC 4648, of
    a version prefix and one or two keys. A string is the sequence of its
    bytes: characters below 256. */
module Tokens {
  import opened Text

  predicate IsByte(c: char) { c as int < 256 }

  predicate IsBytes(s: string) { All(s, IsByte) }

  type Sextet = n: nat | n < 64

  function Digit(n: Sextet): char {
    if n < 26 then 'A' + n as char
    else if n < 52 then 'a' + (n - 26) as char
    else if n < 62 then '0' + (n - 52) as char
    else if n == 62 then '-' else '_'
  }

  function Value(c: char): Option<Sextet> {
    if 'A' <= c <= 'Z' then Some(c as int - 'A' as int)
    else if 'a' <= c <= 'z' then Some(c as int - 'a' as int + 26)
    else if '0' <= c <= '9' then Some(c as int - '0' as int + 52)
    else if c == '-' then Some(62) else if c == '_' then Some(63) else None
  }

  lemma ValueDigit(n: Sextet)
    ensures Value(Digit(n)) == Some(n) && Digit(n) != '\r' && Digit(n) != '\n'
  {}

  /** The first, second, third and fourth six bits of three bytes. */
  function Six0(a: nat): Sextet requires a < 256 { a / 4 }
  function Six1(a: nat, b: nat): Sextet requires a < 256 && b < 256 { (a % 4) * 16 + b / 16 }
  function Six2(b: nat, c: nat): Sextet requires b < 256 && c < 256 { (b % 16) * 4 + c / 64 }
  function Six3(c: nat): Sextet requires c < 256 { c % 64 }

  function Encode(s: string): string
    requires IsBytes(s)
  {
    if s == "" then ""
    else if |s| == 1 then [Digit(Six0(s[0] as int)), Digit(Six1(s[0] as int, 0))]
    else if |s| == 2 then
      [Digit(Six0(s[0] as int)), Digit(Six1(s[0] as int, s[1] as int)), Digit(Six2(s[1] as int, 0))]
    else
      [Digit(Six0(s[0] as int)), Digit(Six1(s[0] as int, s[1] as int)), Digit(Six2(s[1] as int, s[2] as int)),
       Digit(Six3(s[2] as int))] + Encode(s[3..])
  }

  function Byte0(p: Sextet, q: Sextet): char { (p * 4 + q / 16) as char }
  function Byte1(q: Sextet, r: Sextet): char { ((q % 16) * 16 + r / 4) as char }
  function Byte2(r: Sextet, t: Sextet): char { ((r % 4) * 64 + t) as char }

  /** The decoder proper; line breaks are gone already. */
  function DecodeDigits(s: string): Option<string> {
    if s == "" then Some("")
    else if |s| == 1 then None
    else
      var p, q := Value(s[0]), Value(s[1]);
      if p.None? || q.None? then None
      else if |s| == 2 then Some([Byte0(p.value, q.value)])
      else
        var r := Value(s[2]);
        if r.None? then None
        else if |s| == 3 then Some([Byte0(p.value, q.value), Byte1(q.value, r.value)])
        else
          var t, rest := Value(s[3]), DecodeDigits(s[4..]);
          if t.None? || rest.None? then None
          else Some([Byte0(p.value, q.value), Byte1(q.value, r.value), Byte2(r.value, t.value)] + rest.value)
  }

  /** Line breaks in the input are skipped. */
  function Unbroken(s: string): string {
    if s == "" then "" else (if s[0] == '\r' || s[0] == '\n' then "" else [s[0]]) + Unbroken(s[1..])
  }

  function Decode(s: string): Option<string> { DecodeDigits(Unbroken(s)) }

  lemma Bytes(a: nat, b: nat, c: nat)
    requires a < 256 && b < 256 && c < 256
    ensures Byte0(Six0(a), Six1(a, b)) == a as char
    ensures Byte1(Six1(a, b), Six2(b, c)) == b as char
    ensures Byte2(Six2(b, c), Six3(c)) == c as char
  {}

  /** Four digits that encode three bytes, and what follows. */
  lemma DecodeGroup(a: nat, b: nat, c: nat, rest: string)
    requires a < 256 && b < 256 && c < 256 && DecodeDigits(rest).Some?
    ensures DecodeDigits([Digit(Six0(a)), Digit(Six1(a, b)), Digit(Six2(b, c)), Digit(Six3(c))] + rest) ==
            Some([a as char, b as char, c as char] + DecodeDigits(rest).value)
  {
    var s := [Digit(Six0(a)), Digit(Six1(a, b)), Digit(Six2(b, c)), Digit(Six3(c))] + rest;
    Bytes(a, b, c);
    ValueDigit(Six0(a));
    ValueDigit(Six1(a, b));
    ValueDigit(Six2(b, c));
    ValueDigit(Six3(c));
    assert s[4..] == rest;
  }

  lemma DecodeOne(a: nat)
    requires a < 256
    ensures DecodeDigits([Digit(Six0(a)), Digit(Six1(a, 0))]) == Some([a as char])
  {
    var s := [Digit(Six0(a)), Digit(Six1(a, 0))];
    Bytes(a, 0, 0);
    ValueDigit(Six0(a));
    ValueDigit(Six1(a, 0));
  }

  lemma DecodeTwo(a: nat, b: nat)
    requires a < 256 && b < 256
    ensures DecodeDigits([Digit(Six0(a)), Digit(Six1(a, b)), Digit(Six2(b, 0))]) == Some([a as char, b as char])
  {
    var s := [Digit(Six0(a)), Digit(Six1(a, b)), Digit(Six2(b, 0))];
    Bytes(a, b, 0);
    ValueDigit(Six0(a));
    ValueDigit(Six1(a, b));
    ValueDigit(Six2(b, 0));
  }

  lemma EncodeOne(s: string)
    requires IsBytes(s) && |s| == 1
    ensures Encode(s) == [Digit(Six0(s[0] as int)), Digit(Six1(s[0] as int, 0))]
  {}

  lemma EncodeTwo(s: string)
    requires IsBytes(s) && |s| == 2
    ensures Encode(s) == [Digit(Six0(s[0] as int)), Digit(Six1(s[0] as int, s[1] as int)), Digit(Six2(s[1] as int, 0))]
  {}

  lemma DecodeEncodeOne(s: string)
    requires IsBytes(s) && |s| == 1
    ensures DecodeDigits(Encode(s)) == Some(s)
  {
    EncodeOne(s);
    DecodeOne(s[0] as int);
    assert s == [s[0]];
  }

  lemma DecodeEncodeTwo(s: string)
    requires IsBytes(s) && |s| == 2
    ensures DecodeDigits(Encode(s)) == Some(s)
  {
    EncodeTwo(s);
    DecodeTwo(s[0] as int, s[1] as int);
    assert s == [s[0], s[1]];
  }

  lemma EncodeLong(s: string)
    requires IsBytes(s) && |s| > 2
    ensures var a, b, c := s[0] as int, s[1] as int, s[2] as int;
            IsBytes(s[3..]) && Encode(s) == [Digit(Six0(a)), Digit(Six1(a, b)), Digit(Six2(b, c)),
              Digit(Six3(c))] + Encode(s[3..])
  {}

  lemma {:induction false} DecodeEncodeDigits(s: string)
    requires IsBytes(s)
    ensures DecodeDigits(Encode(s)) == Some(s)
  {
    if |s| == 1 {
      DecodeEncodeOne(s);
    } else if |s| == 2 {
      DecodeEncodeTwo(s);
    } else if |s| > 2 {
      EncodeLong(s);
      DecodeEncodeDigits(s[3..]);
      DecodeGroup(s[0] as int, s[1] as int, s[2] as int, Encode(s[3..]));
      assert s == [s[0], s[1], s[2]] + s[3..];
    }
  }

  predicate Plain(s: string) { forall i :: 0 <= i < |s| ==> s[i] != '\r' && s[i] != '\n' }

  lemma {:induction false} UnbrokenPlain(s: string)
    requires Plain(s)
    ensures Unbroken(s) == s
  {
    if s != "" {
      UnbrokenPlain(s[1..]);
    }
  }

  lemma {:induction false} EncodePlain(s: string)
    requires IsBytes(s)
    ensures Plain(Encode(s)) && (s != "" ==> Encode(s) != "")
  {
    if |s| > 2 {
      EncodePlain(s[3..]);
    }
  }

  /** Decoding undoes encoding, for every byte string. */
  lemma DecodeEncode(s: string)
    requires IsBytes(s)
    ensures Decode(Encode(s)) == Some(s)
  {
    EncodePlain(s);
    UnbrokenPlain(Encode(s));
    DecodeEncodeDigits(s);
  }

  // ---- One key ------------------------------------------------------------------

  function EncodePageToken(key: string): string
    requires IsBytes(key)
  {
    Encode("v1:" + key)
  }

  function DecodePageToken(token: string): Option<string> {
    var raw := Decode(token);
    if raw.None? || !HasPrefix(raw.value, "v1:") then None else Some(raw.value[3..])
  }

  lemma TokenRoundTrip(key: string)
    requires IsBytes(key)
    ensures DecodePageToken(EncodePageToken(key)) == Some(key) && EncodePageToken(key) != ""
  {
    DecodeEncode("v1:" + key);
    EncodePlain("v1:" + key);
    assert ("v1:" + key)[3..] == key;
  }

  // ---- A pair of keys -------------------------------------------------------------

  /** The unit separator. */
  const US := '\U{1F}'

  function EncodePageTokenPair(key: string, id: string): string
    requires IsBytes(key) && IsBytes(id)
  {
    Encode("v2:" + key + [US] + id)
  }

  /** The first position of `c`, or the length. */
  function IndexOf(s: string, c: char): (i: nat)
    ensures i <= |s| && c !in s[..i] && (i < |s| ==> s[i] == c)
  {
    if s == "" || s[0] == c then 0
    else
      var i := IndexOf(s[1..], c) + 1;
      assert s[..i] == [s[0]] + s[1..][..i - 1];
      i
  }

  function DecodePageTokenPair(token: string): Option<(string, string)> {
    var raw := Decode(token);
    if raw.None? || !HasPrefix(raw.value, "v2:") then None
    else
      var body := raw.value[3..];
      var i := IndexOf(body, US);
      if i == |body| then None else Some((body[..i], body[i + 1..]))
  }

  lemma CutAtFirst(key: string, id: string)
    ensures var body := key + [US] + id; var i := IndexOf(body, US);
            i < |body| && (US !in key <==> (body[..i], body[i + 1..]) == (key, id)) && (US in key ==> body[..i] < key)
  {
    var body := key + [US] + id;
    var i := IndexOf(body, US);
    assert body[|key|] == US;
    forall j | 0 <= j < i ensures body[j] != US { assert body[j] in body[..i]; }
    assert forall j :: 0 <= j < |key| ==> body[j] == key[j];
    if US in key {
      var k :| 0 <= k < |key| && key[k] == US;
      assert body[k] == US && i <= k;
      assert body[..i] == key[..i];
    } else {
      assert i == |key|;
      assert body[..i] == key && body[i + 1..] == id;
    }
  }

  /** A pair comes back exactly if the separator is not in its first part; the
      first part is cut short otherwise. */
  lemma PairRoundTrip(key: string, id: string)
    requires IsBytes(key) && IsBytes(id)
    ensures var p := DecodePageTokenPair(EncodePageTokenPair(key, id)); p.Some? && (US in key ==> p.value.0 < key)
    ensures DecodePageTokenPair(EncodePageTokenPair(key, id)) == Some((key, id)) <==> US !in key
    ensures EncodePageTokenPair(key, id) != ""
  {
    var body := key + [US] + id;
    var raw := "v2:" + key + [US] + id;
    assert raw == "v2:" + body && raw[3..] == body;
    assert IsBytes(raw);
    DecodeEncode(raw);
    EncodePlain(raw);
    CutAtFirst(key, id);
  }

  /** Neither form is taken for the other. */
  lemma FormsDiffer(key: string, id: string)
    requires IsBytes(key) && IsBytes(id)
    ensures DecodePageTokenPair(EncodePageToken(key)) == None
    ensures DecodePageToken(EncodePageTokenPair(key, id)) == None
  {
    var one, two := "v1:" + key, "v2:" + key + [US] + id;
    assert IsBytes(two);
    DecodeEncode(one);
    DecodeEncode(two);
    assert one[1] == '1' && two[1] == '2' && "v1:"[1] == '1' && "v2:"[1] == '2';
  }

  // ---- Decimal numbers ----------------------------------------------------------

  function Digits(n: nat): string {
    if n < 10 then [('0' as int + n) as char] else Digits(n / 10) + [('0' as int + n % 10) as char]
  }

  function FormatInt(x: int): string { if x < 0 then "-" + Digits(-x) else Digits(x) }

  function Number(s: string): Option<nat> {
    if s == "" then Some(0)
    else
      var init, last := Number(s[..|s| - 1]), s[|s| - 1];
      if init.None? || !IsDigit(last) then None else Some(init.value * 10 + (last as int - '0' as int))
  }

  predicate Int64(x: int) { -0x8000_0000_0000_0000 <= x < 0x8000_0000_0000_0000 }

  /** A 64-bit decimal with an optional sign. */
  function ParseInt(s: string): Option<int> {
    if s == "" then None
    else
      var signed := s[0] == '-' || s[0] == '+';
      var digits := if signed then s[1..] else s;
      var n := Number(digits);
      if digits == "" || n.None? then None
      else
        var x: int := if s[0] == '-' then 0 - n.value else n.value;
        if Int64(x) then Some(x) else None
  }

  lemma {:induction false} NumberDigits(n: nat)
    ensures Number(Digits(n)) == Some(n) && Digits(n) != ""
            && (forall i :: 0 <= i < |Digits(n)| ==> IsDigit(Digits(n)[i]))
  {
    if n >= 10 {
      NumberDigits(n / 10);
      assert Digits(n)[..|Digits(n)| - 1] == Digits(n / 10);
    } else {
      assert [('0' as int + n) as char][..0] == "";
    }
  }

  lemma ParseFormat(x: int)
    requires Int64(x)
    ensures ParseInt(FormatInt(x)) == Some(x) && FormatInt(x) != "" && IsBytes(FormatInt(x)) && US !in FormatInt(x)
  {
    NumberDigits(if x < 0 then -x else x);
    if x < 0 {
      assert FormatInt(x)[1..] == Digits(-x);
    }
  }
}
