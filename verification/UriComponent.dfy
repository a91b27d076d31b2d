/** `encodeURIComponent` and `decodeURIComponent`, as ECMA-262 defines them (section 19.2.6): characters
    outside the unreserved set become the percent-escaped octets of their UTF-8 form, and decoding refuses
    whatever is not such a form. */
module UriComponent {
  import opened Common

  predicate Unreserved(c: char) {
    'a' <= c <= 'z' || 'A' <= c <= 'Z' || '0' <= c <= '9' || c == '-' || c == '_' || c == '.' || c == '!' || c == '~'
    || c == '*' || c == '\'' || c == '(' || c == ')'
  }

  // ---------- octets ----------

  type Byte = n: nat | n < 256

  function HexDigit(n: nat): char
    requires n < 16
  {
    if n < 10 then '0' + n as char else 'A' + (n - 10) as char
  }

  function HexValue(c: char): Option<nat> {
    if '0' <= c <= '9' then Some(c as int - '0' as int)
    else if 'A' <= c <= 'F' then Some(c as int - 'A' as int + 10)
    else if 'a' <= c <= 'f' then Some(c as int - 'a' as int + 10)
    else None
  }

  /** The sixteen digits, letters in either case, and no other character. */
  lemma HexValueExactly(c: char, n: nat)
    requires n < 16
    ensures HexValue(c) == Some(n) <==> c == "0123456789abcdef"[n] || c == "0123456789ABCDEF"[n]
  {
  }

  function Escape(octet: Byte): string {
    ['%', HexDigit(octet / 16), HexDigit(octet % 16)]
  }

  function Escapes(octets: seq<Byte>): string {
    if octets == [] then "" else Escape(octets[0]) + Escapes(octets[1..])
  }

  /** The octet escaped at the front of a string. */
  function Octet(s: string): (r: Option<Byte>)
    ensures r.Some? ==> |s| >= 3
  {
    if |s| < 3 || s[0] != '%' || HexValue(s[1]).None? || HexValue(s[2]).None? then None
    else Some(16 * HexValue(s[1]).value + HexValue(s[2]).value)
  }

  /** The first `n` octets escaped at the front of a string. */
  function Octets(s: string, n: nat): (r: Option<seq<Byte>>)
    ensures r.Some? ==> |r.value| == n && |s| >= 3 * n
  {
    if n == 0 then Some([])
    else if Octet(s).None? || Octets(s[3..], n - 1).None? then None
    else Some([Octet(s).value] + Octets(s[3..], n - 1).value)
  }

  lemma OctetOfEscape(octet: Byte, rest: string)
    ensures Octet(Escape(octet) + rest) == Some(octet) && (Escape(octet) + rest)[3..] == rest
  {
  }

  lemma {:induction false} EscapesSize(octets: seq<Byte>)
    ensures |Escapes(octets)| == 3 * |octets|
  {
    if octets != [] {
      EscapesSize(octets[1..]);
    }
  }

  lemma {:induction false} OctetsOfEscapes(octets: seq<Byte>, rest: string)
    ensures |Escapes(octets)| == 3 * |octets|
    ensures Octets(Escapes(octets) + rest, |octets|) == Some(octets)
    ensures (Escapes(octets) + rest)[3 * |octets|..] == rest
  {
    EscapesSize(octets);
    if octets != [] {
      var tail := Escapes(octets[1..]) + rest;
      OctetsOfEscapes(octets[1..], rest);
      assert Escapes(octets) + rest == Escape(octets[0]) + tail;
      OctetOfEscape(octets[0], tail);
      assert octets == [octets[0]] + octets[1..];
    }
  }

  // ---------- UTF-8 ----------

  predicate Scalar(cp: nat) {
    cp < 0xD800 || 0xE000 <= cp < 0x110000
  }

  /** A continuation octet: the last six bits of a number. */
  function Tail(bits: nat): Byte {
    0x80 + bits % 64
  }

  /** The octets of a code point. */
  function Utf8(cp: nat): seq<Byte>
    requires cp < 0x110000
  {
    if cp < 0x80 then [cp]
    else if cp < 0x800 then [0xC0 + cp / 64, Tail(cp)]
    else if cp < 0x10000 then [0xE0 + cp / 64 / 64, Tail(cp / 64), Tail(cp)]
    else [0xF0 + cp / 64 / 64 / 64, Tail(cp / 64 / 64), Tail(cp / 64), Tail(cp)]
  }

  /** How many octets the first one announces; 0 when it cannot come first. */
  function Announced(octet: Byte): nat {
    if octet < 0x80 then 1
    else if 0xC0 <= octet < 0xE0 then 2
    else if 0xE0 <= octet < 0xF0 then 3
    else if 0xF0 <= octet < 0xF8 then 4
    else 0
  }

  predicate Continues(octet: Byte) {
    0x80 <= octet < 0xC0
  }

  /** Six more bits. */
  function Push(bits: nat, octet: Byte): nat
    requires Continues(octet)
  {
    64 * bits + (octet as int - 0x80)
  }

  /** The bits carried by a first octet and its continuations. */
  function Bits(octets: seq<Byte>): nat
    requires |octets| > 0 && |octets| == Announced(octets[0]) && forall i :: 1 <= i < |octets| ==> Continues(octets[i])
  {
    if |octets| == 1 then octets[0]
    else if |octets| == 2 then Push(octets[0] - 0xC0, octets[1])
    else if |octets| == 3 then Push(Push(octets[0] - 0xE0, octets[1]), octets[2])
    else Push(Push(Push(octets[0] - 0xF0, octets[1]), octets[2]), octets[3])
  }

  /** The code point whose shortest form the octets are, if there is one and it is no surrogate. */
  function FromUtf8(octets: seq<Byte>): (r: Option<nat>)
    ensures r.Some? ==> Scalar(r.value)
  {
    if |octets| == 0 || |octets| != Announced(octets[0]) then None
    else if exists i :: 1 <= i < |octets| && !Continues(octets[i]) then None
    else if !Scalar(Bits(octets)) || |Utf8(Bits(octets))| != |octets| then None
    else Some(Bits(octets))
  }

  lemma PushTail(bits: nat)
    ensures Continues(Tail(bits)) && Push(bits / 64, Tail(bits)) == bits
  {
  }

  lemma TailPush(bits: nat, octet: Byte)
    requires Continues(octet)
    ensures Push(bits, octet) / 64 == bits && Tail(Push(bits, octet)) == octet
  {
  }

  lemma BackFromUtf8(cp: nat)
    requires Scalar(cp)
    ensures FromUtf8(Utf8(cp)) == Some(cp) && |Utf8(cp)| == Announced(Utf8(cp)[0])
  {
    PushTail(cp);
    PushTail(cp / 64);
    PushTail(cp / 64 / 64);
  }

  /** Nothing but the UTF-8 form of a code point is read as that code point. */
  lemma OnlyUtf8(octets: seq<Byte>)
    requires FromUtf8(octets).Some?
    ensures octets == Utf8(FromUtf8(octets).value)
  {
    if |octets| > 1 {
      TailPush(octets[0] - (if |octets| == 2 then 0xC0 else if |octets| == 3 then 0xE0 else 0xF0), octets[1]);
      if |octets| == 3 {
        TailPush(Push(octets[0] - 0xE0, octets[1]), octets[2]);
      } else if |octets| == 4 {
        TailPush(Push(octets[0] - 0xF0, octets[1]), octets[2]);
        TailPush(Push(Push(octets[0] - 0xF0, octets[1]), octets[2]), octets[3]);
      }
    }
  }

  /** The code point escaped at the front of a string, in the form its first octet announces. */
  function CodePoint(s: string): (r: Option<nat>)
    ensures r.Some? ==> Scalar(r.value)
    ensures r.Some? ==> Octet(s).Some? && Announced(Octet(s).value) > 0 && |s| >= 3 * Announced(Octet(s).value)
  {
    if Octet(s).None? then None
    else
      var octets := Octets(s, Announced(Octet(s).value));
      if octets.None? then None else FromUtf8(octets.value)
  }

  // ---------- encoding and decoding ----------

  function EncodeChar(c: char): string {
    if Unreserved(c) then [c] else Escapes(Utf8(c as int))
  }

  function Encode(s: string): string {
    if s == "" then "" else EncodeChar(s[0]) + Encode(s[1..])
  }

  /** `None` is the URIError thrown on a malformed escape. */
  function Decode(s: string): Option<string>
    decreases |s|
  {
    if s == "" then Some("")
    else if s[0] != '%' then Prefixed(s[0], Decode(s[1..]))
    else
      var cp := CodePoint(s);
      if cp.None? then None else Prefixed(cp.value as char, Decode(s[3 * Announced(Octet(s).value)..]))
  }

  function Prefixed(c: char, rest: Option<string>): Option<string> {
    if rest.Some? then Some([c] + rest.value) else None
  }

  /** The escaped octets of a code point are read back as that code point, and nothing more is read. */
  lemma CodePointOfEscapes(cp: nat, rest: string)
    requires Scalar(cp)
    ensures var s := Escapes(Utf8(cp)) + rest;
      CodePoint(s) == Some(cp) && Octet(s) == Some(Utf8(cp)[0]) && s[3 * |Utf8(cp)|..] == rest
  {
    BackFromUtf8(cp);
    OctetsOfEscapes(Utf8(cp), rest);
    var s := Escapes(Utf8(cp)) + rest;
    assert Octets(s, |Utf8(cp)|).value[0] == Octet(s).value;
  }

  lemma DecodeFirst(c: char, rest: string)
    ensures Decode(EncodeChar(c) + rest) == Prefixed(c, Decode(rest))
  {
    if Unreserved(c) {
      assert (EncodeChar(c) + rest)[1..] == rest;
    } else {
      CodePointOfEscapes(c as int, rest);
      BackFromUtf8(c as int);
    }
  }

  /** Decoding undoes encoding, for every string. */
  lemma {:induction false} DecodeEncoded(s: string)
    ensures Decode(Encode(s)) == Some(s)
  {
    if s != "" {
      DecodeFirst(s[0], Encode(s[1..]));
      DecodeEncoded(s[1..]);
      assert s == [s[0]] + s[1..];
    }
  }

  /** An encoded string holds only unreserved characters and percent signs. */
  lemma {:induction false} EncodedIsPlain(s: string)
    ensures forall c :: c in Encode(s) ==> Unreserved(c) || c == '%'
  {
    if s != "" {
      EncodedIsPlain(s[1..]);
      if !Unreserved(s[0]) {
        EscapesArePlain(Utf8(s[0] as int));
      }
    }
  }

  lemma {:induction false} EscapesArePlain(octets: seq<Byte>)
    ensures forall c :: c in Escapes(octets) ==> Unreserved(c) || c == '%'
  {
    if octets != [] {
      EscapesArePlain(octets[1..]);
    }
  }

  /** What holds no percent sign is decoded as it stands. */
  lemma {:induction false} PlainDecodes(s: string)
    requires '%' !in s
    ensures Decode(s) == Some(s)
  {
    if s != "" {
      PlainDecodes(s[1..]);
      assert s == [s[0]] + s[1..];
    }
  }
}
