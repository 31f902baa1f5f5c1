/**
 * The base64 encoding of section 4 of RFC 4648: every three octets become
 * four characters of the 64-character alphabet, and a final group of one or
 * two octets is padded with '='. The back end stores attachments as bytes
 * and exposes them in this encoding; the front end sends them in it.
 */
module Base64 {
  import opened Wrappers

  type byte = b: int | 0 <= b < 256
  type sextet = x: int | 0 <= x < 64

  /** Table 1 of RFC 4648: A-Z, a-z, 0-9, '+', '/'. */
  function CharOf(x: sextet): char {
    if x < 26 then ('A' as int + x) as char
    else if x < 52 then ('a' as int + (x - 26)) as char
    else if x < 62 then ('0' as int + (x - 52)) as char
    else if x == 62 then '+'
    else '/'
  }

  /** The inverse of the alphabet table; characters outside it have no value. */
  function ValueOf(c: char): Option<sextet> {
    if 'A' <= c <= 'Z' then Some(c as int - 'A' as int)
    else if 'a' <= c <= 'z' then Some(c as int - 'a' as int + 26)
    else if '0' <= c <= '9' then Some(c as int - '0' as int + 52)
    else if c == '+' then Some(62)
    else if c == '/' then Some(63)
    else None
  }

  predicate InAlphabet(c: char) {
    ValueOf(c).Some?
  }

  lemma ValueOfCharOf(x: sextet)
    ensures ValueOf(CharOf(x)) == Some(x)
    ensures CharOf(x) != '=' && CharOf(x) != ','
  {
  }

  /** Three octets, 24 bits, become four sextets, most significant first. */
  function EncodeGroup(b0: byte, b1: byte, b2: byte): string {
    [CharOf(b0 / 4), CharOf((b0 % 4) * 16 + b1 / 16), CharOf((b1 % 16) * 4 + b2 / 64), CharOf(b2 % 64)]
  }

  /** A final group of two octets: three characters and one '='. */
  function EncodeTwo(b0: byte, b1: byte): string {
    [CharOf(b0 / 4), CharOf((b0 % 4) * 16 + b1 / 16), CharOf((b1 % 16) * 4), '=']
  }

  /** A final group of one octet: two characters and "==". */
  function EncodeOne(b0: byte): string {
    [CharOf(b0 / 4), CharOf((b0 % 4) * 16), '=', '=']
  }

  /** `base64.b64encode(data)` / `btoa` over octets. */
  function Encode(data: seq<byte>): string
    decreases |data|
  {
    if |data| == 0 then ""
    else if |data| == 1 then EncodeOne(data[0])
    else if |data| == 2 then EncodeTwo(data[0], data[1])
    else EncodeGroup(data[0], data[1], data[2]) + Encode(data[3..])
  }

  function DecodeSextets(s0: sextet, s1: sextet, s2: sextet, s3: sextet): seq<byte> {
    [s0 * 4 + s1 / 16, (s1 % 16) * 16 + s2 / 4, (s2 % 4) * 64 + s3]
  }

  /**
   * Decodes one four-character group. Padding is accepted only in the last
   * group, as "x=" in the fourth position or "==" in the last two.
   */
  function DecodeGroup(g: string, last: bool): Option<seq<byte>>
    requires |g| == 4
  {
    var v0, v1, v2, v3 := ValueOf(g[0]), ValueOf(g[1]), ValueOf(g[2]), ValueOf(g[3]);
    if v0.None? || v1.None? then None
    else if v2.Some? && v3.Some? then
      Some(DecodeSextets(v0.value, v1.value, v2.value, v3.value))
    else if last && v2.Some? && g[3] == '=' then
      Some(DecodeSextets(v0.value, v1.value, v2.value, 0)[..2])
    else if last && g[2] == '=' && g[3] == '=' then
      Some(DecodeSextets(v0.value, v1.value, 0, 0)[..1])
    else None
  }

  /** Strict decoding: the length is a multiple of four and every character is in the alphabet or is final padding. */
  function Decode(s: string): Option<seq<byte>>
    decreases |s|
  {
    if |s| == 0 then Some([])
    else if |s| < 4 then None
    else
      var head :- DecodeGroup(s[..4], |s| == 4);
      var tail :- Decode(s[4..]);
      Some(head + tail)
  }

  /** Division and remainder by a positive constant are determined by any quotient-remainder split. */
  lemma DivModSplit(x: int, d: int, q: int, r: int)
    requires d == 4 || d == 16 || d == 64
    requires 0 <= r < d && x == q * d + r
    ensures x / d == q && x % d == r
  {
  }

  /** The sextets of a full group recombine into the three octets. */
  lemma GroupArith(b0: byte, b1: byte, b2: byte)
    ensures (b0 % 4) * 16 + b1 / 16 < 64 && (b1 % 16) * 4 + b2 / 64 < 64
    ensures (b0 / 4) * 4 + ((b0 % 4) * 16 + b1 / 16) / 16 == b0
    ensures (((b0 % 4) * 16 + b1 / 16) % 16) * 16 + ((b1 % 16) * 4 + b2 / 64) / 4 == b1
    ensures (((b1 % 16) * 4 + b2 / 64) % 4) * 64 + b2 % 64 == b2
  {
    DivModSplit(b0, 4, b0 / 4, b0 % 4);
    DivModSplit(b1, 16, b1 / 16, b1 % 16);
    DivModSplit(b2, 64, b2 / 64, b2 % 64);
    DivModSplit((b0 % 4) * 16 + b1 / 16, 16, b0 % 4, b1 / 16);
    DivModSplit((b1 % 16) * 4 + b2 / 64, 4, b1 % 16, b2 / 64);
  }

  lemma DecodeEncodeGroup(b0: byte, b1: byte, b2: byte, last: bool)
    ensures DecodeGroup(EncodeGroup(b0, b1, b2), last) == Some([b0, b1, b2])
  {
    GroupArith(b0, b1, b2);
    var s0, s1, s2, s3 := b0 / 4, (b0 % 4) * 16 + b1 / 16, (b1 % 16) * 4 + b2 / 64, b2 % 64;
    ValueOfCharOf(s0);
    ValueOfCharOf(s1);
    ValueOfCharOf(s2);
    ValueOfCharOf(s3);
    assert DecodeSextets(s0, s1, s2, s3) == [b0, b1, b2];
  }

  lemma DecodeEncodeTwo(b0: byte, b1: byte)
    ensures DecodeGroup(EncodeTwo(b0, b1), true) == Some([b0, b1])
  {
    GroupArith(b0, b1, 0);
    var s0, s1, s2 := b0 / 4, (b0 % 4) * 16 + b1 / 16, (b1 % 16) * 4;
    ValueOfCharOf(s0);
    ValueOfCharOf(s1);
    ValueOfCharOf(s2);
    assert DecodeSextets(s0, s1, s2, 0)[..2] == [b0, b1];
  }

  lemma DecodeEncodeOne(b0: byte)
    ensures DecodeGroup(EncodeOne(b0), true) == Some([b0])
  {
    GroupArith(b0, 0, 0);
    var s0, s1 := b0 / 4, (b0 % 4) * 16;
    ValueOfCharOf(s0);
    ValueOfCharOf(s1);
    assert DecodeSextets(s0, s1, 0, 0)[..1] == [b0];
  }

  /** Decoding a text that starts with a full group. */
  lemma DecodeCons(g: string, rest: string, h: seq<byte>, t: seq<byte>)
    requires |g| == 4
    requires DecodeGroup(g, |rest| == 0) == Some(h) && Decode(rest) == Some(t)
    ensures Decode(g + rest) == Some(h + t)
  {
    var s := g + rest;
    assert s[..4] == g && s[4..] == rest;
  }

  /** Decoding a text that is a single, final group. */
  lemma DecodeLast(g: string, h: seq<byte>)
    requires |g| == 4 && DecodeGroup(g, true) == Some(h)
    ensures Decode(g) == Some(h)
  {
    assert g[..4] == g;
    assert g[4..] == [];
    assert h + [] == h;
  }

  lemma RoundTripOne(b0: byte)
    ensures Decode(EncodeOne(b0)) == Some([b0])
  {
    DecodeEncodeOne(b0);
    DecodeLast(EncodeOne(b0), [b0]);
  }

  lemma RoundTripTwo(b0: byte, b1: byte)
    ensures Decode(EncodeTwo(b0, b1)) == Some([b0, b1])
  {
    DecodeEncodeTwo(b0, b1);
    DecodeLast(EncodeTwo(b0, b1), [b0, b1]);
  }

  lemma RoundTripGroup(b0: byte, b1: byte, b2: byte, rest: seq<byte>)
    requires Decode(Encode(rest)) == Some(rest)
    ensures Decode(EncodeGroup(b0, b1, b2) + Encode(rest)) == Some([b0, b1, b2] + rest)
  {
    DecodeEncodeGroup(b0, b1, b2, |Encode(rest)| == 0);
    DecodeCons(EncodeGroup(b0, b1, b2), Encode(rest), [b0, b1, b2], rest);
  }

  /** Decoding undoes encoding for every octet string. */
  lemma {:induction false} DecodeEncode(data: seq<byte>)
    ensures Decode(Encode(data)) == Some(data)
    decreases |data|
  {
    if |data| == 0 {
    } else if |data| == 1 {
      assert data == [data[0]];
      RoundTripOne(data[0]);
    } else if |data| == 2 {
      assert data == [data[0], data[1]];
      RoundTripTwo(data[0], data[1]);
    } else {
      assert data == [data[0], data[1], data[2]] + data[3..];
      DecodeEncode(data[3..]);
      RoundTripGroup(data[0], data[1], data[2], data[3..]);
    }
  }

  /** The encoding is four characters per started group of three octets. */
  lemma {:induction false} EncodeLength(data: seq<byte>)
    ensures |Encode(data)| == 4 * ((|data| + 2) / 3)
    decreases |data|
  {
    if |data| > 2 {
      EncodeLength(data[3..]);
    }
  }

  /** Every encoded character is in the alphabet or is '='; in particular none is a comma. */
  lemma {:induction false} EncodeAlphabet(data: seq<byte>)
    ensures forall i | 0 <= i < |Encode(data)| :: InAlphabet(Encode(data)[i]) || Encode(data)[i] == '='
    ensures ',' !in Encode(data)
    decreases |data|
  {
    if |data| == 0 {
    } else if |data| == 1 {
      ValueOfCharOf(data[0] / 4);
      ValueOfCharOf((data[0] % 4) * 16);
    } else if |data| == 2 {
      ValueOfCharOf(data[0] / 4);
      ValueOfCharOf((data[0] % 4) * 16 + data[1] / 16);
      ValueOfCharOf((data[1] % 16) * 4);
    } else {
      ValueOfCharOf(data[0] / 4);
      ValueOfCharOf((data[0] % 4) * 16 + data[1] / 16);
      ValueOfCharOf((data[1] % 16) * 4 + data[2] / 64);
      ValueOfCharOf(data[2] % 64);
      EncodeAlphabet(data[3..]);
    }
  }

  /** Only the empty octet string encodes to the empty text. */
  lemma EncodeEmptyIff(data: seq<byte>)
    ensures Encode(data) == "" <==> data == []
  {
    EncodeLength(data);
  }

  // ------------------------------------------------ forgiving decode (atob)

  /** The ASCII white space the forgiving decoder skips: tab, line feed, form feed, carriage return and space. */
  predicate AsciiSpace(c: char) {
    c == '\t' || c == '\n' || c == '\U{000C}' || c == '\r' || c == ' '
  }

  /** The text without its ASCII white space, in order. */
  function RemoveSpaces(s: string): (r: string)
    ensures |r| <= |s|
    ensures forall i | 0 <= i < |r| :: !AsciiSpace(r[i])
    ensures forall c :: c in r <==> c in s && !AsciiSpace(c)
  {
    if s == "" then ""
    else
      var rest := RemoveSpaces(s[1..]);
      assert s == [s[0]] + s[1..];
      if AsciiSpace(s[0]) then rest else [s[0]] + rest
  }

  /** A text without white space is left as it is. */
  lemma {:induction false} NoSpacesKept(s: string)
    requires forall i | 0 <= i < |s| :: !AsciiSpace(s[i])
    ensures RemoveSpaces(s) == s
    decreases |s|
  {
    if s != "" {
      NoSpacesKept(s[1..]);
      assert s == [s[0]] + s[1..];
    }
  }

  /** When the length is a multiple of four, one or two final '=' are dropped. */
  function StripPadding(s: string): (r: string)
    ensures |r| <= |s| && r == s[..|r|]
    ensures |s| - 2 <= |r|
    ensures |s| % 4 != 0 ==> r == s
  {
    if |s| % 4 != 0 then s
    else if |s| >= 2 && s[|s| - 1] == '=' && s[|s| - 2] == '=' then s[..|s| - 2]
    else if |s| >= 1 && s[|s| - 1] == '=' then s[..|s| - 1]
    else s
  }

  /**
   * Alphabet characters decoded four at a time; a final two or three make
   * one or two octets, their spare low bits discarded, and a final single
   * character, or any character outside the alphabet, fails.
   */
  function DecodeUnpadded(s: string): (r: Option<seq<byte>>)
    ensures r.Some? ==> |s| % 4 != 1 && |r.value| == |s| * 3 / 4
    ensures r.Some? ==> forall i | 0 <= i < |s| :: InAlphabet(s[i])
    decreases |s|
  {
    if |s| == 0 then Some([])
    else if |s| == 1 then None
    else
      var v0, v1 := ValueOf(s[0]), ValueOf(s[1]);
      if v0.None? || v1.None? then None
      else if |s| == 2 then Some(DecodeSextets(v0.value, v1.value, 0, 0)[..1])
      else
        var v2 := ValueOf(s[2]);
        if v2.None? then None
        else if |s| == 3 then Some(DecodeSextets(v0.value, v1.value, v2.value, 0)[..2])
        else
          var v3 := ValueOf(s[3]);
          if v3.None? then None
          else
            match DecodeUnpadded(s[4..])
            case None => None
            case Some(tail) =>
              assert forall i | 4 <= i < |s| :: s[i] == s[4..][i - 4];
              Some(DecodeSextets(v0.value, v1.value, v2.value, v3.value) + tail)
  }

  /** `atob`: the forgiving-base64 decode, which skips white space and lets the final padding be left out. */
  function ForgivingDecode(s: string): Option<seq<byte>> {
    DecodeUnpadded(StripPadding(RemoveSpaces(s)))
  }

  /** A strictly decodable text holds only alphabet characters and '='. */
  lemma {:induction false} DecodeChars(s: string)
    requires Decode(s).Some?
    ensures forall i | 0 <= i < |s| :: InAlphabet(s[i]) || s[i] == '='
    decreases |s|
  {
    if |s| > 0 {
      DecodeChars(s[4..]);
      assert forall i | 4 <= i < |s| :: s[i] == s[4..][i - 4];
    }
  }

  /** Stripping the padding of a text acts on its last group only. */
  lemma StripPaddingCons(g: string, rest: string)
    requires |g| == 4 && |rest| >= 4
    ensures StripPadding(g + rest) == g + StripPadding(rest)
  {
    var s := g + rest;
    assert s[|s| - 1] == rest[|rest| - 1] && s[|s| - 2] == rest[|rest| - 2];
    assert s[..|s| - 2] == g + rest[..|rest| - 2];
    assert s[..|s| - 1] == g + rest[..|rest| - 1];
  }

  /** A leading group of four alphabet characters decodes to its three octets before the rest. */
  lemma UnpaddedCons(g: string, rest: string)
    requires |g| == 4 && InAlphabet(g[0]) && InAlphabet(g[1]) && InAlphabet(g[2]) && InAlphabet(g[3])
    requires DecodeUnpadded(rest).Some?
    ensures DecodeUnpadded(g + rest) ==
      Some(DecodeSextets(ValueOf(g[0]).value, ValueOf(g[1]).value, ValueOf(g[2]).value, ValueOf(g[3]).value) + DecodeUnpadded(rest).value)
  {
    var s := g + rest;
    assert s[..4] == g && s[4..] == rest;
    assert s[0] == g[0] && s[1] == g[1] && s[2] == g[2] && s[3] == g[3];
  }

  /** The last group of a strictly decodable text, padded or not. */
  lemma StrictLastGroup(s: string)
    requires |s| == 4 && Decode(s).Some?
    ensures DecodeUnpadded(StripPadding(s)) == Decode(s)
  {
    assert s[..4] == s;
    var h := DecodeGroup(s, true);
    assert h.Some?;
    DecodeLast(s, h.value);
    var v0, v1, v2, v3 := ValueOf(s[0]), ValueOf(s[1]), ValueOf(s[2]), ValueOf(s[3]);
    if v2.Some? && v3.Some? {
      LastGroupFull(s);
    } else if v2.Some? && s[3] == '=' {
      LastGroupOnePad(s);
    } else {
      LastGroupTwoPads(s);
    }
  }

  lemma LastGroupFull(s: string)
    requires |s| == 4 && InAlphabet(s[0]) && InAlphabet(s[1]) && InAlphabet(s[2]) && InAlphabet(s[3])
    ensures DecodeUnpadded(StripPadding(s)) == DecodeGroup(s, true)
  {
    assert s[3] != '=';
    assert StripPadding(s) == s;
    var bytes := DecodeSextets(ValueOf(s[0]).value, ValueOf(s[1]).value, ValueOf(s[2]).value, ValueOf(s[3]).value);
    assert DecodeGroup(s, true) == Some(bytes);
    assert s + "" == s;
    UnpaddedCons(s, "");
    assert bytes + [] == bytes;
  }

  lemma LastGroupOnePad(s: string)
    requires |s| == 4 && InAlphabet(s[0]) && InAlphabet(s[1]) && InAlphabet(s[2]) && s[3] == '='
    ensures DecodeUnpadded(StripPadding(s)) == DecodeGroup(s, true)
  {
    assert s[2] != '=';
    var u := s[..3];
    assert StripPadding(s) == u;
    assert u[0] == s[0] && u[1] == s[1] && u[2] == s[2];
  }

  lemma LastGroupTwoPads(s: string)
    requires |s| == 4 && InAlphabet(s[0]) && InAlphabet(s[1]) && s[2] == '=' && s[3] == '='
    ensures DecodeUnpadded(StripPadding(s)) == DecodeGroup(s, true)
  {
    var u := s[..2];
    assert StripPadding(s) == u;
    assert u[0] == s[0] && u[1] == s[1];
  }

  /** Stripping the padding and decoding leniently gives what strict decoding gives. */
  lemma {:induction false} StrictUnpadded(s: string)
    requires Decode(s).Some?
    ensures DecodeUnpadded(StripPadding(s)) == Decode(s)
    decreases |s|
  {
    if |s| == 4 {
      StrictLastGroup(s);
    } else if |s| > 4 {
      var g, rest := s[..4], s[4..];
      assert s == g + rest;
      assert Decode(rest).Some? && |rest| >= 4;
      StrictUnpadded(rest);
      StripPaddingCons(g, rest);
      assert ValueOf(g[2]).Some? && ValueOf(g[3]).Some?;
      UnpaddedCons(g, StripPadding(rest));
    }
  }

  /** Whatever strict decoding accepts, `atob` decodes to the same octets. */
  lemma StrictIsForgiving(s: string)
    requires Decode(s).Some?
    ensures ForgivingDecode(s) == Decode(s)
  {
    DecodeChars(s);
    NoSpacesKept(s);
    StrictUnpadded(s);
  }

  /** `atob` undoes `btoa`. */
  lemma ForgivingRoundTrip(data: seq<byte>)
    ensures ForgivingDecode(Encode(data)) == Some(data)
  {
    DecodeEncode(data);
    StrictIsForgiving(Encode(data));
  }

  /** White space anywhere in the text makes no difference to `atob`. */
  lemma SpacesIgnored(s: string)
    ensures ForgivingDecode(RemoveSpaces(s)) == ForgivingDecode(s)
  {
    NoSpacesKept(RemoveSpaces(s));
  }

  /** `atob` accepts unpadded and spaced text that strict decoding refuses. */
  lemma ForgivingAcceptsMore()
    ensures Decode("YQ") == None && ForgivingDecode("YQ") == Some([97])
  {
    NoSpacesKept("YQ");
    assert StripPadding("YQ") == "YQ";
    assert ValueOf('Y') == Some(24) && ValueOf('Q') == Some(16);
    assert DecodeSextets(24, 16, 0, 0)[..1] == [97];
  }
}
