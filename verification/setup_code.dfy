/** Setup codes: base64url without padding (section 5 of RFC 4648) of the bytes of a payload. */
module SetupCode {
  import opened Basics

  type Byte = b: int | 0 <= b < 256
  type Sextet = n: int | 0 <= n < 64

  // ---- The encoder ----

  // The standard alphabet (section 4 of RFC 4648).
  function Letter(n: Sextet): char {
    if n < 26 then 'A' + n as char
    else if n < 52 then 'a' + (n - 26) as char
    else if n < 62 then '0' + (n - 52) as char
    else if n == 62 then '+' else '/'
  }

  function First(a: Byte): Sextet { a / 4 }
  function Second(a: Byte, b: Byte): Sextet { a % 4 * 16 + b / 16 }
  function Third(b: Byte, c: Byte): Sextet { b % 16 * 4 + c / 64 }
  function Fourth(c: Byte): Sextet { c % 64 }

  // Buffer.toString("base64").
  function Base64(bytes: seq<Byte>): string {
    if |bytes| == 0 then ""
    else if |bytes| == 1 then [Letter(First(bytes[0])), Letter(Second(bytes[0], 0))] + "=="
    else if |bytes| == 2 then
      [Letter(First(bytes[0])), Letter(Second(bytes[0], bytes[1])), Letter(Third(bytes[1], 0))] + "="
    else
      [Letter(First(bytes[0])), Letter(Second(bytes[0], bytes[1])), Letter(Third(bytes[1], bytes[2])),
        Letter(Fourth(bytes[2]))]
      + Base64(bytes[3..])
  }

  function ReplaceAll(s: string, from: char, to: char): (r: string)
    ensures |r| == |s|
  {
    seq(|s|, i requires 0 <= i < |s| => if s[i] == from then to else s[i])
  }

  function StripEquals(s: string): string {
    if s != "" && s[|s| - 1] == '=' then StripEquals(s[..|s| - 1]) else s
  }

  // encodeSetupCode, on the UTF-8 bytes of the payload.
  function Encode(bytes: seq<Byte>): string {
    StripEquals(ReplaceAll(ReplaceAll(Base64(bytes), '+', '-'), '/', '_'))
  }

  // ---- The decoder of section 5 of RFC 4648 ----

  // The position of a character in the URL-safe alphabet.
  function Position(c: char): Option<Sextet> {
    if 'A' <= c <= 'Z' then Some(c as int - 'A' as int)
    else if 'a' <= c <= 'z' then Some(c as int - 'a' as int + 26)
    else if '0' <= c <= '9' then Some(c as int - '0' as int + 52)
    else if c == '-' then Some(62)
    else if c == '_' then Some(63)
    else None
  }

  function Three(n0: Sextet, n1: Sextet, n2: Sextet, n3: Sextet): seq<Byte> {
    [n0 * 4 + n1 / 16, n1 % 16 * 16 + n2 / 4, n2 % 4 * 64 + n3]
  }

  predicate UrlSafe(s: string) { forall c | c in s :: Position(c).Some? }

  // Unused bits must be zero, and no text has length 1 modulo 4.
  function Decode(code: string): Option<seq<Byte>>
    requires UrlSafe(code)
  {
    if code == "" then Some([])
    else if |code| == 1 then None
    else
      var n0, n1 := Position(code[0]).value, Position(code[1]).value;
      if |code| == 2 then (if n1 % 16 == 0 then Some([n0 * 4 + n1 / 16]) else None)
      else
        var n2 := Position(code[2]).value;
        if |code| == 3 then
          (if n2 % 4 == 0 then Some([n0 * 4 + n1 / 16, n1 % 16 * 16 + n2 / 4]) else None)
        else
          var n3 := Position(code[3]).value;
          var rest := Decode(code[4..]);
          if rest.None? then None
          else Some(Three(n0, n1, n2, n3) + rest.value)
  }

  // ---- The encoder gives URL-safe letters and no padding ----

  function UrlLetter(n: Sextet): char {
    if n == 62 then '-' else if n == 63 then '_' else Letter(n)
  }

  lemma {:induction false} LetterRoundTrip(n: Sextet)
    ensures Position(UrlLetter(n)) == Some(n) && UrlLetter(n) != '='
    ensures Letter(n) != '=' && (Letter(n) == '+' <==> n == 62) && (Letter(n) == '/' <==> n == 63)
    ensures Letter(n) != '-' && Letter(n) != '_'
  {
  }

  lemma {:induction false} PositionRoundTrip(c: char)
    requires Position(c).Some?
    ensures UrlLetter(Position(c).value) == c
  {
  }

  // The encoding written without padding.
  function Unpadded(bytes: seq<Byte>): string {
    if |bytes| == 0 then ""
    else if |bytes| == 1 then [UrlLetter(First(bytes[0])), UrlLetter(Second(bytes[0], 0))]
    else if |bytes| == 2 then
      [UrlLetter(First(bytes[0])), UrlLetter(Second(bytes[0], bytes[1])), UrlLetter(Third(bytes[1], 0))]
    else
      [UrlLetter(First(bytes[0])), UrlLetter(Second(bytes[0], bytes[1])), UrlLetter(Third(bytes[1], bytes[2])),
        UrlLetter(Fourth(bytes[2]))]
      + Unpadded(bytes[3..])
  }

  function UrlChar(c: char): char { if c == '+' then '-' else if c == '/' then '_' else c }

  function UrlText(s: string): (r: string)
    ensures |r| == |s|
  {
    seq(|s|, i requires 0 <= i < |s| => UrlChar(s[i]))
  }

  function Padding(length: nat): string {
    if length % 3 == 0 then "" else if length % 3 == 1 then "==" else "="
  }

  lemma {:induction false} UrlConcat(a: string, b: string)
    ensures UrlText(a + b) == UrlText(a) + UrlText(b)
  {
  }

  lemma {:induction false} UrlLetters(ns: seq<Sextet>, s: string)
    requires |s| == |ns| && forall i | 0 <= i < |ns| :: s[i] == Letter(ns[i])
    ensures UrlText(s) == seq(|ns|, i requires 0 <= i < |ns| => UrlLetter(ns[i]))
  {
  }

  lemma {:induction false} UrlPadding(length: nat)
    ensures UrlText(Padding(length)) == Padding(length)
  {
  }

  // A group of letters, with what follows it.
  lemma {:induction false} UrlGroup(ns: seq<Sextet>, s: string, rest: string, urls: string)
    requires |s| == |ns| == |urls| && forall i | 0 <= i < |ns| :: s[i] == Letter(ns[i]) && urls[i] == UrlLetter(ns[i])
    ensures UrlText(s + rest) == urls + UrlText(rest)
  {
    UrlLetters(ns, s);
    hide Letter;
    hide UrlLetter;
    hide UrlText;
    UrlConcat(s, rest);
    assert urls == seq(|ns|, i requires 0 <= i < |ns| => UrlLetter(ns[i]));
  }

  lemma {:induction false} PaddedStep(bytes: seq<Byte>)
    requires |bytes| >= 3
    ensures exists urls: string :: |urls| == 4 && UrlText(Base64(bytes)) == urls + UrlText(Base64(bytes[3..])) &&
              Unpadded(bytes) == urls + Unpadded(bytes[3..])
  {
    var ns: seq<Sextet> := [First(bytes[0]), Second(bytes[0], bytes[1]), Third(bytes[1], bytes[2]), Fourth(bytes[2])];
    var four := [Letter(ns[0]), Letter(ns[1]), Letter(ns[2]), Letter(ns[3])];
    var urls := [UrlLetter(ns[0]), UrlLetter(ns[1]), UrlLetter(ns[2]), UrlLetter(ns[3])];
    hide Letter;
    hide UrlLetter;
    hide UrlText;
    UrlGroup(ns, four, Base64(bytes[3..]), urls);
    assert Base64(bytes) == four + Base64(bytes[3..]);
    assert Unpadded(bytes) == urls + Unpadded(bytes[3..]);
  }

  lemma {:induction false} PaddedEnd(bytes: seq<Byte>)
    requires |bytes| < 3
    ensures UrlText(Base64(bytes)) == Unpadded(bytes) + Padding(|bytes|)
  {
    UrlPadding(|bytes|);
    hide Letter;
    hide UrlLetter;
    hide UrlText;
    if |bytes| == 1 {
      var ns: seq<Sextet> := [First(bytes[0]), Second(bytes[0], 0)];
      UrlGroup(ns, [Letter(ns[0]), Letter(ns[1])], "==", Unpadded(bytes));
    } else if |bytes| == 2 {
      var ns: seq<Sextet> := [First(bytes[0]), Second(bytes[0], bytes[1]), Third(bytes[1], 0)];
      UrlGroup(ns, [Letter(ns[0]), Letter(ns[1]), Letter(ns[2])], "=", Unpadded(bytes));
    }
  }

  // The replacements turn the padded text into the unpadded one and the padding.
  lemma {:induction false} PaddedUrl(bytes: seq<Byte>)
    ensures UrlText(Base64(bytes)) == Unpadded(bytes) + Padding(|bytes|)
  {
    hide UrlText;
    hide Base64;
    hide Unpadded;
    if |bytes| < 3 {
      PaddedEnd(bytes);
    } else {
      PaddedUrl(bytes[3..]);
      PaddedStep(bytes);
      assert Padding(|bytes[3..]|) == Padding(|bytes|);
    }
  }

  lemma {:induction false} UnpaddedPlain(bytes: seq<Byte>)
    ensures UrlSafe(Unpadded(bytes)) && '=' !in Unpadded(bytes)
  {
    hide UrlLetter;
    hide Position;
    hide First;
    hide Second;
    hide Third;
    hide Fourth;
    if |bytes| == 0 {
    } else if |bytes| == 1 {
      LetterRoundTrip(First(bytes[0]));
      LetterRoundTrip(Second(bytes[0], 0));
    } else if |bytes| == 2 {
      LetterRoundTrip(First(bytes[0]));
      LetterRoundTrip(Second(bytes[0], bytes[1]));
      LetterRoundTrip(Third(bytes[1], 0));
    } else {
      UnpaddedPlain(bytes[3..]);
      LetterRoundTrip(First(bytes[0]));
      LetterRoundTrip(Second(bytes[0], bytes[1]));
      LetterRoundTrip(Third(bytes[1], bytes[2]));
      LetterRoundTrip(Fourth(bytes[2]));
    }
  }

  lemma {:induction false} StripPadding(s: string, length: nat)
    requires '=' !in s
    ensures StripEquals(s + Padding(length)) == s
  {
    var t := s + Padding(length);
    if length % 3 == 0 {
      assert t == s;
    } else if length % 3 == 2 {
      assert t[..|t| - 1] == s;
    } else {
      assert t[..|t| - 1] == s + "=" && (s + "=")[..|s|] == s;
      assert StripEquals(t) == StripEquals(s + "=") == StripEquals(s);
    }
  }

  lemma {:induction false} EncodeUnpadded(bytes: seq<Byte>)
    ensures Encode(bytes) == Unpadded(bytes)
  {
    PaddedUrl(bytes);
    UnpaddedPlain(bytes);
    StripPadding(Unpadded(bytes), |bytes|);
    var s := Base64(bytes);
    assert ReplaceAll(ReplaceAll(s, '+', '-'), '/', '_') == UrlText(s);
  }

  // ---- Main results ----

  // A setup code uses only the URL-safe alphabet; four thirds of the bytes are rounded up, never to 1 modulo 4.
  lemma {:induction false} EncodeShape(bytes: seq<Byte>)
    ensures UrlSafe(Encode(bytes))
    ensures |Encode(bytes)| == (4 * |bytes| + 2) / 3 && |Encode(bytes)| % 4 != 1
  {
    EncodeUnpadded(bytes);
    UnpaddedPlain(bytes);
    UnpaddedLength(bytes);
  }

  lemma {:induction false} UnpaddedLength(bytes: seq<Byte>)
    ensures |Unpadded(bytes)| == (4 * |bytes| + 2) / 3 && |Unpadded(bytes)| % 4 != 1
  {
    hide UrlLetter;
    if |bytes| >= 3 { UnpaddedLength(bytes[3..]); }
  }

  // Three bytes and their four letters determine each other.
  lemma {:induction false} GroupRoundTrip(a: Byte, b: Byte, c: Byte)
    ensures First(a) * 4 + Second(a, b) / 16 == a
    ensures Second(a, b) % 16 * 16 + Third(b, c) / 4 == b
    ensures Third(b, c) % 4 * 64 + Fourth(c) == c
    ensures Second(a, 0) % 16 == 0 && Third(b, 0) % 4 == 0
  {
  }

  lemma {:induction false} LettersRoundTrip(n0: Sextet, n1: Sextet, n2: Sextet, n3: Sextet)
    ensures var a, b, c := n0 * 4 + n1 / 16, n1 % 16 * 16 + n2 / 4, n2 % 4 * 64 + n3;
      && 0 <= a < 256 && 0 <= b < 256 && 0 <= c < 256
      && First(a) == n0 && Second(a, b) == n1 && Third(b, c) == n2 && Fourth(c) == n3
      && (n1 % 16 == 0 ==> Second(a, 0) == n1) && (n2 % 4 == 0 ==> Third(b, 0) == n2)
  {
  }

  // The decoder recovers the bytes of every setup code.
  lemma {:induction false} DecodeEncode(bytes: seq<Byte>)
    ensures UrlSafe(Encode(bytes)) && Decode(Encode(bytes)) == Some(bytes)
  {
    EncodeUnpadded(bytes);
    UnpaddedPlain(bytes);
    DecodeUnpadded(bytes);
  }

  lemma {:induction false} DecodeFour(bytes: seq<Byte>)
    requires |bytes| >= 3 && UrlSafe(Unpadded(bytes))
    ensures UrlSafe(Unpadded(bytes[3..]))
    ensures var rest := Decode(Unpadded(bytes[3..]));
      Decode(Unpadded(bytes)) == if rest.None? then None else Some(bytes[..3] + rest.value)
  {
    var code := Unpadded(bytes);
    assert code[4..] == Unpadded(bytes[3..]);
    LetterRoundTrip(First(bytes[0]));
    LetterRoundTrip(Second(bytes[0], bytes[1]));
    LetterRoundTrip(Third(bytes[1], bytes[2]));
    LetterRoundTrip(Fourth(bytes[2]));
    GroupRoundTrip(bytes[0], bytes[1], bytes[2]);
    hide UrlLetter;
    hide Position;
    hide First;
    hide Second;
    hide Third;
    hide Fourth;
    assert bytes[..3] == [bytes[0], bytes[1], bytes[2]];
  }

  lemma {:induction false} DecodeEnd(bytes: seq<Byte>)
    requires |bytes| < 3 && UrlSafe(Unpadded(bytes))
    ensures Decode(Unpadded(bytes)) == Some(bytes)
  {
    hide UrlLetter;
    hide Position;
    hide First;
    hide Second;
    hide Third;
    if |bytes| == 1 {
      LetterRoundTrip(First(bytes[0]));
      LetterRoundTrip(Second(bytes[0], 0));
      GroupRoundTrip(bytes[0], 0, 0);
      assert bytes == [bytes[0]];
    } else if |bytes| == 2 {
      LetterRoundTrip(First(bytes[0]));
      LetterRoundTrip(Second(bytes[0], bytes[1]));
      LetterRoundTrip(Third(bytes[1], 0));
      GroupRoundTrip(bytes[0], bytes[1], 0);
      assert bytes == [bytes[0], bytes[1]];
    }
  }

  lemma {:induction false} DecodeUnpadded(bytes: seq<Byte>)
    requires UrlSafe(Unpadded(bytes))
    ensures Decode(Unpadded(bytes)) == Some(bytes)
  {
    hide Decode;
    hide Unpadded;
    if |bytes| < 3 {
      DecodeEnd(bytes);
    } else {
      DecodeFour(bytes);
      DecodeUnpadded(bytes[3..]);
      assert bytes[..3] + bytes[3..] == bytes;
    }
  }

  // Only setup codes are decoded, each to its own bytes.
  lemma {:induction false} EncodeDecode(code: string)
    requires UrlSafe(code) && Decode(code).Some?
    ensures Encode(Decode(code).value) == code
    decreases |code|
  {
    EncodeUnpadded(Decode(code).value);
    UnpaddedDecode(code);
  }

  lemma {:induction false} ThreeLetters(n0: Sextet, n1: Sextet, n2: Sextet, n3: Sextet)
    ensures var t := Three(n0, n1, n2, n3);
      |t| == 3 && First(t[0]) == n0 && Second(t[0], t[1]) == n1 && Third(t[1], t[2]) == n2 && Fourth(t[2]) == n3
  {
    LettersRoundTrip(n0, n1, n2, n3);
  }

  lemma {:induction false} UnpaddedStep(a: Byte, b: Byte, c: Byte, rest: seq<Byte>)
    ensures Unpadded([a, b, c] + rest) ==
            [UrlLetter(First(a)), UrlLetter(Second(a, b)), UrlLetter(Third(b, c)), UrlLetter(Fourth(c))] +
              Unpadded(rest)
  {
    hide UrlLetter;
    hide First;
    hide Second;
    hide Third;
    hide Fourth;
    assert ([a, b, c] + rest)[3..] == rest;
  }

  // Four positions make three bytes, whose letters are those of the positions.
  lemma {:induction false} FourLetters(n0: Sextet, n1: Sextet, n2: Sextet, n3: Sextet, rest: seq<Byte>)
    ensures Unpadded(Three(n0, n1, n2, n3) + rest) ==
            [UrlLetter(n0), UrlLetter(n1), UrlLetter(n2), UrlLetter(n3)] + Unpadded(rest)
  {
    hide UrlLetter;
    hide Unpadded;
    hide Three;
    hide First;
    hide Second;
    hide Third;
    hide Fourth;
    ThreeLetters(n0, n1, n2, n3);
    var t := Three(n0, n1, n2, n3);
    assert t == [t[0], t[1], t[2]];
    UnpaddedStep(t[0], t[1], t[2], rest);
  }

  lemma {:induction false} UnpaddedFour(code: string)
    requires |code| >= 4 && UrlSafe(code) && Decode(code).Some?
    ensures UrlSafe(code[4..]) && Decode(code[4..]).Some?
    ensures Unpadded(Decode(code).value) == code[..4] + Unpadded(Decode(code[4..]).value)
  {
    hide UrlLetter;
    hide Position;
    hide Three;
    hide Unpadded;
    FourLetters(Position(code[0]).value, Position(code[1]).value, Position(code[2]).value, Position(code[3]).value,
                Decode(code[4..]).value);
    PositionRoundTrip(code[0]);
    PositionRoundTrip(code[1]);
    PositionRoundTrip(code[2]);
    PositionRoundTrip(code[3]);
  }

  lemma {:induction false} UnpaddedEnd(code: string)
    requires |code| < 4 && UrlSafe(code) && Decode(code).Some?
    ensures Unpadded(Decode(code).value) == code
  {
    hide UrlLetter;
    hide Position;
    hide First;
    hide Second;
    hide Third;
    if code != "" {
      PositionRoundTrip(code[0]);
      PositionRoundTrip(code[1]);
      var n0, n1 := Position(code[0]).value, Position(code[1]).value;
      if |code| == 2 {
        LettersRoundTrip(n0, n1, 0, 0);
      } else {
        PositionRoundTrip(code[2]);
        LettersRoundTrip(n0, n1, Position(code[2]).value, 0);
      }
    }
  }

  lemma {:induction false} UnpaddedDecode(code: string)
    requires UrlSafe(code) && Decode(code).Some?
    ensures Unpadded(Decode(code).value) == code
    decreases |code|
  {
    hide Decode;
    hide Unpadded;
    if |code| < 4 {
      UnpaddedEnd(code);
    } else {
      UnpaddedFour(code);
      UnpaddedDecode(code[4..]);
    }
  }

  // ---- The code of section 5 of RFC 4648 ----

  // The letters A to Z, a to z, 0 to 9, - and _ by their character codes.
  lemma {:induction false} UrlAlphabet(n: Sextet)
    ensures UrlLetter(n) as int ==
            if n < 26 then 65 + n else if n < 52 then 97 + (n - 26) else if n < 62 then 48 + (n - 52)
            else if n == 62 then 45 else 95
  {
  }

  // Three bytes and their four letters are the same 24 bits.
  lemma {:induction false} SameBits(a: Byte, b: Byte, c: Byte)
    ensures First(a) * 262_144 + Second(a, b) * 4_096 + Third(b, c) * 64 + Fourth(c) == a * 65_536 + b * 256 + c
  {
  }

  // A group of three bytes is four letters; one or two bytes at the end are followed by zero bits and give two or
  // three letters.
  lemma {:induction false} EncodeGroups(a: Byte, b: Byte, c: Byte, rest: seq<Byte>)
    ensures Encode([]) == ""
    ensures Encode([a]) == [UrlLetter(First(a)), UrlLetter(Second(a, 0))]
    ensures Encode([a, b]) == [UrlLetter(First(a)), UrlLetter(Second(a, b)), UrlLetter(Third(b, 0))]
    ensures Encode([a, b, c] + rest) ==
            [UrlLetter(First(a)), UrlLetter(Second(a, b)), UrlLetter(Third(b, c)), UrlLetter(Fourth(c))] + Encode(rest)
  {
    EncodeUnpadded([]);
    EncodeUnpadded([a]);
    EncodeUnpadded([a, b]);
    EncodeUnpadded(rest);
    EncodeUnpadded([a, b, c] + rest);
    UnpaddedStep(a, b, c, rest);
    hide Encode;
    hide UrlLetter;
  }
}
