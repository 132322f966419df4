/**
 The standard base64 alphabet with mandatory, canonical padding (section 4 of
 RFC 4648), as used for every payload on the wire, and the length arithmetic
 the daemon does on encoded text without decoding it.
 */
module Base64 {
  import opened Wrappers

  function Symbol(i: nat): (c: char)
    requires i < 64
  {
    if i < 26 then (65 + i) as char
    else if i < 52 then (97 + i - 26) as char
    else if i < 62 then (48 + i - 52) as char
    else if i == 62 then '+'
    else '/'
  }

  function SymbolValue(c: char): (v: Option<nat>)
    ensures v.Some? ==> v.value < 64
  {
    if 'A' <= c <= 'Z' then Some(c as int - 65)
    else if 'a' <= c <= 'z' then Some(c as int - 97 + 26)
    else if '0' <= c <= '9' then Some(c as int - 48 + 52)
    else if c == '+' then Some(62)
    else if c == '/' then Some(63)
    else None
  }

  function Encode(b: seq<byte>): (s: string)
  {
    if |b| == 0 then ""
    else if |b| == 1 then [Symbol(b[0] / 4), Symbol(b[0] % 4 * 16), '=', '=']
    else if |b| == 2 then
      [Symbol(b[0] / 4), Symbol(b[0] % 4 * 16 + b[1] / 16), Symbol(b[1] % 16 * 4), '=']
    else
      [Symbol(b[0] / 4), Symbol(b[0] % 4 * 16 + b[1] / 16),
       Symbol(b[1] % 16 * 4 + b[2] / 64), Symbol(b[2] % 64)]
      + Encode(b[3..])
  }

  /** Strict decoding: whole groups only, padding only in the last group, no stray trailing bits. */
  function Decode(s: string): (r: Option<seq<byte>>)
  {
    if s == "" then Some([])
    else if |s| < 4 then None
    else
      var v0, v1, v2, v3 := SymbolValue(s[0]), SymbolValue(s[1]), SymbolValue(s[2]), SymbolValue(s[3]);
      if v0.None? || v1.None? then None
      else if |s| == 4 && s[2] == '=' && s[3] == '=' then
        if v1.value % 16 == 0 then Some([v0.value * 4 + v1.value / 16]) else None
      else if v2.None? then None
      else if |s| == 4 && s[3] == '=' then
        if v2.value % 4 == 0
        then Some([v0.value * 4 + v1.value / 16, v1.value % 16 * 16 + v2.value / 4])
        else None
      else if v3.None? then None
      else
        match Decode(s[4..])
        case None => None
        case Some(rest) =>
          Some([v0.value * 4 + v1.value / 16, v1.value % 16 * 16 + v2.value / 4,
                v2.value % 4 * 64 + v3.value] + rest)
  }

  lemma SymbolRoundTrip(i: nat)
    requires i < 64
    ensures SymbolValue(Symbol(i)) == Some(i)
    ensures Symbol(i) != '='
  {
  }

  lemma ValueRoundTrip(c: char)
    requires SymbolValue(c).Some?
    ensures Symbol(SymbolValue(c).value) == c
  {
  }

  /** Three octets survive being cut into four sextets. */
  lemma OctetsFromSextets(x: byte, y: byte, z: byte)
    ensures var s1, s2 := x % 4 * 16 + y / 16, y % 16 * 4 + z / 64;
            x / 4 * 4 + s1 / 16 == x && s1 % 16 * 16 + s2 / 4 == y && s2 % 4 * 64 + z % 64 == z
  {
    assert (x % 4 * 16 + y / 16) / 16 == x % 4;
    assert (y % 16 * 4 + z / 64) / 4 == y % 16;
  }

  /** Four sextets survive being packed into three octets. */
  lemma SextetsFromOctets(s0: nat, s1: nat, s2: nat, s3: nat)
    requires s0 < 64 && s1 < 64 && s2 < 64 && s3 < 64
    ensures var x, y, z := s0 * 4 + s1 / 16, s1 % 16 * 16 + s2 / 4, s2 % 4 * 64 + s3;
            x < 256 && y < 256 && z < 256 &&
            x / 4 == s0 && x % 4 * 16 + y / 16 == s1 && y % 16 * 4 + z / 64 == s2 && z % 64 == s3
  {
    assert (s0 * 4 + s1 / 16) % 4 == s1 / 16;
    assert (s1 % 16 * 16 + s2 / 4) / 16 == s1 % 16;
    assert (s2 % 4 * 64 + s3) / 64 == s2 % 4;
  }

  /** A full group decodes to the three octets it was cut from. */
  lemma DecodeFullGroup(x: byte, y: byte, z: byte, t: string)
    requires Decode(t).Some?
    ensures Decode([Symbol(x / 4), Symbol(x % 4 * 16 + y / 16), Symbol(y % 16 * 4 + z / 64), Symbol(z % 64)] + t)
            == Some([x, y, z] + Decode(t).value)
  {
    SymbolRoundTrip(x / 4);
    SymbolRoundTrip(x % 4 * 16 + y / 16);
    SymbolRoundTrip(y % 16 * 4 + z / 64);
    SymbolRoundTrip(z % 64);
    OctetsFromSextets(x, y, z);
    hide Symbol, SymbolValue;
    var g := [Symbol(x / 4), Symbol(x % 4 * 16 + y / 16), Symbol(y % 16 * 4 + z / 64), Symbol(z % 64)];
    assert (g + t)[4..] == t;
  }

  lemma DecodeNothing()
    ensures Decode("") == Some([])
  {
  }

  /** A group with one octet and two padding characters. */
  lemma DecodeOneOctet(x: byte)
    ensures Decode([Symbol(x / 4), Symbol(x % 4 * 16), '=', '=']) == Some([x])
  {
    SymbolRoundTrip(x / 4);
    SymbolRoundTrip(x % 4 * 16);
    OctetsFromSextets(x, 0, 0);
    hide Symbol, SymbolValue;
    assert (x % 4 * 16) % 16 == 0;
  }

  /** A group with two octets and one padding character. */
  lemma DecodeTwoOctets(x: byte, y: byte)
    ensures Decode([Symbol(x / 4), Symbol(x % 4 * 16 + y / 16), Symbol(y % 16 * 4), '=']) == Some([x, y])
  {
    SymbolRoundTrip(x / 4);
    SymbolRoundTrip(x % 4 * 16 + y / 16);
    SymbolRoundTrip(y % 16 * 4);
    OctetsFromSextets(x, y, 0);
    hide Symbol, SymbolValue;
    assert (y % 16 * 4) % 4 == 0;
  }

  /** Decoding undoes encoding. */
  lemma {:induction false} DecodeAfterEncode(b: seq<byte>)
    ensures Decode(Encode(b)) == Some(b)
  {
    hide Symbol, SymbolValue, Decode;
    if |b| == 0 {
      DecodeNothing();
    } else if |b| == 1 {
      DecodeOneOctet(b[0]);
      assert b == [b[0]];
    } else if |b| == 2 {
      DecodeTwoOctets(b[0], b[1]);
      assert b == [b[0], b[1]];
    } else {
      DecodeAfterEncode(b[3..]);
      DecodeFullGroup(b[0], b[1], b[2], Encode(b[3..]));
      assert b == [b[0], b[1], b[2]] + b[3..];
    }
  }

  /** A full group of four symbols packs into three octets that encode back to the same symbols. */
  lemma FullGroup(s: string, rest: seq<byte>)
    requires |s| >= 4
    requires forall i :: 0 <= i < 4 ==> SymbolValue(s[i]).Some?
    ensures var v0, v1, v2, v3 := SymbolValue(s[0]).value, SymbolValue(s[1]).value,
                                  SymbolValue(s[2]).value, SymbolValue(s[3]).value;
            Encode([v0 * 4 + v1 / 16, v1 % 16 * 16 + v2 / 4, v2 % 4 * 64 + v3] + rest)
            == s[..4] + Encode(rest)
  {
    var v0, v1, v2, v3 := SymbolValue(s[0]).value, SymbolValue(s[1]).value,
                          SymbolValue(s[2]).value, SymbolValue(s[3]).value;
    ValueRoundTrip(s[0]);
    ValueRoundTrip(s[1]);
    ValueRoundTrip(s[2]);
    ValueRoundTrip(s[3]);
    SextetsFromOctets(v0, v1, v2, v3);
    hide Symbol, SymbolValue, Decode;
    var x, y, z := v0 * 4 + v1 / 16, v1 % 16 * 16 + v2 / 4, v2 % 4 * 64 + v3;
    assert ([x, y, z] + rest)[3..] == rest;
    assert s[..4] == [s[0], s[1], s[2], s[3]];
  }

  /** A last group with two padding characters encodes back to itself. */
  lemma PaddedGroupOfOne(s: string)
    requires |s| == 4 && s[2] == '=' && s[3] == '=' && Decode(s).Some?
    ensures Encode(Decode(s).value) == s
  {
    ValueRoundTrip(s[0]);
    ValueRoundTrip(s[1]);
    SextetsFromOctets(SymbolValue(s[0]).value, SymbolValue(s[1]).value, 0, 0);
    hide Symbol, SymbolValue;
    assert s == [s[0], s[1], '=', '='];
  }

  lemma DecodeOnePadding(s: string)
    requires |s| == 4 && s[2] != '=' && s[3] == '=' && Decode(s).Some?
    ensures forall i :: 0 <= i < 3 ==> SymbolValue(s[i]).Some?
    ensures var v0, v1, v2 := SymbolValue(s[0]).value, SymbolValue(s[1]).value, SymbolValue(s[2]).value;
            v2 % 4 == 0 && Decode(s) == Some([v0 * 4 + v1 / 16, v1 % 16 * 16 + v2 / 4])
  {
    hide Symbol, SymbolValue;
  }

  lemma EncodeTwoOctets(x: byte, y: byte)
    ensures Encode([x, y]) == [Symbol(x / 4), Symbol(x % 4 * 16 + y / 16), Symbol(y % 16 * 4), '=']
  {
    hide Symbol;
  }

  /** A last group with one padding character encodes back to itself. */
  lemma PaddedGroupOfTwo(s: string)
    requires |s| == 4 && s[2] != '=' && s[3] == '=' && Decode(s).Some?
    ensures Encode(Decode(s).value) == s
  {
    hide Symbol, SymbolValue, Decode, Encode;
    DecodeOnePadding(s);
    ValueRoundTrip(s[0]);
    ValueRoundTrip(s[1]);
    ValueRoundTrip(s[2]);
    var v0, v1, v2 := SymbolValue(s[0]).value, SymbolValue(s[1]).value, SymbolValue(s[2]).value;
    SextetsFromOctets(v0, v1, v2, 0);
    EncodeTwoOctets(v0 * 4 + v1 / 16, v1 % 16 * 16 + v2 / 4);
    assert s == [s[0], s[1], s[2], '='];
  }

  /** Encoding undoes decoding: no two texts decode to the same bytes. */
  lemma {:induction false} EncodeAfterDecode(s: string)
    requires Decode(s).Some?
    ensures Encode(Decode(s).value) == s
  {
    if s == "" {
    } else if |s| == 4 && s[3] == '=' {
      if s[2] == '=' {
        PaddedGroupOfOne(s);
      } else {
        PaddedGroupOfTwo(s);
      }
    } else {
      hide Symbol, SymbolValue, Encode;
      EncodeAfterDecode(s[4..]);
      FullGroup(s, Decode(s[4..]).value);
      assert s == s[..4] + s[4..];
    }
  }

  /** Length of the encoding of `n` bytes: three bytes in, four characters out, rounded up. */
  function EncodedLen(n: nat): nat {
    (n + 2) / 3 * 4
  }

  lemma {:induction false} EncodeLength(b: seq<byte>)
    ensures |Encode(b)| == EncodedLen(|b|)
  {
    if |b| > 2 {
      EncodeLength(b[3..]);
    }
  }

  /** How many `=` characters end the text. */
  function TrailingPad(s: string): (n: nat)
    ensures n <= |s|
  {
    if s == "" || s[|s| - 1] != '=' then 0 else 1 + TrailingPad(s[..|s| - 1])
  }

  /** The length arithmetic of `decoded_len`; negative exactly where the source's subtraction underflows. */
  function DecodedLen(s: string): int {
    if |s| == 0 then 0 else |s| / 4 * 3 - TrailingPad(s)
  }

  /** What the last three characters of a text say about the length it encodes. */
  ghost predicate EndsLike(s: string, n: nat) {
    && |s| >= 4
    && s[|s| - 3] != '='
    && (s[|s| - 2] == '=' <==> n % 3 == 1)
    && (s[|s| - 1] == '=' <==> n % 3 != 0)
  }

  lemma OnlyGroup(x: byte, y: byte, z: byte)
    ensures EndsLike(Encode([x]), 1) && EndsLike(Encode([x, y]), 2) && EndsLike(Encode([x, y, z]), 3)
  {
    hide EndsLike, Symbol;
    var a, c, d := x % 4 * 16 + y / 16, y % 16 * 4 + z / 64, z % 64;
    SymbolRoundTrip(x % 4 * 16);
    SymbolRoundTrip(a);
    SymbolRoundTrip(y % 16 * 4);
    SymbolRoundTrip(c);
    SymbolRoundTrip(d);
    EndsLikeGroup(Symbol(x / 4), Symbol(x % 4 * 16), '=', '=', 1);
    EndsLikeGroup(Symbol(x / 4), Symbol(a), Symbol(y % 16 * 4), '=', 2);
    EndsLikeGroup(Symbol(x / 4), Symbol(a), Symbol(c), Symbol(d), 3);
    assert [x, y, z][3..] == [];
    assert [Symbol(x / 4), Symbol(a), Symbol(c), Symbol(d)] + "" == [Symbol(x / 4), Symbol(a), Symbol(c), Symbol(d)];
  }

  lemma EndsLikeGroup(a: char, b: char, c: char, d: char, n: nat)
    requires b != '='
    requires c == '=' <==> n % 3 == 1
    requires d == '=' <==> n % 3 != 0
    ensures EndsLike([a, b, c, d], n)
  {
  }

  lemma {:induction false} LastGroup(b: seq<byte>)
    requires b != []
    ensures EndsLike(Encode(b), |b|)
  {
    hide Symbol;
    if |b| == 1 {
      OnlyGroup(b[0], 0, 0);
      assert b == [b[0]];
    } else if |b| == 2 {
      OnlyGroup(b[0], b[1], 0);
      assert b == [b[0], b[1]];
    } else if |b| == 3 {
      OnlyGroup(b[0], b[1], b[2]);
      assert b == [b[0], b[1], b[2]];
    } else {
      LastGroup(b[3..]);
      assert |b| % 3 == |b[3..]| % 3;
      var s, t := Encode(b), Encode(b[3..]);
      assert s[4..] == t;
    }
  }

  /** At most two padding characters: the count is read off the last three characters. */
  lemma TrailingPadOf(s: string)
    requires |s| >= 3 && s[|s| - 3] != '=' && (s[|s| - 2] == '=' ==> s[|s| - 1] == '=')
    ensures TrailingPad(s) == if s[|s| - 2] == '=' then 2 else if s[|s| - 1] == '=' then 1 else 0
  {
    var t := s[..|s| - 1];
    var u := t[..|t| - 1];
    assert TrailingPad(u) == 0;
    assert TrailingPad(t) == if s[|s| - 2] == '=' then 1 else 0;
  }

  /** On every text the encoder produces, the length arithmetic is exact. */
  lemma DecodedLenOfEncode(b: seq<byte>)
    ensures DecodedLen(Encode(b)) == |b|
  {
    hide Encode, TrailingPad;
    EncodeLength(b);
    if b != [] {
      LastGroup(b);
      TrailingPadOf(Encode(b));
      PaddedLength(|b|);
    }
  }

  lemma PaddedLength(n: nat)
    requires n > 0
    ensures EncodedLen(n) / 4 * 3 - (if n % 3 == 1 then 2 else if n % 3 == 2 then 1 else 0) == n
  {
  }

  /** On every text the decoder accepts, the length arithmetic is exact. */
  lemma DecodedLenExact(s: string)
    requires Decode(s).Some?
    ensures DecodedLen(s) == |Decode(s).value|
  {
    EncodeAfterDecode(s);
    DecodedLenOfEncode(Decode(s).value);
  }

  /** The last `k` characters are all padding. */
  predicate PadTail(s: string, k: nat)
    requires k <= |s|
  {
    forall i :: |s| - k <= i < |s| ==> s[i] == '='
  }

  lemma {:induction false} TrailingPadAtLeast(s: string, k: nat)
    requires k <= |s|
    ensures TrailingPad(s) >= k <==> PadTail(s, k)
  {
    if k > 0 {
      var t := s[..|s| - 1];
      TrailingPadAtLeast(t, k - 1);
      if PadTail(s, k) {
        forall i | |t| - (k - 1) <= i < |t| ensures t[i] == '=' {
          assert s[i] == '=';
        }
      } else if s[|s| - 1] == '=' && PadTail(t, k - 1) {
        forall i | |s| - k <= i < |s| ensures s[i] == '=' {
          assert i < |t| ==> s[i] == t[i];
        }
      }
    }
  }

  /**
   For any text at all, the length arithmetic goes below zero exactly when the text is not empty
   and more than three quarters of it, counted in whole groups of four, is padding at its end.
   No text the decoder accepts is like that; `====` is.
   */
  lemma DecodedLenUnderflowsIff(s: string)
    ensures DecodedLen(s) < 0 <==> s != "" && PadTail(s, |s| / 4 * 3 + 1)
    ensures DecodedLen(s) < 0 ==> Decode(s).None?
    ensures DecodedLen("====") == -1
  {
    if s != "" {
      TrailingPadAtLeast(s, |s| / 4 * 3 + 1);
    }
    if Decode(s).Some? {
      DecodedLenExact(s);
    }
    hide Decode, TrailingPad;
    FourPads();
  }

  lemma FourPads()
    ensures DecodedLen("====") == -1
  {
    TrailingPadAtLeast("====", 4);
    hide TrailingPad;
  }

  // The encoding as the standard draws it.

  /** Table 1 of section 4 of RFC 4648, by its four parts. */
  const UPPER: string := "ABCDEFGHIJKLMNOPQRSTUVWXYZ"
  const LOWER: string := "abcdefghijklmnopqrstuvwxyz"
  const DIGITS: string := "0123456789"
  const ALPHABET: string := UPPER + LOWER + DIGITS + "+/"

  lemma UpperAre(i: nat)
    requires i < 26
    ensures Symbol(i) == UPPER[i] && SymbolValue(UPPER[i]) == Some(i)
  {
    assert UPPER[0] == 'A' && UPPER[1] == 'B' && UPPER[2] == 'C' && UPPER[3] == 'D' && UPPER[4] == 'E' && UPPER[5] == 'F' && UPPER[6] == 'G'
           && UPPER[7] == 'H' && UPPER[8] == 'I' && UPPER[9] == 'J' && UPPER[10] == 'K' && UPPER[11] == 'L' && UPPER[12] == 'M' && UPPER[13] == 'N'
           && UPPER[14] == 'O' && UPPER[15] == 'P' && UPPER[16] == 'Q' && UPPER[17] == 'R' && UPPER[18] == 'S' && UPPER[19] == 'T' && UPPER[20] == 'U'
           && UPPER[21] == 'V' && UPPER[22] == 'W' && UPPER[23] == 'X' && UPPER[24] == 'Y' && UPPER[25] == 'Z';
    assert i == 0 || i == 1 || i == 2 || i == 3 || i == 4 || i == 5 || i == 6 || i == 7 || i == 8 || i == 9 || i == 10 || i == 11 || i == 12
           || i == 13 || i == 14 || i == 15 || i == 16 || i == 17 || i == 18 || i == 19 || i == 20 || i == 21 || i == 22 || i == 23 || i == 24 || i == 25;
  }

  lemma LowerAre(i: nat)
    requires i < 26
    ensures Symbol(26 + i) == LOWER[i] && SymbolValue(LOWER[i]) == Some(26 + i)
  {
    assert LOWER[0] == 'a' && LOWER[1] == 'b' && LOWER[2] == 'c' && LOWER[3] == 'd' && LOWER[4] == 'e' && LOWER[5] == 'f' && LOWER[6] == 'g'
           && LOWER[7] == 'h' && LOWER[8] == 'i' && LOWER[9] == 'j' && LOWER[10] == 'k' && LOWER[11] == 'l' && LOWER[12] == 'm' && LOWER[13] == 'n'
           && LOWER[14] == 'o' && LOWER[15] == 'p' && LOWER[16] == 'q' && LOWER[17] == 'r' && LOWER[18] == 's' && LOWER[19] == 't' && LOWER[20] == 'u'
           && LOWER[21] == 'v' && LOWER[22] == 'w' && LOWER[23] == 'x' && LOWER[24] == 'y' && LOWER[25] == 'z';
    assert i == 0 || i == 1 || i == 2 || i == 3 || i == 4 || i == 5 || i == 6 || i == 7 || i == 8 || i == 9 || i == 10 || i == 11 || i == 12
           || i == 13 || i == 14 || i == 15 || i == 16 || i == 17 || i == 18 || i == 19 || i == 20 || i == 21 || i == 22 || i == 23 || i == 24 || i == 25;
  }

  lemma DigitsAre(i: nat)
    requires i < 10
    ensures Symbol(52 + i) == DIGITS[i] && SymbolValue(DIGITS[i]) == Some(52 + i)
  {
    assert DIGITS[0] == '0' && DIGITS[1] == '1' && DIGITS[2] == '2' && DIGITS[3] == '3' && DIGITS[4] == '4' && DIGITS[5] == '5' && DIGITS[6] == '6'
           && DIGITS[7] == '7' && DIGITS[8] == '8' && DIGITS[9] == '9';
    assert i == 0 || i == 1 || i == 2 || i == 3 || i == 4 || i == 5 || i == 6 || i == 7 || i == 8 || i == 9;
  }

  lemma SymbolsAre(i: nat)
    requires i < 64
    ensures |ALPHABET| == 64 && Symbol(i) == ALPHABET[i] && SymbolValue(ALPHABET[i]) == Some(i)
  {
    if i < 26 {
      UpperAre(i);
    } else if i < 52 {
      LowerAre(i - 26);
    } else if i < 62 {
      DigitsAre(i - 52);
    }
  }

  /** A text's octets, with zeros after its end. */
  function Octet(b: seq<byte>, i: nat): nat {
    if i < |b| then b[i] as nat else 0
  }

  /** The `g`-th group of three octets as a 24-bit number, first octet most significant. */
  function GroupBits(b: seq<byte>, g: nat): nat {
    Octet(b, 3 * g) * 0x1_0000 + Octet(b, 3 * g + 1) * 0x100 + Octet(b, 3 * g + 2)
  }

  /** The k-th six bits of the input. */
  function Sextet(b: seq<byte>, k: nat): (n: nat)
    ensures n < 64
  {
    var bits := GroupBits(b, k / 4);
    match k % 4
    case 0 => bits / 0x4_0000 % 64
    case 1 => bits / 0x1000 % 64
    case 2 => bits / 64 % 64
    case _ => bits % 64
  }

  /** The k-th character of the encoding: six bits of the input from the alphabet, or padding where no bit of it is left. */
  function StandardChar(b: seq<byte>, k: nat): char {
    if 6 * k < 8 * |b| then ALPHABET[Sextet(b, k)] else '='
  }

  /** The six-bit pieces of three octets. */
  lemma FirstSextets(x: nat, y: nat, z: nat)
    requires x < 256 && y < 256 && z < 256
    ensures var bits := x * 0x1_0000 + y * 0x100 + z;
            && bits / 0x4_0000 % 64 == x / 4 && bits / 0x1000 % 64 == x % 4 * 16 + y / 16
            && bits / 64 % 64 == y % 16 * 4 + z / 64 && bits % 64 == z % 64
  {
    var bits := x * 0x1_0000 + y * 0x100 + z;
    Eighteen(bits, x / 4, x % 4 * 0x1_0000 + y * 0x100 + z);
    Twelve(bits, x * 16 + y / 16, y % 16 * 0x100 + z);
    Six(x * 16 + y / 16, x / 4, x % 4 * 16 + y / 16);
    Six(bits, x * 1024 + y * 4 + z / 64, z % 64);
    Six(x * 1024 + y * 4 + z / 64, x * 16 + y / 16, y % 16 * 4 + z / 64);
  }

  lemma Eighteen(n: nat, q: nat, r: nat)
    requires n == q * 0x4_0000 + r && r < 0x4_0000
    ensures n / 0x4_0000 == q
  {
  }

  lemma Twelve(n: nat, q: nat, r: nat)
    requires n == q * 0x1000 + r && r < 0x1000
    ensures n / 0x1000 == q
  {
  }

  lemma Six(n: nat, q: nat, r: nat)
    requires n == q * 64 + r && r < 64
    ensures n / 64 == q && n % 64 == r
  {
  }

  lemma FirstFour(b: seq<byte>)
    ensures Sextet(b, 0) == Octet(b, 0) / 4 && Sextet(b, 1) == Octet(b, 0) % 4 * 16 + Octet(b, 1) / 16
    ensures Sextet(b, 2) == Octet(b, 1) % 16 * 4 + Octet(b, 2) / 64 && Sextet(b, 3) == Octet(b, 2) % 64
  {
    FirstSextets(Octet(b, 0), Octet(b, 1), Octet(b, 2));
    hide Octet;
  }

  /** The symbols of the first group, of which the last may be padding. */
  lemma FirstGroup(b: seq<byte>, k: nat)
    requires b != [] && k < 4
    ensures |Encode(b)| >= 4
    ensures Encode(b)[k] == if 6 * k < 8 * |b| then Symbol(Sextet(b, k)) else '='
  {
    FirstFour(b);
    hide Symbol, Sextet;
    if |b| == 2 {
      assert Encode(b)[2] == Symbol(Sextet(b, 2));
    }
  }

  lemma LaterSextet(b: seq<byte>, k: nat)
    requires |b| >= 3 && k >= 4
    ensures Sextet(b, k) == Sextet(b[3..], k - 4)
  {
    assert k / 4 == (k - 4) / 4 + 1 && k % 4 == (k - 4) % 4;
    var g := (k - 4) / 4;
    assert Octet(b, 3 * g + 3) == Octet(b[3..], 3 * g);
    assert Octet(b, 3 * g + 4) == Octet(b[3..], 3 * g + 1);
    assert Octet(b, 3 * g + 5) == Octet(b[3..], 3 * g + 2);
  }

  /** The encoding of any input is the standard's, character by character. */
  lemma {:induction false} EncodeIsStandard(b: seq<byte>, k: nat)
    requires k < |Encode(b)|
    ensures |Encode(b)| == (|b| + 2) / 3 * 4 && Encode(b)[k] == StandardChar(b, k)
  {
    EncodeLength(b);
    if k < 4 {
      FirstGroup(b, k);
      SymbolsAre(Sextet(b, k));
      hide Symbol, Sextet, Encode;
    } else {
      EncodeIsStandard(b[3..], k - 4);
      LaterSextet(b, k);
      hide Symbol, Sextet;
    }
  }
}
