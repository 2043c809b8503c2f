/**
 The version-4 UUID printer of the agent and the checker of agent and server
 (section 5.4 of RFC 9562). Masks are written as arithmetic: `b & 0x0f` is `b % 16`,
 `b >> 4` is `b / 16`, and so on.
 */
module Uuid {
  import opened Prelude

  type Byte = b: int | 0 <= b < 256

  // ---------------------------------------------------------------------
  // encoding/hex and strings.ReplaceAll
  // ---------------------------------------------------------------------

  function HexDigit(n: int): char
    requires 0 <= n < 16
  {
    if n < 10 then '0' + n as char else 'a' + (n - 10) as char
  }

  /** The value of a hexadecimal digit of either case, or -1. */
  function HexValue(c: char): (n: int)
    ensures -1 <= n < 16
  {
    if '0' <= c <= '9' then (c - '0') as int
    else if 'a' <= c <= 'f' then (c - 'a') as int + 10
    else if 'A' <= c <= 'F' then (c - 'A') as int + 10
    else -1
  }

  function Encode(raw: seq<Byte>): string {
    if raw == [] then "" else [HexDigit(raw[0] / 16), HexDigit(raw[0] % 16)] + Encode(raw[1..])
  }

  /** hex.DecodeString: an odd length or a character that is no digit is an error. */
  function Decode(s: string): Option<seq<Byte>> {
    if s == "" then Some([])
    else if |s| == 1 || HexValue(s[0]) < 0 || HexValue(s[1]) < 0 then None
    else
      match Decode(s[2..])
      case None => None
      case Some(rest) => Some([HexValue(s[0]) * 16 + HexValue(s[1])] + rest)
  }

  function StripDashes(s: string): string {
    if s == "" then "" else (if s[0] == '-' then "" else [s[0]]) + StripDashes(s[1..])
  }

  function LowerChar(c: char): char {
    if 'A' <= c <= 'Z' then c - 'A' + 'a' else c
  }

  /** A text with the case of its ASCII letters ignored. */
  function Lower(s: string): string {
    seq(|s|, i requires 0 <= i < |s| => LowerChar(s[i]))
  }

  // ---------------------------------------------------------------------
  // The printer and the checker
  // ---------------------------------------------------------------------

  predicate Version4(raw: seq<Byte>) {
    |raw| == 16 && raw[6] / 16 == 4 && raw[8] / 64 == 2
  }

  function SetVersion(raw: seq<Byte>): (r: seq<Byte>)
    requires |raw| == 16
    ensures Version4(r)
  {
    raw[6 := raw[6] % 16 + 0x40][8 := raw[8] % 64 + 0x80]
  }

  function Format(hex: string): string
    requires |hex| == 32
  {
    hex[0..8] + "-" + hex[8..12] + "-" + hex[12..16] + "-" + hex[16..20] + "-" + hex[20..32]
  }

  predicate DashesInPlace(s: string) {
    |s| == 36 && s[8] == '-' && s[13] == '-' && s[18] == '-' && s[23] == '-'
  }

  predicate ValidUuidV4(s: string) {
    && DashesInPlace(s)
    && Decode(StripDashes(s)).Some?
    && Version4(Decode(StripDashes(s)).value)
  }

  /** The 128-bit value that a uuid column stores for an accepted text. */
  function Parse(s: string): seq<Byte>
    requires ValidUuidV4(s)
  {
    Decode(StripDashes(s)).value
  }

  /** newUUIDv4 over the bytes the random source delivered. */
  method NewUuidV4(random: seq<Byte>) returns (id: string)
    requires |random| == 16
    ensures ValidUuidV4(id) && Parse(id) == SetVersion(random) && Lower(id) == id
    ensures id == Printed(random)
  {
    var raw := new Byte[16](i requires 0 <= i < 16 => random[i]);
    raw[6] := raw[6] % 16 + 0x40;
    raw[8] := raw[8] % 64 + 0x80;
    assert raw[..] == SetVersion(random);
    var hex := Encode(raw[..]);
    EncodeLength(raw[..]);
    PrintedIsValid(raw[..]);
    id := hex[0..8] + "-" + hex[8..12] + "-" + hex[12..16] + "-" + hex[16..20] + "-" + hex[20..32];
  }

  // ---------------------------------------------------------------------
  // hex round trips
  // ---------------------------------------------------------------------

  lemma {:induction false} EncodeLength(raw: seq<Byte>)
    ensures |Encode(raw)| == 2 * |raw|
  {
    if raw != [] { EncodeLength(raw[1..]); }
  }

  lemma {:induction false} DecodeEncode(raw: seq<Byte>)
    ensures Decode(Encode(raw)) == Some(raw)
  {
    if raw != [] {
      DecodeEncode(raw[1..]);
      assert Encode(raw)[2..] == Encode(raw[1..]);
      assert raw == [raw[0]] + raw[1..];
    }
  }

  lemma DigitOfValue(c: char)
    requires HexValue(c) >= 0
    ensures HexDigit(HexValue(c)) == LowerChar(c)
  {
  }

  lemma {:induction false} EncodeDecode(s: string)
    requires Decode(s).Some?
    ensures Encode(Decode(s).value) == Lower(s) && |s| == 2 * |Decode(s).value|
  {
    if s != "" {
      EncodeDecode(s[2..]);
      var raw := Decode(s).value;
      assert raw[1..] == Decode(s[2..]).value;
      assert raw[0] / 16 == HexValue(s[0]) && raw[0] % 16 == HexValue(s[1]);
      DigitOfValue(s[0]);
      DigitOfValue(s[1]);
      assert Lower(s) == [LowerChar(s[0]), LowerChar(s[1])] + Lower(s[2..]);
    }
  }

  lemma {:induction false} DecodeIgnoresCase(s: string)
    ensures Decode(Lower(s)) == Decode(s)
  {
    if |s| >= 2 {
      DecodeIgnoresCase(s[2..]);
      assert Lower(s)[2..] == Lower(s[2..]);
    }
  }

  // ---------------------------------------------------------------------
  // Counting dashes
  // ---------------------------------------------------------------------

  lemma Assoc(x: string, y: string, z: string)
    ensures (x + y) + z == x + (y + z)
  {
  }

  lemma {:induction false} StripConcat(a: string, b: string)
    ensures StripDashes(a + b) == StripDashes(a) + StripDashes(b)
  {
    if a == "" {
      assert a + b == b;
    } else {
      var head := if a[0] == '-' then "" else [a[0]];
      assert (a + b)[0] == a[0] && (a + b)[1..] == a[1..] + b;
      StripConcat(a[1..], b);
      Assoc(head, StripDashes(a[1..]), StripDashes(b));
    }
  }

  lemma StripDash()
    ensures StripDashes("-") == ""
  {
    assert "-"[1..] == "";
  }

  /** Removing dashes shortens a text unless it has none. */
  lemma {:induction false} StripLength(s: string)
    ensures |StripDashes(s)| <= |s|
    ensures |StripDashes(s)| == |s| ==> StripDashes(s) == s
  {
    if s != "" { StripLength(s[1..]); }
  }

  lemma {:induction false} StripIgnoresCase(s: string)
    ensures StripDashes(Lower(s)) == Lower(StripDashes(s))
  {
    if s != "" {
      StripIgnoresCase(s[1..]);
      assert Lower(s)[1..] == Lower(s[1..]);
      assert Lower([s[0]] + StripDashes(s[1..])) == [LowerChar(s[0])] + Lower(StripDashes(s[1..]));
    }
  }

  lemma StripJoin(a: string, b: string)
    ensures StripDashes(a + "-" + b) == StripDashes(a) + StripDashes(b)
  {
    var dash := "-";
    StripConcat(a + dash, b);
    StripConcat(a, dash);
    StripDash();
    assert StripDashes(a) + "" == StripDashes(a);
  }

  lemma StripFive(a: string, b: string, c: string, d: string, e: string)
    ensures StripDashes(a + "-" + b + "-" + c + "-" + d + "-" + e)
         == StripDashes(a) + StripDashes(b) + StripDashes(c) + StripDashes(d) + StripDashes(e)
  {
    StripJoin(a + "-" + b + "-" + c + "-" + d, e);
    StripJoin(a + "-" + b + "-" + c, d);
    StripJoin(a + "-" + b, c);
    StripJoin(a, b);
  }

  lemma Groups(s: string)
    requires DashesInPlace(s)
    ensures s == s[0..8] + "-" + s[9..13] + "-" + s[14..18] + "-" + s[19..23] + "-" + s[24..36]
  {
  }

  lemma FormatGroups(a: string, b: string, c: string, d: string, e: string)
    requires |a| == 8 && |b| == 4 && |c| == 4 && |d| == 4 && |e| == 12
    ensures Format(a + b + c + d + e) == a + "-" + b + "-" + c + "-" + d + "-" + e
  {
    var hex := a + b + c + d + e;
    assert hex[0..8] == a && hex[8..12] == b && hex[12..16] == c && hex[16..20] == d && hex[20..32] == e;
  }

  /** With dashes in the four places and 32 characters left, nothing else was a dash. */
  lemma OnlyFourDashes(s: string)
    requires DashesInPlace(s) && |StripDashes(s)| == 32
    ensures Format(StripDashes(s)) == s
  {
    var a, b, c, d, e := s[0..8], s[9..13], s[14..18], s[19..23], s[24..36];
    Groups(s);
    StripFive(a, b, c, d, e);
    StripLength(a); StripLength(b); StripLength(c); StripLength(d); StripLength(e);
    FormatGroups(a, b, c, d, e);
  }

  /** The printed form of 32 dash-free characters loses exactly its four dashes. */
  lemma StripFormat(hex: string)
    requires |hex| == 32 && forall i :: 0 <= i < 32 ==> hex[i] != '-'
    ensures DashesInPlace(Format(hex)) && StripDashes(Format(hex)) == hex
  {
    StripFive(hex[0..8], hex[8..12], hex[12..16], hex[16..20], hex[20..32]);
    NoDashes(hex[0..8]); NoDashes(hex[8..12]); NoDashes(hex[12..16]); NoDashes(hex[16..20]); NoDashes(hex[20..32]);
  }

  lemma {:induction false} NoDashes(s: string)
    requires forall i :: 0 <= i < |s| ==> s[i] != '-'
    ensures StripDashes(s) == s
  {
    if s != "" { NoDashes(s[1..]); }
  }

  lemma {:induction false} EncodeIsPlain(raw: seq<Byte>)
    ensures forall i :: 0 <= i < |Encode(raw)| ==> Encode(raw)[i] != '-' && LowerChar(Encode(raw)[i]) == Encode(raw)[i]
  {
    if raw != [] { EncodeIsPlain(raw[1..]); }
  }

  // ---------------------------------------------------------------------
  // Printer and checker undo each other
  // ---------------------------------------------------------------------

  /** Every printed version-4 value is accepted and reads back as itself. */
  lemma PrintedIsValid(raw: seq<Byte>)
    requires Version4(raw)
    ensures |Encode(raw)| == 32
    ensures ValidUuidV4(Format(Encode(raw))) && Parse(Format(Encode(raw))) == raw
    ensures Lower(Format(Encode(raw))) == Format(Encode(raw))
  {
    EncodeLength(raw);
    EncodeIsPlain(raw);
    StripFormat(Encode(raw));
    DecodeEncode(raw);
  }

  lemma LowerFormat(hex: string)
    requires |hex| == 32
    ensures Lower(Format(hex)) == Format(Lower(hex))
  {
  }

  lemma AcceptedIsPrinted(s: string)
    requires ValidUuidV4(s)
    ensures Version4(Parse(s)) && |Encode(Parse(s))| == 32 && Lower(s) == Format(Encode(Parse(s)))
  {
    var hex := StripDashes(s);
    EncodeDecode(hex);
    OnlyFourDashes(s);
    LowerFormat(hex);
  }

  /** `s` is, ignoring case, the printed form of `raw`. */
  predicate Prints(s: string, raw: seq<Byte>) {
    Version4(raw) && |Encode(raw)| == 32 && Lower(s) == Format(Encode(raw))
  }

  lemma PrintedIsAccepted(s: string, raw: seq<Byte>)
    requires Prints(s, raw)
    ensures ValidUuidV4(s) && Parse(s) == raw
  {
    PrintedIsValid(raw);
    assert |Lower(s)| == |s| && forall i :: 0 <= i < |s| ==> Lower(s)[i] == LowerChar(s[i]);
    StripIgnoresCase(s);
    DecodeIgnoresCase(StripDashes(s));
  }

  /** A text is accepted exactly when it is, ignoring case, the printed form of some version-4 value. */
  lemma AcceptedIffPrinted(s: string)
    ensures ValidUuidV4(s) <==> exists raw :: Prints(s, raw)
  {
    if ValidUuidV4(s) {
      AcceptedIsPrinted(s);
      assert Prints(s, Parse(s));
    }
    if raw :| Prints(s, raw) {
      PrintedIsAccepted(s, raw);
    }
  }

  /** Two accepted texts denote the same value exactly when they differ at most in case. */
  lemma SameValueIffSameText(s: string, s': string)
    requires ValidUuidV4(s) && ValidUuidV4(s')
    ensures Parse(s) == Parse(s') <==> Lower(s) == Lower(s')
  {
    AcceptedIsPrinted(s);
    AcceptedIsPrinted(s');
    if Lower(s) == Lower(s') {
      PrintedIsAccepted(s, Parse(s'));
    }
  }

  // ---------------------------------------------------------------------
  // Which text is printed
  // ---------------------------------------------------------------------

  /** Only the four version bits of byte 6 and the two variant bits of byte 8 are not the random ones. */
  lemma RandomBitsStay(random: seq<Byte>)
    requires |random| == 16
    ensures var r := SetVersion(random);
            && |r| == 16 && (forall i :: 0 <= i < 16 && i != 6 && i != 8 ==> r[i] == random[i])
            && r[6] == 0x40 + random[6] % 16 && r[8] == 0x80 + random[8] % 64
  {
  }

  /** The same 122 bits: all but four of byte 6 and two of byte 8. */
  ghost predicate SameRandomBits(a: seq<Byte>, b: seq<Byte>)
    requires |a| == |b| == 16
  {
    (forall i :: 0 <= i < 16 && i != 6 && i != 8 ==> a[i] == b[i]) && a[6] % 16 == b[6] % 16 && a[8] % 64 == b[8] % 64
  }

  function Printed(random: seq<Byte>): string
    requires |random| == 16
  {
    EncodeLength(SetVersion(random));
    Format(Encode(SetVersion(random)))
  }

  /** Two printed identifiers are equal exactly when their 122 random bits are. */
  lemma PrintedEqualIff(a: seq<Byte>, b: seq<Byte>)
    requires |a| == |b| == 16
    ensures Printed(a) == Printed(b) <==> SameRandomBits(a, b)
  {
    RandomBitsStay(a);
    RandomBitsStay(b);
    PrintedIsValid(SetVersion(a));
    PrintedIsValid(SetVersion(b));
    if SameRandomBits(a, b) { assert SetVersion(a) == SetVersion(b); }
  }

  const DIGITS := "0123456789abcdef"

  lemma DigitsAreLiteral(n: int)
    requires 0 <= n < 16
    ensures HexDigit(n) == DIGITS[n]
  {
  }

  lemma {:induction false} EncodeAt(raw: seq<Byte>, k: nat)
    requires k < |raw|
    ensures |Encode(raw)| == 2 * |raw|
    ensures Encode(raw)[2 * k] == DIGITS[raw[k] / 16] && Encode(raw)[2 * k + 1] == DIGITS[raw[k] % 16]
  {
    EncodeLength(raw);
    if k == 0 {
      DigitsAreLiteral(raw[0] / 16);
      DigitsAreLiteral(raw[0] % 16);
    } else {
      EncodeAt(raw[1..], k - 1);
    }
  }

  /** The dashes before the digits of byte `k`. */
  function DashesBefore(k: nat): nat {
    (if k >= 4 then 1 else 0) + (if k >= 6 then 1 else 0) + (if k >= 8 then 1 else 0) + (if k >= 10 then 1 else 0)
  }

  /** The text is 36 characters: dashes at four places, and two lower-case digits of every byte in order. */
  lemma PrintedLayout(raw: seq<Byte>, k: nat)
    requires |raw| == 16 && k < 16
    ensures |Encode(raw)| == 32
    ensures var s, at := Format(Encode(raw)), 2 * k + DashesBefore(k);
            && |s| == 36 && s[8] == s[13] == s[18] == s[23] == '-'
            && s[at] == DIGITS[raw[k] / 16] && s[at + 1] == DIGITS[raw[k] % 16]
  {
    hide Encode;
    EncodeAt(raw, k);
  }

  // ---------------------------------------------------------------------
  // Which text is accepted
  // ---------------------------------------------------------------------

  predicate IsHex(c: char) {
    '0' <= c <= '9' || 'a' <= c <= 'f' || 'A' <= c <= 'F'
  }

  predicate AllHex(s: string) {
    forall i :: 0 <= i < |s| ==> IsHex(s[i])
  }

  lemma {:induction false} DecodesIff(s: string)
    ensures Decode(s).Some? <==> |s| % 2 == 0 && AllHex(s)
    ensures Decode(s).Some? ==> 2 * |Decode(s).value| == |s|
  {
    if |s| > 1 { DecodesIff(s[2..]); }
  }

  lemma {:induction false} DecodedAt(s: string, k: nat)
    requires Decode(s).Some? && 2 * k + 1 < |s|
    ensures |Decode(s).value| > k && Decode(s).value[k] == 16 * HexValue(s[2 * k]) + HexValue(s[2 * k + 1])
  {
    DecodesIff(s);
    if k > 0 { DecodedAt(s[2..], k - 1); }
  }

  /**
   A text is accepted exactly when it is five groups of 8, 4, 4, 4 and 12 hexadecimal digits, the
   third group starts with 4 and the fourth with 8, 9, a or b.
   */
  lemma AcceptedTextIff(s: string)
    ensures ValidUuidV4(s) <==>
              && |s| == 36 && s[8] == s[13] == s[18] == s[23] == '-'
              && AllHex(s[0..8]) && AllHex(s[9..13]) && AllHex(s[14..18]) && AllHex(s[19..23]) && AllHex(s[24..36])
              && s[14] == '4' && s[19] in {'8', '9', 'a', 'b', 'A', 'B'}
  {
    hide Decode, StripDashes;
    if |s| == 36 && s[8] == s[13] == s[18] == s[23] == '-' {
      if AllHex(s[0..8]) && AllHex(s[9..13]) && AllHex(s[14..18]) && AllHex(s[19..23]) && AllHex(s[24..36]) {
        GroupsStrip(s);
        DecodesIff(StripDashes(s));
        VersionAndVariant(s);
      } else if ValidUuidV4(s) {
        AcceptedIsHex(s);
      }
    }
  }

  function FiveGroups(s: string): string
    requires |s| == 36
  {
    s[0..8] + s[9..13] + s[14..18] + s[19..23] + s[24..36]
  }

  lemma GroupsStrip(s: string)
    requires DashesInPlace(s)
    requires AllHex(s[0..8]) && AllHex(s[9..13]) && AllHex(s[14..18]) && AllHex(s[19..23]) && AllHex(s[24..36])
    ensures StripDashes(s) == FiveGroups(s) && AllHex(FiveGroups(s)) && |FiveGroups(s)| == 32
  {
    hide StripDashes;
    Groups(s);
    StripFive(s[0..8], s[9..13], s[14..18], s[19..23], s[24..36]);
    NoDashes(s[0..8]);
    NoDashes(s[9..13]);
    NoDashes(s[14..18]);
    NoDashes(s[19..23]);
    NoDashes(s[24..36]);
  }

  /** Characters 14 and 19 are the first digits of bytes 6 and 8. */
  lemma VersionAndVariant(s: string)
    requires DashesInPlace(s) && StripDashes(s) == FiveGroups(s)
    requires |FiveGroups(s)| == 32 && Decode(FiveGroups(s)).Some?
    ensures Version4(Decode(FiveGroups(s)).value) <==> s[14] == '4' && s[19] in {'8', '9', 'a', 'b', 'A', 'B'}
  {
    hide Decode, StripDashes;
    var hex := FiveGroups(s);
    DecodesIff(hex);
    DecodedAt(hex, 6);
    DecodedAt(hex, 8);
    assert hex[12] == s[14] && hex[16] == s[19];
    assert IsHex(hex[12]) && IsHex(hex[13]) && IsHex(hex[16]) && IsHex(hex[17]);
  }

  lemma AcceptedIsHex(s: string)
    requires ValidUuidV4(s)
    ensures AllHex(s[0..8]) && AllHex(s[9..13]) && AllHex(s[14..18]) && AllHex(s[19..23]) && AllHex(s[24..36])
  {
    hide Decode, StripDashes;
    DecodesIff(StripDashes(s));
    OnlyFourDashes(s);
    var hex := StripDashes(s);
    assert s[0..8] == hex[0..8] && s[9..13] == hex[8..12] && s[14..18] == hex[12..16];
    assert s[19..23] == hex[16..20] && s[24..36] == hex[20..32];
  }
}
