/** Section 5 of RFC 4648: base64url as the platform writes it (without padding) and reads it. */
module Base64Url {
  import Sequences

  newtype byte = n: int | 0 <= n < 256
  newtype sextet = n: int | 0 <= n < 64

  datatype Result<T> = Ok(value: T) | Err(message: string)

  // ----- the standard alphabet -----

  function StandardChar(v: sextet): char {
    if v < 26 then (v as int + 65) as char
    else if v < 52 then (v as int + 71) as char
    else if v < 62 then (v as int - 4) as char
    else if v == 62 then '+' else '/'
  }

  predicate IsStandard(c: char) {
    'A' <= c <= 'Z' || 'a' <= c <= 'z' || '0' <= c <= '9' || c == '+' || c == '/'
  }

  function StandardValue(c: char): sextet
    requires IsStandard(c)
  {
    if 'A' <= c <= 'Z' then (c as int - 65) as sextet
    else if 'a' <= c <= 'z' then (c as int - 71) as sextet
    else if '0' <= c <= '9' then (c as int + 4) as sextet
    else if c == '+' then 62 else 63
  }

  /** The two replacements that turn the standard alphabet into the URL-safe one, and back. */
  function UrlChar(c: char): char { if c == '+' then '-' else if c == '/' then '_' else c }

  function PlainChar(c: char): char { if c == '-' then '+' else if c == '_' then '/' else c }

  predicate IsUrlChar(c: char) {
    'A' <= c <= 'Z' || 'a' <= c <= 'z' || '0' <= c <= '9' || c == '-' || c == '_'
  }

  lemma AlphabetRoundTrip(v: sextet)
    ensures IsStandard(StandardChar(v)) && StandardValue(StandardChar(v)) == v
    ensures IsUrlChar(UrlChar(StandardChar(v))) && PlainChar(UrlChar(StandardChar(v))) == StandardChar(v)
  {
  }

  lemma AlphabetRoundTripBack(c: char)
    requires IsUrlChar(c)
    ensures IsStandard(PlainChar(c)) && StandardChar(StandardValue(PlainChar(c))) == PlainChar(c)
    ensures UrlChar(PlainChar(c)) == c
  {
  }

  // ----- Node's Buffer: toString("base64") and Buffer.from(text, "base64") -----

  /** The six-bit groups of a byte string, without padding. */
  function Sextets(bytes: seq<byte>): (r: seq<sextet>) {
    if |bytes| == 0 then []
    else if |bytes| == 1 then
      var a := bytes[0] as int;
      [(a / 4) as sextet, (a % 4 * 16) as sextet]
    else if |bytes| == 2 then
      var a, b := bytes[0] as int, bytes[1] as int;
      [(a / 4) as sextet, (a % 4 * 16 + b / 16) as sextet, (b % 16 * 4) as sextet]
    else
      var a, b, c := bytes[0] as int, bytes[1] as int, bytes[2] as int;
      [(a / 4) as sextet, (a % 4 * 16 + b / 16) as sextet, (b % 16 * 4 + c / 64) as sextet, (c % 64) as sextet]
      + Sextets(bytes[3..])
  }

  /** The bytes of a list of six-bit groups; left-over bits, and a lone last group, are dropped. */
  function Bytes(groups: seq<sextet>): (r: seq<byte>) {
    if |groups| <= 1 then []
    else
      var first := (groups[0] as int * 4 + groups[1] as int / 16) as byte;
      if |groups| == 2 then [first]
      else
        var second := (groups[1] as int % 16 * 16 + groups[2] as int / 4) as byte;
        if |groups| == 3 then [first, second]
        else
          [first, second, (groups[2] as int % 4 * 64 + groups[3] as int) as byte] + Bytes(groups[4..])
  }

  function Chars(groups: seq<sextet>): (text: string)
    ensures |text| == |groups|
    ensures forall i | 0 <= i < |text| :: text[i] == StandardChar(groups[i])
  {
    seq(|groups|, i requires 0 <= i < |groups| => StandardChar(groups[i]))
  }

  function Padding(byteCount: nat): string {
    if byteCount % 3 == 1 then "==" else if byteCount % 3 == 2 then "=" else ""
  }

  /** Standard base64: padded to a multiple of four characters. */
  function StandardEncode(bytes: seq<byte>): string {
    Chars(Sextets(bytes)) + Padding(|bytes|)
  }

  /** The bytes of text over the standard alphabet; padding is optional. */
  function StandardDecode(text: string): seq<byte>
    requires forall c | c in text :: IsStandard(c)
  {
    Bytes(seq(|text|, i requires 0 <= i < |text| => StandardValue(text[i])))
  }

  // ----- the platform's two functions -----

  /** The text without the padding at its end. */
  function StripPadding(text: string): string {
    if text != "" && text[|text| - 1] == '=' then StripPadding(text[..|text| - 1]) else text
  }

  function MapChars(text: string, f: char -> char): (r: string)
    ensures |r| == |text|
    ensures forall i | 0 <= i < |text| :: r[i] == f(text[i])
  {
    seq(|text|, i requires 0 <= i < |text| => f(text[i]))
  }

  function ToBase64Url(bytes: seq<byte>): string {
    StripPadding(MapChars(StandardEncode(bytes), UrlChar))
  }

  predicate IsBase64Url(text: string) {
    forall i | 0 <= i < |text| :: IsUrlChar(text[i])
  }

  function FromBase64Url(text: string): Result<seq<byte>> {
    if !IsBase64Url(text) then Err("not base64url")
    else
      var plain := MapChars(text, PlainChar);
      assert forall i | 0 <= i < |text| :: IsStandard(plain[i]);
      Ok(StandardDecode(plain))
  }

  // ----- what they promise -----

  /** The URL-safe text of a list of six-bit groups. */
  function UrlText(groups: seq<sextet>): (text: string)
    ensures |text| == |groups|
    ensures forall i | 0 <= i < |text| :: text[i] == UrlChar(StandardChar(groups[i]))
    ensures IsBase64Url(text)
  {
    MapChars(Chars(groups), UrlChar)
  }

  lemma {:induction false} StripKeepsText(text: string, n: nat)
    requires IsBase64Url(text)
    ensures StripPadding(text + seq(n, _ => '=')) == text
  {
    var padded := text + seq(n, _ => '=');
    if n > 0 {
      assert padded[..|padded| - 1] == text + seq(n - 1, _ => '=');
      StripKeepsText(text, n - 1);
    } else {
      assert padded == text;
      if text != "" {
        assert IsUrlChar(text[|text| - 1]);
      }
    }
  }

  /** The encoder is the six-bit groups written in the URL-safe alphabet: all padding is gone. */
  lemma EncodeIsText(bytes: seq<byte>)
    ensures ToBase64Url(bytes) == UrlText(Sextets(bytes))
  {
    var pad := Padding(|bytes|);
    var text := UrlText(Sextets(bytes));
    StripKeepsText(text, |pad|);
    assert MapChars(StandardEncode(bytes), UrlChar) == text + seq(|pad|, _ => '=');
  }

  lemma {:induction false} SextetCount(bytes: seq<byte>)
    ensures |Sextets(bytes)| == (4 * |bytes| + 2) / 3
  {
    if |bytes| >= 3 {
      SextetCount(bytes[3..]);
    }
  }

  lemma {:induction false} ByteCount(groups: seq<sextet>)
    ensures |Bytes(groups)| == 3 * |groups| / 4
  {
    if |groups| >= 4 {
      ByteCount(groups[4..]);
    }
  }

  lemma {:induction false} BytesOfSextets(bytes: seq<byte>)
    ensures Bytes(Sextets(bytes)) == bytes
  {
    if |bytes| >= 3 {
      var groups := Sextets(bytes);
      assert groups[4..] == Sextets(bytes[3..]);
      BytesOfSextets(bytes[3..]);
      assert bytes == bytes[..3] + bytes[3..];
    }
  }

  /** Decoding reads exactly the groups that the text spells. */
  lemma DecodeOfText(groups: seq<sextet>)
    ensures FromBase64Url(UrlText(groups)) == Ok(Bytes(groups))
  {
    var plain := MapChars(UrlText(groups), PlainChar);
    forall i | 0 <= i < |groups| ensures IsStandard(plain[i]) && StandardValue(plain[i]) == groups[i] {
      AlphabetRoundTrip(groups[i]);
    }
    assert seq(|plain|, i requires 0 <= i < |plain| => StandardValue(plain[i])) == groups;
  }

  /** decode(encode(b)) == b for every byte string. */
  lemma RoundTrip(bytes: seq<byte>)
    ensures FromBase64Url(ToBase64Url(bytes)) == Ok(bytes)
  {
    EncodeIsText(bytes);
    DecodeOfText(Sextets(bytes));
    BytesOfSextets(bytes);
  }

  /** The encoded length is ceil(4n/3), and only alphabet characters occur (so no '.' and no '='). */
  lemma EncodedShape(bytes: seq<byte>)
    ensures |ToBase64Url(bytes)| == (4 * |bytes| + 2) / 3
    ensures IsBase64Url(ToBase64Url(bytes))
  {
    EncodeIsText(bytes);
    SextetCount(bytes);
  }

  /** The URL-safe alphabet: capital letters, small letters, digits, dash and underscore, in the order of their values. */
  predicate Spells(c: char, v: int) {
    || (0 <= v < 26 && c as int - 'A' as int == v)
    || (26 <= v < 52 && c as int - 'a' as int == v - 26)
    || (52 <= v < 62 && c as int - '0' as int == v - 52)
    || (v == 62 && c == '-')
    || (v == 63 && c == '_')
  }

  lemma AlphabetExactly(v: sextet)
    ensures Spells(UrlChar(StandardChar(v)), v as int)
  {
  }

  /** Every three bytes become four characters, each for six of their 24 bits, from the highest on. */
  lemma ThreeBytesEncode(bytes: seq<byte>) returns (v0: int, v1: int, v2: int, v3: int)
    requires |bytes| >= 3
    ensures bytes[0] as int * 65536 + bytes[1] as int * 256 + bytes[2] as int == v0 * 262144 + v1 * 4096 + v2 * 64 + v3
    ensures var text := ToBase64Url(bytes);
      && |text| >= 4 && text[4..] == ToBase64Url(bytes[3..])
      && Spells(text[0], v0) && Spells(text[1], v1) && Spells(text[2], v2) && Spells(text[3], v3)
  {
    EncodeIsText(bytes);
    EncodeIsText(bytes[3..]);
    var groups := Sextets(bytes);
    v0, v1, v2, v3 := groups[0] as int, groups[1] as int, groups[2] as int, groups[3] as int;
    AlphabetExactly(groups[0]);
    AlphabetExactly(groups[1]);
    AlphabetExactly(groups[2]);
    AlphabetExactly(groups[3]);
    assert groups[4..] == Sextets(bytes[3..]);
  }

  /** One byte left over becomes two characters, two bytes three; the bits that are missing are zero. */
  lemma LastBytesEncode(bytes: seq<byte>) returns (v0: int, v1: int, v2: int)
    requires |bytes| < 3
    ensures var text := ToBase64Url(bytes);
      && (|bytes| == 0 ==> text == "")
      && (|bytes| == 1 ==> |text| == 2 && Spells(text[0], v0) && Spells(text[1], v1) && bytes[0] as int * 16 == v0 * 64 + v1)
      && (|bytes| == 2 ==>
            && |text| == 3 && Spells(text[0], v0) && Spells(text[1], v1) && Spells(text[2], v2)
            && (bytes[0] as int * 256 + bytes[1] as int) * 4 == v0 * 4096 + v1 * 64 + v2)
  {
    EncodeIsText(bytes);
    var groups := Sextets(bytes);
    v0, v1, v2 := 0, 0, 0;
    if |bytes| > 0 {
      v0, v1 := groups[0] as int, groups[1] as int;
      AlphabetExactly(groups[0]);
      AlphabetExactly(groups[1]);
    }
    if |bytes| > 1 {
      v2 := groups[2] as int;
      AlphabetExactly(groups[2]);
    }
  }

  /** Before the padding is stripped the text has a multiple of four characters. */
  lemma PaddedToFour(bytes: seq<byte>)
    ensures |StandardEncode(bytes)| == 4 * ((|bytes| + 2) / 3)
  {
    SextetCount(bytes);
    RoundUp(|bytes| / 3, |bytes| % 3);
  }

  lemma RoundUp(q: nat, r: nat)
    requires r < 3
    ensures (4 * (3 * q + r) + 2) / 3 + (if r == 0 then 0 else 3 - r) == 4 * ((3 * q + r + 2) / 3)
  {
  }

  /** Different byte strings have different encodings. */
  lemma EncodeInjective(a: seq<byte>, b: seq<byte>)
    requires ToBase64Url(a) == ToBase64Url(b)
    ensures a == b
  {
    RoundTrip(a);
    RoundTrip(b);
  }

  // ----- the other direction: which accepted texts are encodings -----

  function GroupsOf(text: string): (groups: seq<sextet>)
    requires IsBase64Url(text)
    ensures |groups| == |text|
  {
    seq(|text|, i requires 0 <= i < |text| =>
      assert IsUrlChar(text[i]); AlphabetRoundTripBack(text[i]); StandardValue(PlainChar(text[i])))
  }

  /** No lone last group, and the bits that do not fill a byte are zero. */
  predicate Canonical(groups: seq<sextet>) {
    var n := |groups|;
    && n % 4 != 1
    && (n % 4 == 2 ==> groups[n - 1] % 16 == 0)
    && (n % 4 == 3 ==> groups[n - 1] % 4 == 0)
  }

  lemma {:induction false} SextetsOfBytes(groups: seq<sextet>)
    ensures Sextets(Bytes(groups)) == groups <==> Canonical(groups)
  {
    if |groups| >= 4 {
      var rest := groups[4..];
      SextetsOfBytes(rest);
      FourGroups(groups);
      CanonicalTail(groups);
      Sequences.SameHead([groups[0], groups[1], groups[2], groups[3]], Sextets(Bytes(rest)), rest);
      assert groups == [groups[0], groups[1], groups[2], groups[3]] + rest;
    } else if |groups| == 3 {
      LastThree(groups);
    } else if |groups| == 2 {
      LastTwo(groups);
    } else {
      LastFew(groups);
    }
  }

  lemma FourGroups(groups: seq<sextet>)
    requires |groups| >= 4
    ensures Sextets(Bytes(groups)) == [groups[0], groups[1], groups[2], groups[3]] + Sextets(Bytes(groups[4..]))
  {
    var x, y, z := FirstThree(groups);
    ThreeBytes(x, y, z, Bytes(groups[4..]));
  }

  lemma FirstThree(groups: seq<sextet>) returns (x: byte, y: byte, z: byte)
    requires |groups| >= 4
    ensures Bytes(groups) == [x, y, z] + Bytes(groups[4..])
    ensures Sextets([x, y, z]) == [groups[0], groups[1], groups[2], groups[3]]
  {
    x, y, z := Bytes(groups)[0], Bytes(groups)[1], Bytes(groups)[2];
    Regroup(groups[0] as int, groups[1] as int, groups[2] as int, groups[3] as int);
    assert [x, y, z][3..] == [];
  }

  lemma CanonicalTail(groups: seq<sextet>)
    requires |groups| >= 4
    ensures Canonical(groups) <==> Canonical(groups[4..])
  {
    var n := |groups|;
    assert (n - 4) % 4 == n % 4;
    if n > 4 { assert groups[4..][n - 5] == groups[n - 1]; }
  }

  lemma ThreeBytes(x: byte, y: byte, z: byte, rest: seq<byte>)
    ensures Sextets([x, y, z] + rest) == Sextets([x, y, z]) + Sextets(rest)
  {
    assert ([x, y, z] + rest)[3..] == rest;
    assert [x, y, z][3..] == [];
  }

  /** Four six-bit values packed into three bytes and unpacked again. */
  lemma Regroup(a: int, b: int, c: int, d: int)
    requires 0 <= a < 64 && 0 <= b < 64 && 0 <= c < 64 && 0 <= d < 64
    ensures var x, y, z := a * 4 + b / 16, b % 16 * 16 + c / 4, c % 4 * 64 + d;
      && x / 4 == a && x % 4 * 16 + y / 16 == b && y % 16 * 4 + z / 64 == c && z % 64 == d
      && y % 16 * 4 == c - c % 4 && x % 4 * 16 == b - b % 16
  {
  }

  lemma LastThree(groups: seq<sextet>)
    requires |groups| == 3
    ensures Sextets(Bytes(groups)) == groups <==> Canonical(groups)
  {
    var x, y := FirstTwo(groups);
    TwoBytes([x, y], groups);
  }

  lemma TwoBytes(bytes: seq<byte>, groups: seq<sextet>)
    requires |bytes| == 2 && |groups| == 3
    requires bytes[0] as int / 4 == groups[0] as int && bytes[0] as int % 4 * 16 + bytes[1] as int / 16 == groups[1] as int
    requires bytes[1] as int % 16 * 4 == groups[2] as int <==> groups[2] as int % 4 == 0
    ensures Sextets(bytes) == groups <==> Canonical(groups)
  {
    assert Sextets(bytes) == [groups[0], groups[1], (bytes[1] as int % 16 * 4) as sextet];
    assert Sextets(bytes) == groups <==> Sextets(bytes)[2] == groups[2];
  }

  lemma FirstTwo(groups: seq<sextet>) returns (x: byte, y: byte)
    requires |groups| == 3
    ensures Bytes(groups) == [x, y]
    ensures x as int / 4 == groups[0] as int && x as int % 4 * 16 + y as int / 16 == groups[1] as int
    ensures y as int % 16 * 4 == groups[2] as int <==> groups[2] as int % 4 == 0
  {
    x, y := Bytes(groups)[0], Bytes(groups)[1];
    Regroup(groups[0] as int, groups[1] as int, groups[2] as int, 0);
  }

  lemma LastTwo(groups: seq<sextet>)
    requires |groups| == 2
    ensures Sextets(Bytes(groups)) == groups <==> Canonical(groups)
  {
    var a, b := groups[0] as int, groups[1] as int;
    Regroup(a, b, 0, 0);
    var bytes: seq<byte> := [(a * 4 + b / 16) as byte];
    assert Bytes(groups) == bytes;
    var r: seq<sextet> := [a as sextet, (b - b % 16) as sextet];
    assert Sextets(bytes) == r;
    assert r == groups <==> r[1] == groups[1];
  }

  lemma LastFew(groups: seq<sextet>)
    requires |groups| <= 1
    ensures Sextets(Bytes(groups)) == groups <==> Canonical(groups)
  {
  }

  lemma TextOfGroups(text: string)
    requires IsBase64Url(text)
    ensures UrlText(GroupsOf(text)) == text
  {
    forall i | 0 <= i < |text| ensures UrlText(GroupsOf(text))[i] == text[i] {
      AlphabetRoundTripBack(text[i]);
    }
  }

  lemma TextInjective(a: seq<sextet>, b: seq<sextet>)
    requires UrlText(a) == UrlText(b)
    ensures a == b
  {
    forall i | 0 <= i < |a| ensures a[i] == b[i] {
      assert UrlText(a)[i] == UrlText(b)[i];
      AlphabetRoundTrip(a[i]);
      AlphabetRoundTrip(b[i]);
    }
  }

  /** A text the decoder accepts is the encoding of what it decodes to exactly when it is canonical. */
  lemma RoundTripBack(text: string)
    requires IsBase64Url(text)
    ensures FromBase64Url(text).Ok?
    ensures ToBase64Url(FromBase64Url(text).value) == text <==> Canonical(GroupsOf(text))
  {
    var groups := GroupsOf(text);
    TextOfGroups(text);
    DecodeOfText(groups);
    EncodeIsText(Bytes(groups));
    SextetsOfBytes(groups);
    if ToBase64Url(Bytes(groups)) == text {
      TextInjective(Sextets(Bytes(groups)), groups);
    }
  }
}
