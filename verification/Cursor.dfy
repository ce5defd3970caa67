/** The opaque list cursor: eight bytes of UTC ticks and the sixteen bytes of an id,
    in base64url (section 5 of RFC 4648). */
module Cursor {
  import opened Common

  type Byte = x: int | 0 <= x < 256

  /** Largest tick count of a DateTimeOffset. */
  const MAX_TICKS: int := 3_155_378_975_999_999_999

  const LENGTH: nat := 24

  /** Sixteen bytes in the order the id is written and compared. */
  type Guid = g: seq<Byte> | |g| == 16 witness seq(16, _ => 0)

  type Ticks = t: int | 0 <= t <= MAX_TICKS

  datatype Position = Position(createdAt: Ticks, id: Guid)

  // ----- Bytes

  function BigEndian(v: nat, n: nat): (r: seq<Byte>)
    ensures |r| == n
  {
    if n == 0 then [] else BigEndian(v / 256, n - 1) + [v % 256]
  }

  function FromBigEndian(bytes: seq<Byte>): nat {
    if bytes == [] then 0 else FromBigEndian(bytes[..|bytes| - 1]) * 256 + bytes[|bytes| - 1]
  }

  function Power256(n: nat): nat { if n == 0 then 1 else 256 * Power256(n - 1) }

  lemma {:induction false} BigEndianRoundTrip(v: nat, n: nat)
    requires v < Power256(n)
    ensures FromBigEndian(BigEndian(v, n)) == v
  {
    if n > 0 {
      BigEndianRoundTrip(v / 256, n - 1);
      assert BigEndian(v, n)[..n - 1] == BigEndian(v / 256, n - 1);
    }
  }

  lemma {:induction false} FromBigEndianRoundTrip(bytes: seq<Byte>)
    ensures FromBigEndian(bytes) < Power256(|bytes|)
    ensures BigEndian(FromBigEndian(bytes), |bytes|) == bytes
  {
    if bytes != [] {
      FromBigEndianRoundTrip(bytes[..|bytes| - 1]);
    }
  }

  /** A signed 64-bit integer read from eight bytes. */
  function ReadInt64(bytes: seq<Byte>): int {
    var v := FromBigEndian(bytes);
    if v >= 0x8000_0000_0000_0000 then v - 0x1_0000_0000_0000_0000 else v
  }

  /** The layout of TryWriteBytes: the first three fields are little-endian. */
  function Shuffle(g: seq<Byte>): (r: seq<Byte>)
    requires |g| == 16
    ensures |r| == 16
  {
    [g[3], g[2], g[1], g[0], g[5], g[4], g[7], g[6]] + g[8..]
  }

  lemma ShuffleTwice(g: seq<Byte>)
    requires |g| == 16
    ensures Shuffle(Shuffle(g)) == g
  {
    assert Shuffle(g)[8..] == g[8..];
  }

  // ----- Base64url

  type Sextet = x: int | 0 <= x < 64

  function Letter(d: Sextet): char {
    if d < 26 then 'A' + d as char
    else if d < 52 then 'a' + (d - 26) as char
    else if d < 62 then '0' + (d - 52) as char
    else if d == 62 then '-' else '_'
  }

  predicate IsLetter(c: char) { 'A' <= c <= 'Z' || 'a' <= c <= 'z' || '0' <= c <= '9' || c == '-' || c == '_' }

  predicate IsText(s: string) { forall i | 0 <= i < |s| :: IsLetter(s[i]) }

  function Digit(c: char): Sextet
    requires IsLetter(c)
  {
    if 'A' <= c <= 'Z' then (c - 'A') as int
    else if 'a' <= c <= 'z' then (c - 'a') as int + 26
    else if '0' <= c <= '9' then (c - '0') as int + 52
    else if c == '-' then 62 else 63
  }

  lemma LetterRoundTrip(d: Sextet, c: char)
    ensures IsLetter(Letter(d)) && Digit(Letter(d)) == d
    ensures IsLetter(c) ==> Letter(Digit(c)) == c
  {
  }

  function Group(a: Byte, b: Byte, c: Byte): (r: string)
    ensures |r| == 4
  {
    [Letter(a / 4), Letter((a % 4) * 16 + b / 16), Letter((b % 16) * 4 + c / 64), Letter(c % 64)]
  }

  function Ungroup(s: string): (r: seq<Byte>)
    requires |s| == 4 && IsText(s)
    ensures |r| == 3
  {
    var p, q, r, t := Digit(s[0]), Digit(s[1]), Digit(s[2]), Digit(s[3]);
    [p * 4 + q / 16, (q % 16) * 16 + r / 4, (r % 4) * 64 + t]
  }

  lemma BytesOfSextets(a: Byte, b: Byte, c: Byte)
    ensures var p, q, r, t := a / 4, (a % 4) * 16 + b / 16, (b % 16) * 4 + c / 64, c % 64;
      p * 4 + q / 16 == a && (q % 16) * 16 + r / 4 == b && (r % 4) * 64 + t == c
  {
  }

  lemma SextetsOfBytes(p: Sextet, q: Sextet, r: Sextet, t: Sextet)
    ensures var a, b, c := p * 4 + q / 16, (q % 16) * 16 + r / 4, (r % 4) * 64 + t;
      a / 4 == p && (a % 4) * 16 + b / 16 == q && (b % 16) * 4 + c / 64 == r && c % 64 == t
  {
  }

  lemma UngroupLetters(p: Sextet, q: Sextet, r: Sextet, t: Sextet)
    ensures var s := [Letter(p), Letter(q), Letter(r), Letter(t)];
      && IsText(s)
      && Ungroup(s) == [p * 4 + q / 16, (q % 16) * 16 + r / 4, (r % 4) * 64 + t]
  {
    hide Letter, Digit, IsLetter;
    LetterRoundTrip(p, 'A');
    LetterRoundTrip(q, 'A');
    LetterRoundTrip(r, 'A');
    LetterRoundTrip(t, 'A');
  }

  lemma GroupRoundTrip(a: Byte, b: Byte, c: Byte)
    ensures IsText(Group(a, b, c)) && Ungroup(Group(a, b, c)) == [a, b, c]
  {
    hide Letter, Digit, IsLetter;
    var p, q, r, t := a / 4, (a % 4) * 16 + b / 16, (b % 16) * 4 + c / 64, c % 64;
    BytesOfSextets(a, b, c);
    UngroupLetters(p, q, r, t);
  }

  lemma UngroupRoundTrip(s: string)
    requires |s| == 4 && IsText(s)
    ensures var bs := Ungroup(s); Group(bs[0], bs[1], bs[2]) == s
  {
    hide Letter, Digit, IsLetter;
    LetterRoundTrip(0, s[0]);
    LetterRoundTrip(0, s[1]);
    LetterRoundTrip(0, s[2]);
    LetterRoundTrip(0, s[3]);
    SextetsOfBytes(Digit(s[0]), Digit(s[1]), Digit(s[2]), Digit(s[3]));
  }

  lemma Threes(n: nat)
    requires n > 0
    ensures n % 3 == 0 <==> n >= 3 && (n - 3) % 3 == 0
  {
  }

  lemma Fours(n: nat)
    requires n > 0
    ensures n % 4 == 0 <==> n >= 4 && (n - 4) % 4 == 0
  {
  }

  lemma TextSplit(s: string, n: nat)
    requires IsText(s) && n <= |s|
    ensures IsText(s[..n]) && IsText(s[n..])
  {
    hide IsLetter;
  }

  lemma TextConcat(s: string, t: string)
    ensures IsText(s) && IsText(t) ==> IsText(s + t)
  {
    hide IsLetter;
  }

  function ToText(bytes: seq<Byte>): (r: string)
    requires |bytes| % 3 == 0
    ensures |r| * 3 == |bytes| * 4 && |r| % 4 == 0 && IsText(r)
  {
    if bytes == [] then [] else
      Threes(|bytes|);
      Fours(|ToText(bytes[3..])| + 4);
      GroupRoundTrip(bytes[0], bytes[1], bytes[2]);
      TextConcat(Group(bytes[0], bytes[1], bytes[2]), ToText(bytes[3..]));
      Group(bytes[0], bytes[1], bytes[2]) + ToText(bytes[3..])
  }

  function FromText(s: string): (r: seq<Byte>)
    requires |s| % 4 == 0 && IsText(s)
    ensures |r| * 4 == |s| * 3 && |r| % 3 == 0
  {
    if s == [] then [] else
      Fours(|s|);
      TextSplit(s, 4);
      Threes(|FromText(s[4..])| + 3);
      Ungroup(s[..4]) + FromText(s[4..])
  }

  lemma ToTextCons(bytes: seq<Byte>)
    requires |bytes| % 3 == 0 && bytes != []
    ensures ToText(bytes) == Group(bytes[0], bytes[1], bytes[2]) + ToText(bytes[3..])
  {
    hide Group, IsText;
  }

  lemma FromTextCons(group: string, rest: string)
    requires |group| == 4 && |rest| % 4 == 0
    requires IsText(group) && IsText(rest)
    ensures FromText(group + rest) == Ungroup(group) + FromText(rest)
  {
    hide IsLetter;
    TextConcat(group, rest);
    assert (group + rest)[..4] == group && (group + rest)[4..] == rest;
  }

  lemma EmptyText()
    ensures ToText([]) == [] && FromText([]) == []
  {
  }

  lemma {:induction false} TextRoundTrip(bytes: seq<Byte>)
    requires |bytes| % 3 == 0
    ensures FromText(ToText(bytes)) == bytes
  {
    hide *;
    if bytes == [] {
      EmptyText();
    } else {
      var group, rest := Group(bytes[0], bytes[1], bytes[2]), bytes[3..];
      assert |rest| == |bytes| - 3;
      TextRoundTrip(rest);
      ToTextCons(bytes);
      GroupRoundTrip(bytes[0], bytes[1], bytes[2]);
      FromTextCons(group, ToText(rest));
      assert bytes == [bytes[0], bytes[1], bytes[2]] + rest;
    }
  }

  lemma {:induction false} BytesRoundTrip(s: string)
    requires |s| % 4 == 0 && IsText(s)
    ensures ToText(FromText(s)) == s
  {
    hide *;
    if s == [] {
      EmptyText();
    } else {
      var group, rest := s[..4], s[4..];
      TextSplit(s, 4);
      assert s == group + rest;
      FromTextCons(group, rest);
      UngroupRoundTrip(group);
      var bs := Ungroup(group);
      ToTextCons(bs + FromText(rest));
      assert (bs + FromText(rest))[3..] == FromText(rest);
      BytesRoundTrip(rest);
    }
  }

  // ----- Encode and TryDecode

  function Bytes(p: Position): (r: seq<Byte>)
    ensures |r| == LENGTH
  {
    BigEndian(p.createdAt, 8) + Shuffle(p.id)
  }

  function Encoded(p: Position): string { ToText(Bytes(p)) }

  predicate IsSpace(c: char) { c in " \t\r\n" }

  /** The decoder skips white space. */
  function Strip(s: string): string {
    if s == [] then [] else if IsSpace(s[0]) then Strip(s[1..]) else [s[0]] + Strip(s[1..])
  }

  /** Accepted text decodes to exactly 24 bytes: 32 letters, so no padding. */
  predicate IsValid(s: string) {
    |Strip(s)| == 32 && IsText(Strip(s))
  }

  function Decoded(cursor: Option<string>): Option<Position> {
    if cursor.None? || !IsValid(cursor.value) then None
    else
      var bytes := FromText(Strip(cursor.value));
      var ticks := ReadInt64(bytes[..8]);
      if ticks < 0 || ticks > MAX_TICKS then None else Some(Position(ticks, Shuffle(bytes[8..])))
  }

  lemma {:induction false} StripKeepsLetters(s: string)
    requires IsText(s)
    ensures Strip(s) == s
  {
    if s != [] { StripKeepsLetters(s[1..]); }
  }

  lemma TicksFit()
    ensures MAX_TICKS < 0x8000_0000_0000_0000 < Power256(8) == 0x1_0000_0000_0000_0000
  {
    assert Power256(2) == 0x1_0000 && Power256(4) == 0x1_0000_0000 && Power256(6) == 0x1_0000_0000_0000;
  }

  lemma EncodedDecodes(p: Position)
    ensures Decoded(Some(Encoded(p))) == Some(p)
  {
    hide ToText, FromText, Strip, IsText, BigEndian, FromBigEndian, Shuffle, Power256;
    var bytes, s := Bytes(p), Encoded(p);
    StripKeepsLetters(s);
    TextRoundTrip(bytes);
    assert bytes[..8] == BigEndian(p.createdAt, 8) && bytes[8..] == Shuffle(p.id);
    TicksFit();
    BigEndianRoundTrip(p.createdAt, 8);
    ShuffleTwice(p.id);
  }

  /** A text is accepted as a position exactly when, white space aside, it is the
      encoding of that position. */
  lemma DecodesOnlyItsEncoding(s: string, p: Position)
    ensures Decoded(Some(s)) == Some(p) <==> Strip(s) == Encoded(p)
  {
    hide ToText, FromText, Strip, IsText, BigEndian, FromBigEndian, Shuffle, Power256;
    var t := Strip(s);
    if Decoded(Some(s)) == Some(p) {
      var bytes := FromText(t);
      BytesRoundTrip(t);
      TicksFit();
      FromBigEndianRoundTrip(bytes[..8]);
      ShuffleTwice(bytes[8..]);
      assert bytes == bytes[..8] + bytes[8..] == Bytes(p);
    }
    if t == Encoded(p) {
      EncodedDecodes(p);
      StripKeepsLetters(t);
    }
  }

  /** The layout at 638 * 10^15 ticks and the id 00112233-4455-6677-8899-aabbccddeeff: the ticks with the
      highest byte first, the first three fields of the id with the lowest. */
  lemma KnownBytes(p: Position)
    requires p.createdAt == 638_000_000_000_000_000 && forall i | 0 <= i < 16 :: p.id[i] == 17 * i
    ensures Bytes(p) == [8, 218, 161, 158, 166, 179, 0, 0, 0x33, 0x22, 0x11, 0x00, 0x55, 0x44, 0x77, 0x66,
                         0x88, 0x99, 0xaa, 0xbb, 0xcc, 0xdd, 0xee, 0xff]
  {
    hide FromBigEndian, BigEndian;
    var ticks: seq<Byte> := [8, 218, 161, 158, 166, 179, 0, 0];
    KnownTicks(ticks);
    FromBigEndianRoundTrip(ticks);
    KnownId(p.id);
    hide Shuffle;
    assert Bytes(p) == ticks + Shuffle(p.id);
  }

  lemma KnownId(id: Guid)
    requires forall i | 0 <= i < 16 :: id[i] == 17 * i
    ensures Shuffle(id) == [0x33, 0x22, 0x11, 0x00, 0x55, 0x44, 0x77, 0x66,
                            0x88, 0x99, 0xaa, 0xbb, 0xcc, 0xdd, 0xee, 0xff]
  {
    assert id[8..] == [id[8], id[9], id[10], id[11], id[12], id[13], id[14], id[15]];
  }

  lemma KnownTicks(ticks: seq<Byte>)
    requires ticks == [8, 218, 161, 158, 166, 179, 0, 0]
    ensures FromBigEndian(ticks) == 638_000_000_000_000_000
  {
    hide FromBigEndian;
    NoTicks();
    TicksSnoc(ticks, 1);
    TicksSnoc(ticks, 2);
    TicksSnoc(ticks, 3);
    TicksSnoc(ticks, 4);
    TicksSnoc(ticks, 5);
    TicksSnoc(ticks, 6);
    TicksSnoc(ticks, 7);
    TicksSnoc(ticks, 8);
    assert ticks[..0] == [] && ticks[..8] == ticks;
  }

  lemma NoTicks()
    ensures FromBigEndian([]) == 0
  {
  }

  lemma TicksSnoc(bytes: seq<Byte>, n: nat)
    requires 0 < n <= |bytes|
    ensures FromBigEndian(bytes[..n]) == FromBigEndian(bytes[..n - 1]) * 256 + bytes[n - 1]
  {
    assert bytes[..n][..n - 1] == bytes[..n - 1];
  }

  /** The URL-safe alphabet: where its parts begin and end. */
  lemma KnownGroups()
    ensures Group(0, 16, 131) == "ABCD" && Group(105, 183, 29) == "abcd" && Group(211, 93, 183) == "0123"
    ensures Group(251, 239, 190) == "----" && Group(255, 255, 255) == "____"
  {
    KnownGroup(0, 16, 131, "ABCD");
    KnownGroup(105, 183, 29, "abcd");
    KnownGroup(211, 93, 183, "0123");
    KnownGroup(251, 239, 190, "----");
    KnownGroup(255, 255, 255, "____");
  }

  lemma KnownGroup(a: Byte, b: Byte, c: Byte, s: string)
    requires |s| == 4 && s[0] == Letter(a / 4) && s[1] == Letter((a % 4) * 16 + b / 16)
    requires s[2] == Letter((b % 16) * 4 + c / 64) && s[3] == Letter(c % 64)
    ensures Group(a, b, c) == s
  {
    hide Letter;
    assert s == [s[0], s[1], s[2], s[3]];
  }

  // ----- The methods, over the 24-byte buffer

  method WriteTicks(buffer: array<Byte>, ticks: Ticks)
    requires buffer.Length == LENGTH
    modifies buffer
    ensures buffer[..8] == BigEndian(ticks, 8) && buffer[8..] == old(buffer[8..])
  {
    var rest: nat, k := ticks, 8;
    while k > 0
      invariant 0 <= k <= 8
      invariant BigEndian(rest, k) + buffer[k..8] == BigEndian(ticks, 8)
      invariant buffer[8..] == old(buffer[8..])
    {
      k := k - 1;
      buffer[k] := rest % 256;
      assert buffer[k..8] == [rest % 256] + buffer[k + 1..8];
      rest := rest / 256;
    }
  }

  method WriteId(buffer: array<Byte>, id: seq<Byte>)
    requires buffer.Length == LENGTH && |id| == 16
    modifies buffer
    ensures buffer[..8] == old(buffer[..8]) && buffer[8..] == id
  {
    for k := 0 to 16
      invariant buffer[..8] == old(buffer[..8])
      invariant forall i | 0 <= i < k :: buffer[8 + i] == id[i]
    {
      buffer[8 + k] := id[k];
    }
  }

  method Encode(p: Position) returns (s: string)
    ensures s == Encoded(p)
  {
    var buffer := new Byte[LENGTH](_ => 0);
    WriteTicks(buffer, p.createdAt);
    WriteId(buffer, Shuffle(p.id));
    assert buffer[..] == buffer[..8] + buffer[8..];
    s := ToText(buffer[..]);
  }

  method TryDecode(cursor: Option<string>) returns (ok: bool, position: Position)
    ensures ok <==> Decoded(cursor).Some?
    ensures ok ==> position == Decoded(cursor).value
  {
    ok, position := false, Position(0, seq(16, _ => 0));
    if cursor.None? || !IsValid(cursor.value) {
      return;
    }
    var text := FromText(Strip(cursor.value));
    var bytes := new Byte[LENGTH](i requires 0 <= i < LENGTH => text[i]);
    assert bytes[..] == text;
    assert bytes[..8] == text[..8] && bytes[8..] == text[8..];
    var ticks := ReadInt64(bytes[..8]);
    if ticks < 0 || ticks > MAX_TICKS {
      return;
    }
    ok, position := true, Position(ticks, Shuffle(bytes[8..]));
  }
}
