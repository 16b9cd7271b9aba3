/** Base64 as the serializer uses it for bytes (section 4 of RFC 4648). */
module Base64 {
  import opened Wrappers

  type Byte = b: int | 0 <= b < 256
  type Sextet = x: int | 0 <= x < 64

  function CharOf(x: Sextet): char {
    if x < 26 then ('A' as int + x) as char
    else if x < 52 then ('a' as int + (x - 26)) as char
    else if x < 62 then ('0' as int + (x - 52)) as char
    else if x == 62 then '+' else '/'
  }

  function SextetOf(c: char): Option<Sextet> {
    if 'A' <= c <= 'Z' then Some(c as int - 'A' as int)
    else if 'a' <= c <= 'z' then Some(c as int - 'a' as int + 26)
    else if '0' <= c <= '9' then Some(c as int - '0' as int + 52)
    else if c == '+' then Some(62)
    else if c == '/' then Some(63)
    else None
  }

  function Encode(bs: seq<Byte>): string {
    if |bs| == 0 then ""
    else if |bs| == 1 then
      [CharOf(bs[0] / 4), CharOf(bs[0] % 4 * 16), '=', '=']
    else if |bs| == 2 then
      [CharOf(bs[0] / 4), CharOf(bs[0] % 4 * 16 + bs[1] / 16), CharOf(bs[1] % 16 * 4), '=']
    else
      [CharOf(bs[0] / 4), CharOf(bs[0] % 4 * 16 + bs[1] / 16),
       CharOf(bs[1] % 16 * 4 + bs[2] / 64), CharOf(bs[2] % 64)] + Encode(bs[3..])
  }

  /** None when the text is not what an encoder writes. */
  function Decode(s: string): Option<seq<Byte>> {
    if |s| == 0 then Some([])
    else if |s| < 4 || SextetOf(s[0]).None? || SextetOf(s[1]).None? then None
    else
      var a, b := SextetOf(s[0]).value, SextetOf(s[1]).value;
      var first := a * 4 + b / 16;
      if s[2] == '=' then
        if s[3] == '=' && |s| == 4 then Some([first]) else None
      else if SextetOf(s[2]).None? then None
      else
        var c := SextetOf(s[2]).value;
        var second := b % 16 * 16 + c / 4;
        if s[3] == '=' then
          if |s| == 4 then Some([first, second]) else None
        else if SextetOf(s[3]).None? || Decode(s[4..]).None? then None
        else Some([first, second, c % 4 * 64 + SextetOf(s[3]).value] + Decode(s[4..]).value)
  }

  lemma SextetChar(x: Sextet)
    ensures SextetOf(CharOf(x)) == Some(x)
    ensures CharOf(x) != '='
  {
  }

  /** The 24-bit number of three bytes. */
  function Number(x: Byte, y: Byte, z: Byte): int {
    x as int * 65536 + y as int * 256 + z as int
  }

  /** The number that four characters of the alphabet write, most significant first. */
  ghost predicate Writes(s: string, value: int) {
    exists a: Sextet, b: Sextet, c: Sextet, d: Sextet ::
      && s == [CharOf(a), CharOf(b), CharOf(c), CharOf(d)]
      && value == a as int * 262144 + b as int * 4096 + c as int * 64 + d as int
  }

  lemma ThreeBytesWritten(x: Byte, y: Byte, z: Byte)
    ensures Writes([CharOf(x / 4), CharOf(x % 4 * 16 + y / 16), CharOf(y % 16 * 4 + z / 64), CharOf(z % 64)],
                   Number(x, y, z))
  {
    var a: Sextet, b: Sextet := x / 4, x % 4 * 16 + y / 16;
    var c: Sextet, d: Sextet := y % 16 * 4 + z / 64, z % 64;
    assert Number(x, y, z) == a as int * 262144 + b as int * 4096 + c as int * 64 + d as int;
  }

  /** Each three bytes are written, in order, as the 24-bit number they make. */
  lemma {:induction false} GroupsWritten(bs: seq<Byte>, g: nat)
    requires 3 * g + 3 <= |bs|
    ensures |Encode(bs)| >= 4 * g + 4
    ensures Writes(Encode(bs)[4 * g..4 * g + 4], Number(bs[3 * g], bs[3 * g + 1], bs[3 * g + 2]))
    decreases g
  {
    hide CharOf, Writes;
    var head := Encode(bs)[..4];
    if g == 0 {
      ThreeBytesWritten(bs[0], bs[1], bs[2]);
      assert Encode(bs)[0..4] == [CharOf(bs[0] / 4), CharOf(bs[0] % 4 * 16 + bs[1] / 16),
                                  CharOf(bs[1] % 16 * 4 + bs[2] / 64), CharOf(bs[2] % 64)];
    } else {
      GroupsWritten(bs[3..], g - 1);
      assert Encode(bs)[4..] == Encode(bs[3..]);
      assert Encode(bs)[4 * g..4 * g + 4] == Encode(bs[3..])[4 * (g - 1)..4 * (g - 1) + 4];
    }
  }

  lemma PackTwo(a: Byte, b: Byte)
    ensures a / 4 * 4 + (a % 4 * 16 + b / 16) / 16 == a
    ensures 0 <= a % 4 * 16 + b / 16 < 64
    ensures (a % 4 * 16 + b / 16) % 16 == b / 16
  {
  }

  lemma PackThree(b: Byte, c: Byte)
    ensures b / 16 * 16 + (b % 16 * 4 + c / 64) / 4 == b
    ensures 0 <= b % 16 * 4 + c / 64 < 64
    ensures (b % 16 * 4 + c / 64) % 4 * 64 + c % 64 == c
  {
  }

  lemma NoBytes()
    ensures Decode("") == Some([])
  {
  }

  lemma OneByte(a: Byte)
    ensures Decode(Encode([a])) == Some([a])
  {
    SextetChar(a / 4);
    SextetChar(a % 4 * 16);
    PackTwo(a, 0);
  }

  lemma TwoBytes(a: Byte, b: Byte)
    ensures Decode(Encode([a, b])) == Some([a, b])
  {
    PackTwo(a, b);
    PackThree(b, 0);
    SextetChar(a / 4);
    SextetChar(a % 4 * 16 + b / 16);
    SextetChar(b % 16 * 4);
  }

  lemma ThreeBytes(a: Byte, b: Byte, c: Byte, rest: string)
    requires Decode(rest).Some?
    ensures var quad := [CharOf(a / 4), CharOf(a % 4 * 16 + b / 16),
                         CharOf(b % 16 * 4 + c / 64), CharOf(c % 64)];
            Decode(quad + rest) == Some([a, b, c] + Decode(rest).value)
  {
    PackTwo(a, b);
    PackThree(b, c);
    SextetChar(a / 4);
    SextetChar(a % 4 * 16 + b / 16);
    SextetChar(b % 16 * 4 + c / 64);
    SextetChar(c % 64);
    var quad := [CharOf(a / 4), CharOf(a % 4 * 16 + b / 16),
                 CharOf(b % 16 * 4 + c / 64), CharOf(c % 64)];
    assert (quad + rest)[4..] == rest;
  }

  /** Decoding what was encoded gives the same bytes back, for every byte string. */
  lemma {:induction false} RoundTrip(bs: seq<Byte>)
    ensures Decode(Encode(bs)) == Some(bs)
  {
    hide Decode, CharOf, SextetOf;
    if |bs| == 0 {
      NoBytes();
    } else if |bs| == 1 {
      assert bs == [bs[0]];
      OneByte(bs[0]);
    } else if |bs| == 2 {
      assert bs == [bs[0], bs[1]];
      TwoBytes(bs[0], bs[1]);
    } else {
      RoundTrip(bs[3..]);
      ThreeBytes(bs[0], bs[1], bs[2], Encode(bs[3..]));
      assert bs == [bs[0], bs[1], bs[2]] + bs[3..];
    }
  }
}
