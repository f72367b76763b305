/** The bytes of a string and their URL-safe base64 text, without padding (section 3 of RFC 3629; section 5 of RFC
    4648). */
module Base64Url {

  type Byte = b: int | 0 <= b < 256
  type Sextet = x: int | 0 <= x < 64

  function Utf8Char(c: char): seq<Byte> {
    var n := c as int;
    if n < 0x80 then [n]
    else if n < 0x800 then [0xC0 + n / 64, 0x80 + n % 64]
    else if n < 0x1_0000 then [0xE0 + n / 4096, 0x80 + n / 64 % 64, 0x80 + n % 64]
    else [0xF0 + n / 262144, 0x80 + n / 4096 % 64, 0x80 + n / 64 % 64, 0x80 + n % 64]
  }

  function Utf8(s: string): seq<Byte> {
    if s == "" then [] else Utf8Char(s[0]) + Utf8(s[1..])
  }

  /** Three bytes become four sextets; one or two left over become two or three. */
  function Sextets(b: seq<Byte>): seq<Sextet> {
    if |b| == 0 then []
    else if |b| == 1 then [b[0] / 4, b[0] % 4 * 16]
    else if |b| == 2 then [b[0] / 4, b[0] % 4 * 16 + b[1] / 16, b[1] % 16 * 4]
    else [b[0] / 4, b[0] % 4 * 16 + b[1] / 16, b[1] % 16 * 4 + b[2] / 64, b[2] % 64] + Sextets(b[3..])
  }

  function Letter(x: Sextet): char {
    if x < 26 then 'A' + x as char
    else if x < 52 then 'a' + (x - 26) as char
    else if x < 62 then '0' + (x - 52) as char
    else if x == 62 then '-' else '_'
  }

  function Letters(xs: seq<Sextet>): string {
    seq(|xs|, i requires 0 <= i < |xs| => Letter(xs[i]))
  }

  const CAPITALS: string := "ABCDEFGHIJKLMNOPQRSTUVWXYZ"
  const SMALLS: string := "abcdefghijklmnopqrstuvwxyz"
  const OTHERS: string := "0123456789-_"

  lemma CapitalLetter(x: Sextet)
    requires x < 26
    ensures |CAPITALS| == 26 && Letter(x) == CAPITALS[x]
  {
  }

  lemma SmallLetter(x: Sextet)
    requires 26 <= x < 52
    ensures |SMALLS| == 26 && Letter(x) == SMALLS[x - 26]
  {
  }

  /** Letters are those of the URL-safe alphabet, in its order. */
  lemma LetterIsOfAlphabet(x: Sextet)
    ensures |CAPITALS + SMALLS + OTHERS| == 64 && Letter(x) == (CAPITALS + SMALLS + OTHERS)[x]
  {
    if x < 26 { CapitalLetter(x); } else if x < 52 { SmallLetter(x); } else { assert Letter(x) == OTHERS[x - 52]; }
  }

  /** The continuation bytes of a character carry six bits each. */
  predicate Continues(b: Byte) {
    0x80 <= b < 0xC0
  }

  /** The bytes carry the code `n`, in as few of them as it needs. */
  predicate Carries(b: seq<Byte>, n: int) {
    if n <= 0x7F then b == [n]
    else if n <= 0x7FF then |b| == 2 && 0xC2 <= b[0] <= 0xDF && Continues(b[1]) && n == Read(0, b[0] - 0xC0, b[1])
    else if n <= 0xFFFF then
      && |b| == 3 && 0xE0 <= b[0] <= 0xEF && Continues(b[1]) && Continues(b[2])
      && n == Read(b[0] - 0xE0, b[1] - 0x80, b[2])
    else
      && |b| == 4 && 0xF0 <= b[0] <= 0xF4 && Continues(b[1]) && Continues(b[2]) && Continues(b[3])
      && n == (b[0] - 0xF0) * 0x4_0000 + Read(b[1] - 0x80, b[2] - 0x80, b[3])
  }

  /** A character's code can be read back from its bytes. */
  lemma Utf8CharIsReadBack(c: char)
    ensures Carries(Utf8Char(c), c as int)
  {
    if c as int > 0xFFFF { LongestIsReadBack(c); }
  }

  lemma LongestIsReadBack(c: char)
    requires c as int > 0xFFFF
    ensures Carries(Utf8Char(c), c as int)
  {
    var n, b := c as int, Utf8Char(c);
    assert b[1] - 0x80 == n / 4096 % 64 && b[2] - 0x80 == n / 64 % 64 && b[3] - 0x80 == n % 64;
    assert n == n / 64 * 64 + n % 64 && n / 64 == n / 4096 * 64 + n / 64 % 64;
    assert n / 4096 == n / 262144 * 64 + n / 4096 % 64;
  }

  /** Two groups of six bits and a continuation byte. */
  function Read(high: int, middle: int, low: int): int {
    (high * 64 + middle) * 64 + (low - 0x80)
  }

  /** Sextets carry the bits of the bytes in their order; those of one or two left over are followed by zeros. */
  lemma SextetsCarryBits(b: seq<Byte>)
    ensures var x := Sextets(b);
      match |b|
      case 0 => x == []
      case 1 => |x| == 2 && Bits(x[0], x[1], 0, 0) == Bytes(b[0], 0, 0)
      case 2 => |x| == 3 && Bits(x[0], x[1], x[2], 0) == Bytes(b[0], b[1], 0)
      case _ => |x| >= 4 && Bits(x[0], x[1], x[2], x[3]) == Bytes(b[0], b[1], b[2]) && x[4..] == Sextets(b[3..])
  {
  }

  function Bits(w: int, x: int, y: int, z: int): int {
    ((w * 64 + x) * 64 + y) * 64 + z
  }

  function Bytes(x: int, y: int, z: int): int {
    (x * 256 + y) * 256 + z
  }

  function Take<T>(xs: seq<T>, n: nat): seq<T> {
    if |xs| <= n then xs else xs[..n]
  }

  lemma {:induction false} Utf8OfConcat(a: string, b: string)
    ensures Utf8(a + b) == Utf8(a) + Utf8(b)
  {
    if a == "" {
      assert a + b == b;
    } else {
      assert (a + b)[1..] == a[1..] + b;
      Utf8OfConcat(a[1..], b);
    }
  }

  lemma {:induction false} SextetCount(b: seq<Byte>)
    ensures |Sextets(b)| == (4 * |b| + 2) / 3
  {
    if |b| > 2 { SextetCount(b[3..]); }
  }

  lemma GroupDetermines(a: Byte, b: Byte, c: Byte, a': Byte, b': Byte, c': Byte)
    requires a / 4 == a' / 4 && a % 4 * 16 + b / 16 == a' % 4 * 16 + b' / 16
    requires b % 16 * 4 + c / 64 == b' % 16 * 4 + c' / 64 && c % 64 == c' % 64
    ensures a == a' && b == b' && c == c'
  {
  }

  /** Distinct byte strings have distinct sextets. */
  lemma {:induction false} SextetsDetermineBytes(x: seq<Byte>, y: seq<Byte>)
    requires Sextets(x) == Sextets(y)
    ensures x == y
  {
    SextetCount(x);
    SextetCount(y);
    assert |x| == |y|;
    if |x| > 2 {
      var s, t := Sextets(x), Sextets(y);
      assert s[0] == t[0] && s[1] == t[1] && s[2] == t[2] && s[3] == t[3];
      GroupDetermines(x[0], x[1], x[2], y[0], y[1], y[2]);
      assert s[4..] == Sextets(x[3..]) && t[4..] == Sextets(y[3..]);
      SextetsDetermineBytes(x[3..], y[3..]);
      assert x == [x[0], x[1], x[2]] + x[3..] && y == [y[0], y[1], y[2]] + y[3..];
    } else if |x| > 0 {
      var s, t := Sextets(x), Sextets(y);
      assert s[0] == t[0] && s[1] == t[1];
      if |x| == 2 {
        assert s[2] == t[2];
        GroupDetermines(x[0], x[1], 0, y[0], y[1], 0);
      }
    }
  }

  /** Cutting the sextets between two groups is cutting the bytes there. */
  lemma {:induction false} WholeGroups(b: seq<Byte>, groups: nat)
    ensures Take(Sextets(b), 4 * groups) == Sextets(Take(b, 3 * groups))
    decreases groups
  {
    SextetCount(b);
    if |b| > 3 * groups && groups > 0 {
      var head, cut := Sextets(b)[..4], Take(b, 3 * groups);
      WholeGroups(b[3..], groups - 1);
      assert cut[3..] == Take(b[3..], 3 * (groups - 1)) && cut[..3] == b[..3];
      assert Sextets(b) == head + Sextets(b[3..]) && Sextets(cut) == head + Sextets(cut[3..]);
    }
  }

  lemma LettersAreFaithful(xs: seq<Sextet>, ys: seq<Sextet>)
    ensures Letters(xs) == Letters(ys) <==> xs == ys
  {
    if Letters(xs) == Letters(ys) {
      assert |xs| == |Letters(xs)| == |ys|;
      forall i | 0 <= i < |xs| ensures xs[i] == ys[i] {
        assert Letters(xs)[i] == Letters(ys)[i];
      }
    }
  }

  /** The first sixteen letters tell exactly the first twelve bytes. */
  lemma SixteenLettersIff(x: seq<Byte>, y: seq<Byte>)
    ensures Take(Letters(Sextets(x)), 16) == Take(Letters(Sextets(y)), 16) <==> Take(x, 12) == Take(y, 12)
  {
    WholeGroups(x, 4);
    WholeGroups(y, 4);
    assert Take(Letters(Sextets(x)), 16) == Letters(Take(Sextets(x), 16));
    assert Take(Letters(Sextets(y)), 16) == Letters(Take(Sextets(y), 16));
    LettersAreFaithful(Take(Sextets(x), 16), Take(Sextets(y), 16));
    if Sextets(Take(x, 12)) == Sextets(Take(y, 12)) {
      SextetsDetermineBytes(Take(x, 12), Take(y, 12));
    }
  }
}
