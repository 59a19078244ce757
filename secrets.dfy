/** Temporary-password and reset-token generation. The random sources are inputs:
    `Math.random()` is a fraction `draw / den` in [0, 1), and the 32 random bytes of
    `crypto.getRandomValues` / `crypto.randomBytes` are a sequence of byte values. */
module Secrets {

  /** The ASCII characters `lo` to `hi`, in order. */
  function Range(lo: char, hi: char): (r: string)
    requires lo <= hi < 128 as char
    ensures |r| == hi as int - lo as int + 1
    ensures forall k :: 0 <= k < |r| ==> r[k] == (lo as int + k) as char
    ensures forall c :: c in r ==> lo <= c <= hi
  {
    seq(hi as int - lo as int + 1, i requires 0 <= i <= hi as int - lo as int => (lo as int + i) as char)
  }

  const Symbols: string := "!@#$%"

  /** The 60 characters a temporary password is drawn from, written as the runs of
      consecutive characters it is made of; `AlphabetSpelledOut` shows it is the
      literal `chars` of `generatePassword`. */
  const Alphabet: string :=
    Range('A', 'H') + Range('J', 'N') + Range('P', 'Z') + Range('a', 'h') + Range('j', 'k')
    + Range('m', 'n') + Range('p', 'z') + Range('2', '9') + Symbols

  /** The look-alike characters the alphabet leaves out. */
  const Ambiguous: string := "01IOilo"

  /** `generatePassword()` is called with its default length. */
  const DefaultPasswordLength: nat := 12

  /** `new Uint8Array(32)` / `crypto.randomBytes(32)` */
  const TokenBytes: nat := 32

  lemma AlphabetSpelledOut()
    ensures Alphabet == "ABCDEFGHJKLMNPQRSTUVWXYZ" + "abcdefghjkmnpqrstuvwxyz" + "23456789" + "!@#$%"
  {
    var upper := Range('A', 'H') + Range('J', 'N') + Range('P', 'Z');
    var lower := Range('a', 'h') + Range('j', 'k') + Range('m', 'n') + Range('p', 'z');
    UpperRuns();
    LowerRuns();
    assert Range('2', '9') == "23456789";
    assert Alphabet == upper + lower + Range('2', '9') + Symbols;
  }

  lemma UpperRuns()
    ensures Range('A', 'H') + Range('J', 'N') + Range('P', 'Z') == "ABCDEFGHJKLMNPQRSTUVWXYZ"
  {
    assert Range('A', 'H') == "ABCDEFGH";
    assert Range('J', 'N') == "JKLMN";
    assert Range('P', 'Z') == "PQRSTUVWXYZ";
  }

  lemma LowerRuns()
    ensures Range('a', 'h') + Range('j', 'k') + Range('m', 'n') + Range('p', 'z') == "abcdefghjkmnpqrstuvwxyz"
  {
    assert Range('a', 'h') == "abcdefgh";
    assert Range('j', 'k') == "jk";
    assert Range('m', 'n') == "mn";
    assert Range('p', 'z') == "pqrstuvwxyz";
  }

  /** Sixty characters, none of them a look-alike. */
  lemma AlphabetFacts()
    ensures |Alphabet| == 60
    ensures forall c :: c in Alphabet ==> c !in Ambiguous
  {
    var upper := Range('A', 'H') + Range('J', 'N') + Range('P', 'Z');
    var lower := Range('a', 'h') + Range('j', 'k') + Range('m', 'n') + Range('p', 'z');
    assert Alphabet == upper + lower + Range('2', '9') + Symbols;
    assert Ambiguous == ['0', '1', 'I', 'O', 'i', 'l', 'o'];
    forall c | c in Alphabet ensures c !in Ambiguous {
      if c in upper {
        assert c in Range('A', 'H') || c in Range('J', 'N') || c in Range('P', 'Z');
      } else if c in lower {
        assert c in Range('a', 'h') || c in Range('j', 'k') || c in Range('m', 'n') || c in Range('p', 'z');
      } else if c !in Range('2', '9') {
        assert c in Symbols;
        assert Symbols == ['!', '@', '#', '$', '%'];
      }
    }
  }

  /** `Math.floor(Math.random() * chars.length)` with `Math.random()` equal to `draw / den`:
      the index always lands inside the alphabet. */
  function CharIndex(draw: nat, den: nat): (k: nat)
    requires draw < den
    ensures k < |Alphabet|
    ensures k * den <= draw * |Alphabet| < (k + 1) * den
  {
    AlphabetFacts();
    var k := draw * 60 / den;
    assert draw * 60 < den * 60;
    k
  }

  /** `generatePassword(length)`: appends one alphabet character per draw. */
  method GeneratePassword(length: nat, draws: seq<nat>, den: nat) returns (password: string)
    requires |draws| >= length
    requires forall i :: 0 <= i < |draws| ==> draws[i] < den
    ensures |password| == length
    ensures forall i :: 0 <= i < length ==> password[i] == Alphabet[CharIndex(draws[i], den)]
    ensures forall i :: 0 <= i < length ==> password[i] in Alphabet && password[i] !in Ambiguous
  {
    AlphabetFacts();
    password := "";
    var i := 0;
    while i < length
      invariant 0 <= i <= length
      invariant |password| == i
      invariant forall j :: 0 <= j < i ==> password[j] == Alphabet[CharIndex(draws[j], den)]
    {
      password := password + [Alphabet[CharIndex(draws[i], den)]];
      i := i + 1;
    }
  }

  type Byte = x: int | 0 <= x < 256

  const HexDigits: string := "0123456789abcdef"

  /** `n.toString(16)` for a byte: one digit below 16, two from 16 on. */
  function ToHex(b: Byte): string
  {
    if b < 16 then [HexDigits[b]] else [HexDigits[b / 16], HexDigits[b % 16]]
  }

  /** `s.padStart(2, '0')` */
  function PadStart2(s: string): string
  {
    if |s| < 2 then seq(2 - |s|, _ => '0') + s else s
  }

  /** `byte.toString(16).padStart(2, '0')`: always exactly two lower-case hex digits, the
      high nibble first. */
  function HexByte(b: Byte): (r: string)
    ensures r == [HexDigits[b / 16], HexDigits[b % 16]]
  {
    PadStart2(ToHex(b))
  }

  /** The joined hex text of a byte sequence: byte `i` at positions `2i` and `2i+1`. */
  function HexEncode(bytes: seq<Byte>): (r: string)
    ensures |r| == 2 * |bytes|
    ensures forall i :: 0 <= i < |bytes| ==> r[2 * i] == HexDigits[bytes[i] / 16] && r[2 * i + 1] == HexDigits[bytes[i] % 16]
  {
    if bytes == [] then []
    else
      var rest := HexEncode(bytes[1..]);
      assert forall i :: 1 <= i < |bytes| ==> bytes[i] == bytes[1..][i - 1];
      HexByte(bytes[0]) + rest
  }

  /** Every character of a hex encoding is a lower-case hex digit. */
  lemma HexEncodeDigits(bytes: seq<Byte>)
    ensures forall i :: 0 <= i < |HexEncode(bytes)| ==> HexEncode(bytes)[i] in HexDigits
  {
    var s := HexEncode(bytes);
    forall i | 0 <= i < |s| ensures s[i] in HexDigits {
      var j := i / 2;
      assert i == 2 * j || i == 2 * j + 1;
      assert bytes[j] / 16 < 16 && bytes[j] % 16 < 16;
    }
  }

  /** `generateToken()`: 32 random bytes as 64 lower-case hex digits. */
  function GenerateToken(bytes: seq<Byte>): (token: string)
    requires |bytes| == TokenBytes
    ensures |token| == 64
    ensures forall i :: 0 <= i < |token| ==> token[i] in HexDigits
  {
    HexEncodeDigits(bytes);
    HexEncode(bytes)
  }

  /** The value of one hex digit; 0 for any other character. */
  function DigitValue(c: char): (v: nat)
    ensures v < 16
    ensures c in HexDigits ==> HexDigits[v] == c
  {
    if '0' <= c <= '9' then c as int - '0' as int
    else if 'a' <= c <= 'f' then c as int - 'a' as int + 10
    else 0
  }

  /** Reads a hex text back into bytes, two digits per byte; a last odd digit is
      dropped. */
  function HexDecode(s: string): (bytes: seq<Byte>)
    ensures |bytes| == |s| / 2
  {
    if |s| < 2 then [] else [DigitValue(s[0]) * 16 + DigitValue(s[1])] + HexDecode(s[2..])
  }

  lemma HexDigitsDistinct(u: nat, v: nat)
    requires u < 16 && v < 16 && HexDigits[u] == HexDigits[v]
    ensures u == v
  {
  }

  /** Reading back a digit gives its value. */
  lemma DigitValueInverse(v: nat)
    requires v < 16
    ensures DigitValue(HexDigits[v]) == v
  {
    HexDigitsDistinct(DigitValue(HexDigits[v]), v);
  }

  /** Decoding one encoded byte in front of more hex text. */
  lemma HexDecodeCons(b: Byte, t: string)
    ensures HexDecode(HexByte(b) + t) == [b] + HexDecode(t)
  {
    var hi, lo := b / 16, b % 16;
    var s := HexByte(b) + t;
    assert s[0] == HexDigits[hi] && s[1] == HexDigits[lo] && s[2..] == t;
    DigitValueInverse(hi);
    DigitValueInverse(lo);
  }

  /** Decoding recovers the bytes: the hex encoding loses nothing. */
  lemma {:induction false} HexRoundTrip(bytes: seq<Byte>)
    ensures HexDecode(HexEncode(bytes)) == bytes
  {
    if bytes != [] {
      HexRoundTrip(bytes[1..]);
      HexDecodeCons(bytes[0], HexEncode(bytes[1..]));
      assert [bytes[0]] + bytes[1..] == bytes;
    }
  }

  /** Distinct random byte strings give distinct tokens. */
  lemma TokenInjective(a: seq<Byte>, b: seq<Byte>)
    requires |a| == TokenBytes && |b| == TokenBytes
    requires GenerateToken(a) == GenerateToken(b)
    ensures a == b
  {
    HexRoundTrip(a);
    HexRoundTrip(b);
  }
}
