/**
 * The two foreign primitives the account routes depend on: bcrypt
 * (`bcrypt.hash`, `bcrypt.compare`) and the reset-token source
 * (`crypto.randomBytes(32).toString("hex")`).  Randomness enters as
 * parameters: the salt of each hash, and the token itself.
 */
module Credentials {

  type Byte = b: int | 0 <= b < 256

  /** bcrypt reads at most this many bytes of a password. */
  const BcryptKeyBytes := 72

  /** The UTF-8 encoding of one character. */
  function CharBytes(c: char): (b: seq<Byte>)
    ensures 1 <= |b| <= 4
  {
    var cp := c as int;
    if cp < 0x80 then [cp]
    else if cp < 0x800 then [0xC0 + cp / 0x40, 0x80 + cp % 0x40]
    else if cp < 0x1_0000 then [0xE0 + cp / 0x1000, 0x80 + (cp / 0x40) % 0x40, 0x80 + cp % 0x40]
    else [0xF0 + cp / 0x4_0000, 0x80 + (cp / 0x1000) % 0x40, 0x80 + (cp / 0x40) % 0x40, 0x80 + cp % 0x40]
  }

  /** The UTF-8 encoding of a string, the bytes bcrypt is handed. */
  function Utf8(s: string): (b: seq<Byte>)
    ensures |s| <= |b| <= 4 * |s|
  {
    if s == [] then [] else CharBytes(s[0]) + Utf8(s[1..])
  }

  /** The part of a password bcrypt uses: the longest prefix of its UTF-8
      encoding that fits in `BcryptKeyBytes` bytes. */
  function BcryptKey(password: string): (k: seq<Byte>)
    ensures k <= Utf8(password) && |k| <= BcryptKeyBytes
    ensures k == Utf8(password) || |k| == BcryptKeyBytes
  {
    var bytes := Utf8(password);
    if |bytes| <= BcryptKeyBytes then bytes else bytes[..BcryptKeyBytes]
  }

  /** The two clauses of `BcryptKey`'s contract pin the key down: no other
      byte string meets them. */
  lemma BcryptKeyDeterminedByContract(password: string, k: seq<Byte>)
    requires k <= Utf8(password) && |k| <= BcryptKeyBytes
    requires k == Utf8(password) || |k| == BcryptKeyBytes
    ensures k == BcryptKey(password)
  {
  }

  /** A bcrypt digest.  The stored password column has this type, never
      `string`, so a plaintext password cannot be stored.  The digest keeps
      the key bcrypt derived it from only so that `Compare` can be defined;
      nothing outside this module reads that field. */
  datatype Digest = Digest(salt: nat, key: seq<Byte>)

  /** `bcrypt.hash(password, 10)` with the salt it drew. */
  function Hash(password: string, salt: nat): (d: Digest)
    ensures Compare(password, d)
    ensures d.salt == salt
  {
    Digest(salt, BcryptKey(password))
  }

  /** `bcrypt.compare(password, digest)`. */
  predicate Compare(password: string, d: Digest)
  {
    BcryptKey(password) == d.key
  }

  /** A digest accepts exactly the passwords with the key it was computed
      from. */
  lemma CompareAcceptsSameKey(password: string, other: string, salt: nat)
    ensures Compare(other, Hash(password, salt)) <==> BcryptKey(other) == BcryptKey(password)
  {
  }

  /** Encoding distributes over concatenation. */
  lemma {:induction false} Utf8Append(a: string, b: string)
    ensures Utf8(a + b) == Utf8(a) + Utf8(b)
  {
    if a == [] {
      assert a + b == b;
    } else {
      assert (a + b)[1..] == a[1..] + b;
      Utf8Append(a[1..], b);
    }
  }

  /** Whatever follows the first `BcryptKeyBytes` bytes of a password is
      ignored: two passwords that share such a prefix are accepted by each
      other's digests. */
  lemma SuffixPastKeyIgnored(prefix: string, suffix1: string, suffix2: string, salt: nat)
    requires |Utf8(prefix)| >= BcryptKeyBytes
    ensures BcryptKey(prefix + suffix1) == BcryptKey(prefix + suffix2)
    ensures Compare(prefix + suffix2, Hash(prefix + suffix1, salt))
  {
    Utf8Append(prefix, suffix1);
    Utf8Append(prefix, suffix2);
    assert Utf8(prefix + suffix1)[..BcryptKeyBytes] == Utf8(prefix)[..BcryptKeyBytes];
    assert Utf8(prefix + suffix2)[..BcryptKeyBytes] == Utf8(prefix)[..BcryptKeyBytes];
  }

  /** An ASCII character after `prefix` is encoded as the single byte right
      after the encoding of `prefix`. */
  lemma Utf8AsciiAt(prefix: string, x: char, rest: string)
    requires x as int < 0x80
    ensures |Utf8(prefix + [x] + rest)| > |Utf8(prefix)|
    ensures Utf8(prefix + [x] + rest)[|Utf8(prefix)|] == x as int
  {
    var tail := [x] + rest;
    assert prefix + [x] + rest == prefix + tail;
    Utf8Append(prefix, tail);
    assert tail[0] == x && tail[1..] == rest;
    assert Utf8(tail) == [x as int] + Utf8(rest);
  }

  /** Two passwords that agree on a prefix shorter than the key and then
      differ in an ASCII character have different keys, so neither is
      accepted by the other's digest. */
  lemma KeysDifferAtAsciiChar(prefix: string, x: char, y: char, rest1: string, rest2: string)
    requires |Utf8(prefix)| < BcryptKeyBytes
    requires x != y && x as int < 0x80 && y as int < 0x80
    ensures BcryptKey(prefix + [x] + rest1) != BcryptKey(prefix + [y] + rest2)
  {
    var n := |Utf8(prefix)|;
    Utf8AsciiAt(prefix, x, rest1);
    Utf8AsciiAt(prefix, y, rest2);
    var k1, k2 := BcryptKey(prefix + [x] + rest1), BcryptKey(prefix + [y] + rest2);
    assert n < |k1| && k1[n] == x as int;
    assert n < |k2| && k2[n] == y as int;
  }

  /** Two hashes of one password under different salts differ. */
  lemma SaltsSeparateDigests(password: string, salt1: nat, salt2: nat)
    requires salt1 != salt2
    ensures Hash(password, salt1) != Hash(password, salt2)
  {
  }

  /** The characters `Buffer.toString("hex")` emits. */
  predicate IsHexDigit(c: char)
  {
    '0' <= c <= '9' || 'a' <= c <= 'f'
  }

  const TokenBytes := 32

  /** The hex rendering of `TokenBytes` random bytes. */
  predicate IsToken(s: string)
  {
    |s| == 2 * TokenBytes && forall i :: 0 <= i < |s| ==> IsHexDigit(s[i])
  }

  type Token = s: string | IsToken(s)
    witness seq(2 * TokenBytes, _ => '0')
}
