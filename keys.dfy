/** `get_cache_key`: the lower-case hexadecimal spelling of a digest of the
    resume text. */
module Keys {

  newtype byte = x: int | 0 <= x < 256

  predicate IsHexChar(c: char) {
    ('0' <= c <= '9') || ('a' <= c <= 'f')
  }

  /** The lower-case hexadecimal digit of a value below 16. */
  function HexDigit(v: int): (c: char)
    requires 0 <= v < 16
    ensures IsHexChar(c)
  {
    if v < 10 then '0' + v as char else 'a' + (v - 10) as char
  }

  /** The value of a hexadecimal digit. */
  function HexValue(c: char): (v: int)
    requires IsHexChar(c)
    ensures 0 <= v < 16 && HexDigit(v) == c
  {
    if c <= '9' then c as int - '0' as int else c as int - 'a' as int + 10
  }

  /** `bytes.hex()`: two digits per byte, high half first. */
  function Hex(bytes: seq<byte>): (r: string)
    ensures |r| == 2 * |bytes|
    ensures forall k :: 0 <= k < |r| ==> IsHexChar(r[k])
  {
    if bytes == [] then []
    else
      var b := bytes[0] as int;
      [HexDigit(b / 16), HexDigit(b % 16)] + Hex(bytes[1..])
  }

  /** The bytes a hexadecimal spelling stands for. */
  function Unhex(s: string): (bytes: seq<byte>)
    requires |s| % 2 == 0
    requires forall k :: 0 <= k < |s| ==> IsHexChar(s[k])
    ensures |bytes| * 2 == |s|
  {
    if s == [] then []
    else
      assert IsHexChar(s[0]) && IsHexChar(s[1]);
      [(HexValue(s[0]) * 16 + HexValue(s[1])) as byte] + Unhex(s[2..])
  }

  /** Reading a hexadecimal spelling gives back the bytes it spells. */
  lemma {:induction false} UnhexHex(bytes: seq<byte>)
    ensures Unhex(Hex(bytes)) == bytes
  {
    if bytes != [] {
      var b := bytes[0] as int;
      var h := Hex(bytes);
      assert h[2..] == Hex(bytes[1..]);
      assert HexValue(HexDigit(b / 16)) == b / 16;
      assert HexValue(HexDigit(b % 16)) == b % 16;
      UnhexHex(bytes[1..]);
    }
  }

  /** Different digests give different keys. */
  lemma HexInjective(a: seq<byte>, b: seq<byte>)
    ensures Hex(a) == Hex(b) <==> a == b
  {
    if Hex(a) == Hex(b) {
      UnhexHex(a);
      UnhexHex(b);
    }
  }

  /** The model of `get_cache_key`, given the digest function: the key is
      made of hexadecimal digits only, so it is a plain file name. */
  function CacheKey(digest: string -> seq<byte>, text: string): (key: string)
    ensures |key| == 2 * |digest(text)|
    ensures forall k :: 0 <= k < |key| ==> IsHexChar(key[k])
    ensures '/' !in key && '.' !in key
  {
    Hex(digest(text))
  }

  /** Two resume texts share a cache key exactly when their digests agree. */
  lemma SameKeyIffSameDigest(digest: string -> seq<byte>, t1: string, t2: string)
    ensures CacheKey(digest, t1) == CacheKey(digest, t2) <==> digest(t1) == digest(t2)
  {
    HexInjective(digest(t1), digest(t2));
  }
}
