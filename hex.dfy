/** The hexadecimal half of `sha512sum` (systemd/keepassxc-unlock.c): the digest
    bytes are written into a caller's buffer as lowercase two-digit hex with a
    terminating NUL, and the length written is returned, or 0 when the buffer
    is too small. The digest itself is computed elsewhere and is opaque here. */
module HexEncoding {
  import opened Base

  type Byte = b: int | 0 <= b < 256

  /** Modulus of the 64-bit `size_t` arithmetic of the C code. */
  const SIZE_T_MODULUS: int := 0x1_0000_0000_0000_0000

  predicate IsLowerHexDigit(c: char) {
    '0' <= c <= '9' || 'a' <= c <= 'f'
  }

  function HexDigit(d: int): (c: char)
    requires 0 <= d < 16
    ensures IsLowerHexDigit(c)
  {
    if d < 10 then ('0' as int + d) as char else ('a' as int + d - 10) as char
  }

  /** The value of a lowercase hex digit; the inverse of HexDigit. */
  function HexValue(c: char): (d: int)
    requires IsLowerHexDigit(c)
    ensures 0 <= d < 16 && HexDigit(d) == c
  {
    if c <= '9' then c as int - '0' as int else c as int - 'a' as int + 10
  }

  /** sprintf("%02x", b). */
  function HexPair(b: Byte): string {
    [HexDigit(b / 16), HexDigit(b % 16)]
  }

  /** The lowercase hex text of a byte string: two digits per byte, most significant first. */
  function Hex(bytes: seq<Byte>): (s: string)
    ensures |s| == 2 * |bytes|
  {
    if bytes == [] then [] else Hex(bytes[..|bytes| - 1]) + HexPair(bytes[|bytes| - 1])
  }

  /** Byte `i` of the digest appears as characters `2i` and `2i+1` of its hex text. */
  lemma {:induction false} HexAt(bytes: seq<Byte>, i: nat)
    requires i < |bytes|
    ensures Hex(bytes)[2 * i] == HexDigit(bytes[i] / 16)
    ensures Hex(bytes)[2 * i + 1] == HexDigit(bytes[i] % 16)
  {
    var n := |bytes|;
    var front := bytes[..n - 1];
    assert Hex(bytes) == Hex(front) + HexPair(bytes[n - 1]);
    if i < n - 1 {
      HexAt(front, i);
    }
  }

  /** Every character of the hex text is a lowercase hex digit. */
  lemma HexIsLowercase(bytes: seq<Byte>)
    ensures forall k :: 0 <= k < |Hex(bytes)| ==> IsLowerHexDigit(Hex(bytes)[k])
  {
    forall k | 0 <= k < |Hex(bytes)|
      ensures IsLowerHexDigit(Hex(bytes)[k])
    {
      HexAt(bytes, k / 2);
      assert k == 2 * (k / 2) || k == 2 * (k / 2) + 1;
    }
  }

  /** The hex text splits into that of all bytes but the last, and the last pair. */
  lemma HexSplitLast(bytes: seq<Byte>)
    requires bytes != []
    ensures var n := |bytes|;
      Hex(bytes)[..2 * n - 2] == Hex(bytes[..n - 1]) && Hex(bytes)[2 * n - 2..] == HexPair(bytes[n - 1])
  {
    var n := |bytes|;
    assert Hex(bytes) == Hex(bytes[..n - 1]) + HexPair(bytes[n - 1]);
  }

  lemma HexPairInjective(x: Byte, y: Byte)
    requires HexPair(x) == HexPair(y)
    ensures x == y
  {
    assert HexValue(HexDigit(x / 16)) == x / 16 && HexValue(HexDigit(y / 16)) == y / 16;
    assert HexValue(HexDigit(x % 16)) == x % 16 && HexValue(HexDigit(y % 16)) == y % 16;
  }

  /** Two digests have the same hex text only if they are the same digest, so
      comparing hex strings compares digests. */
  lemma {:induction false} HexInjective(a: seq<Byte>, b: seq<Byte>)
    requires Hex(a) == Hex(b)
    ensures a == b
  {
    if a != [] {
      var n := |a|;
      assert |b| == n;
      HexSplitLast(a);
      HexSplitLast(b);
      HexPairInjective(a[n - 1], b[n - 1]);
      HexInjective(a[..n - 1], b[..n - 1]);
      assert a == a[..n - 1] + [a[n - 1]] && b == b[..n - 1] + [b[n - 1]];
    }
  }

  /** Hex text is equal exactly when the digests are. */
  lemma HexEqualIff(a: seq<Byte>, b: seq<Byte>)
    ensures Hex(a) == Hex(b) <==> a == b
  {
    if Hex(a) == Hex(b) {
      HexInjective(a, b);
    }
  }

  /** The hex text of the first `i + 1` bytes extends that of the first `i`. */
  lemma HexStep(digest: seq<Byte>, i: nat)
    requires i < |digest|
    ensures Hex(digest[..i + 1]) == Hex(digest[..i]) + HexPair(digest[i])
  {
    assert digest[..i + 1][..i] == digest[..i];
  }

  /** sprintf(buf + at, "%02x", b): the two digits and a NUL, after what is
      already there. */
  method PrintHexPair(buf: array<char>, at: nat, b: Byte)
    requires at + 2 < buf.Length
    modifies buf
    ensures buf[..at + 2] == old(buf[..at]) + HexPair(b) && buf[at + 2] == NUL
    ensures buf[at + 3..] == old(buf[at + 3..])
  {
    ghost var before := buf[..at];
    buf[at] := HexDigit(b / 16);
    buf[at + 1] := HexDigit(b % 16);
    buf[at + 2] := NUL;
    assert buf[..at] == before;
    assert buf[..at + 2] == before + HexPair(b);
  }

  /** The encoding loop with the corrected overflow guard. `len` is what sha512sum
      returns: 0 when the buffer cannot take `2n` digits and a NUL, otherwise `2n`
      with the hex text and its terminator in the buffer. */
  method HexEncode(digest: seq<Byte>, buf: array<char>) returns (len: nat)
    requires buf.Length >= 1
    modifies buf
    ensures 0 < |digest| ==> (len == 0 <==> buf.Length < 2 * |digest| + 1)
    ensures buf.Length >= 2 * |digest| + 1 ==>
      len == 2 * |digest| && buf[..len] == Hex(digest) && buf[len] == NUL
  {
    var bufLen: nat := 0;
    var i := 0;
    while i < |digest|
      invariant 0 <= i <= |digest| && bufLen == 2 * i
      invariant 0 < i ==> 2 * i < buf.Length
      invariant buf[..bufLen] == Hex(digest[..i])
    {
      if bufLen + 2 >= buf.Length {
        return 0;
      }
      HexStep(digest, i);
      PrintHexPair(buf, bufLen, digest[i]);
      i, bufLen := i + 1, bufLen + 2;
    }
    assert digest[..i] == digest;
    buf[bufLen] := NUL;
    len := bufLen;
  }

  /** The encoding loop exactly as written, reduced to what it writes: the guard
      `buf_len >= buffer_size - 2` is evaluated in size_t arithmetic. True when
      iteration `i` onward writes a byte at or beyond `bufferSize`. */
  function AsWrittenOverruns(n: nat, bufferSize: nat, i: nat): bool
    requires bufferSize < SIZE_T_MODULUS
    decreases n - i
  {
    if i >= n then 2 * i + 1 > bufferSize    // hash_buffer[buf_len] = '\0'
    else if 2 * i >= (bufferSize - 2) % SIZE_T_MODULUS then false    // return 0
    else 2 * i + 3 > bufferSize || AsWrittenOverruns(n, bufferSize, i + 1)
  }

  /** For a one-byte buffer the wrapped-around guard lets the first sprintf write
      three bytes. */
  lemma AsWrittenOverrunsOneByteBuffer()
    ensures AsWrittenOverruns(1, 1, 0)
  {
  }

  /** From two bytes up the guard as written never lets a write past the buffer. */
  lemma {:induction false} AsWrittenSafeFromTwo(n: nat, bufferSize: nat, i: nat)
    requires 2 <= bufferSize < SIZE_T_MODULUS
    requires 2 * i + 1 <= bufferSize
    ensures !AsWrittenOverruns(n, bufferSize, i)
    decreases n - i
  {
    if i < n && 2 * i < bufferSize - 2 {
      AsWrittenSafeFromTwo(n, bufferSize, i + 1);
    }
  }
}
