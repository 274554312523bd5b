/**
 * java.util.Base64's basic (RFC 4648 section 4) encoder, and the set of
 * strings its basic decoder accepts.  The attachment model uses the decoder
 * to validate content and the encoder to build content from bytes.
 */
module Base64 {
  type Byte = n: int | 0 <= n < 256

  predicate IsBase64Char(c: char)
  {
    'A' <= c <= 'Z' || 'a' <= c <= 'z' || '0' <= c <= '9' || c == '+' || c == '/'
  }

  /** The alphabet of RFC 4648 section 4, Table 1. */
  function Sextet(n: nat): (c: char)
    requires n < 64
    ensures IsBase64Char(c)
  {
    if n < 26 then ('A' as int + n) as char
    else if n < 52 then ('a' as int + (n - 26)) as char
    else if n < 62 then ('0' as int + (n - 52)) as char
    else if n == 62 then '+'
    else '/'
  }

  /** The number of '=' characters the decoder treats as padding at the end of s. */
  function PaddingLength(s: string): nat
  {
    if |s| >= 2 && s[|s| - 2] == '=' && s[|s| - 1] == '=' then 2
    else if |s| >= 1 && s[|s| - 1] == '=' then 1
    else 0
  }

  /**
   * Base64.getDecoder().decode(s) returns without throwing: every character
   * before the padding is in the alphabet, and the padding fits the length of
   * the last unit (no padding leaves 0, 2 or 3 characters in it; "=" needs 3;
   * "==" needs 2).  The decoder does not insist on padding, and does not check
   * that unused trailing bits are zero.
   */
  predicate DecoderAccepts(s: string)
  {
    var pad := PaddingLength(s);
    var body := s[..|s| - pad];
    (forall i | 0 <= i < |body| :: IsBase64Char(body[i]))
    && (if pad == 0 then |body| % 4 != 1 else if pad == 1 then |body| % 4 == 3 else |body| % 4 == 2)
  }

  /** Base64.getEncoder().encodeToString(data): three bytes to four characters, padded with '='. */
  function Encode(data: seq<Byte>): (r: string)
    decreases |data|
  {
    if |data| == 0 then ""
    else if |data| == 1 then
      [Sextet(data[0] / 4), Sextet((data[0] % 4) * 16)] + "=="
    else if |data| == 2 then
      [Sextet(data[0] / 4), Sextet((data[0] % 4) * 16 + data[1] / 16), Sextet((data[1] % 16) * 4)] + "="
    else
      [Sextet(data[0] / 4), Sextet((data[0] % 4) * 16 + data[1] / 16),
       Sextet((data[1] % 16) * 4 + data[2] / 64), Sextet(data[2] % 64)] + Encode(data[3..])
  }

  /** Length of the alphabet part of Encode(data) and the padding after it. */
  function EncodedBodyLength(n: nat): nat
  {
    4 * (n / 3) + (if n % 3 == 0 then 0 else if n % 3 == 1 then 2 else 3)
  }

  /** Every three bytes become four characters, and a partial group is padded to four. */
  lemma {:induction false} EncodeLength(data: seq<Byte>)
    ensures |Encode(data)| == 4 * ((|data| + 2) / 3)
    decreases |data|
  {
    if |data| >= 3 {
      EncodeLength(data[3..]);
    }
  }

  /** The encoding is alphabet characters followed only by '=' padding. */
  lemma {:induction false} EncodeShape(data: seq<Byte>)
    ensures EncodedBodyLength(|data|) <= |Encode(data)|
    ensures forall i | 0 <= i < EncodedBodyLength(|data|) :: IsBase64Char(Encode(data)[i])
    ensures forall i | EncodedBodyLength(|data|) <= i < |Encode(data)| :: Encode(data)[i] == '='
    decreases |data|
  {
    EncodeLength(data);
    if |data| >= 3 {
      EncodeShape(data[3..]);
      var e, rest := Encode(data), Encode(data[3..]);
      assert e[4..] == rest;
      assert EncodedBodyLength(|data|) == 4 + EncodedBodyLength(|data| - 3);
      forall i | 4 <= i < |e|
        ensures e[i] == rest[i - 4]
      {
      }
    }
  }

  /** The padding the encoder adds to the last group is padding the decoder accepts. */
  lemma PaddingFits(m: nat)
    ensures var n, len := EncodedBodyLength(m), 4 * ((m + 2) / 3);
      n <= len <= n + 2
      && (len - n != 0 || n % 4 != 1) && (len - n != 1 || n % 4 == 3) && (len - n != 2 || n % 4 == 2)
  {
    var k := m / 3;
    assert m == 3 * k + m % 3;
    if m % 3 == 0 {
      assert (m + 2) / 3 == k;
    } else {
      assert (m + 2) / 3 == k + 1;
    }
  }

  /** A string of alphabet characters followed by padding that fits its length is accepted. */
  lemma PaddedAccepted(s: string, n: nat)
    requires n <= |s| <= n + 2
    requires forall i | 0 <= i < n :: IsBase64Char(s[i])
    requires forall i | n <= i < |s| :: s[i] == '='
    requires (|s| - n != 0 || n % 4 != 1) && (|s| - n != 1 || n % 4 == 3) && (|s| - n != 2 || n % 4 == 2)
    ensures DecoderAccepts(s)
  {
    assert PaddingLength(s) == |s| - n;
    assert s[..|s| - PaddingLength(s)] == s[..n];
  }

  /** Whatever the encoder produces, the decoder accepts. */
  lemma EncodeAccepted(data: seq<Byte>)
    ensures DecoderAccepts(Encode(data))
  {
    EncodeLength(data);
    EncodeShape(data);
    PaddingFits(|data|);
    PaddedAccepted(Encode(data), EncodedBodyLength(|data|));
  }

  lemma EncodeExample()
    ensures Encode([77, 97, 110]) == "TWFu"
    ensures Encode([77, 97]) == "TWE="
    ensures Encode([77]) == "TQ=="
  {
    assert Sextet(19) == 'T' && Sextet(22) == 'W' && Sextet(5) == 'F' && Sextet(46) == 'u';
    assert Sextet(4) == 'E' && Sextet(16) == 'Q';
    assert [77, 97, 110][3..] == [];
  }

  /** Inputs the decoder refuses: a dangling single character, padding in the wrong place, a character outside the alphabet. */
  lemma DecoderRejects()
    ensures !DecoderAccepts("A")
    ensures !DecoderAccepts("AB=")
    ensures !DecoderAccepts("A===")
    ensures !DecoderAccepts("TWFu=")
    ensures !DecoderAccepts("TW Fu")
    ensures DecoderAccepts("TWE")
    ensures DecoderAccepts("")
  {
    assert "TW Fu"[..5][2] == ' ';
    assert "A==="[..2][1] == '=';
  }
}
