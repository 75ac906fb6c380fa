/** The display prefix of an API key: at most eleven UTF-8 bytes of the secret, cut at a character
    boundary (section 3 of RFC 3629). */
module KeyPrefix {

  type Byte = b: int | 0 <= b < 256

  const KEY_PREFIX := "ak_"
  const PREFIX_BYTES: nat := 11

  function EncodeChar(c: char): (bytes: seq<Byte>)
    ensures 1 <= |bytes| <= 4
    ensures !Continuation(bytes[0]) && forall i :: 1 <= i < |bytes| ==> Continuation(bytes[i])
  {
    var n := c as int;
    if n < 0x80 then [n]
    else if n < 0x800 then [0xC0 + n / 0x40, 0x80 + n % 0x40]
    else if n < 0x10000 then [0xE0 + n / 0x1000, 0x80 + n / 0x40 % 0x40, 0x80 + n % 0x40]
    else [0xF0 + n / 0x40000, 0x80 + n / 0x1000 % 0x40, 0x80 + n / 0x40 % 0x40, 0x80 + n % 0x40]
  }

  /** The scalar value that the first bytes encode: the payload bits of the lead byte, then six of each other. */
  function DecodeFirst(bytes: seq<Byte>): int
    requires bytes != []
  {
    var b := bytes[0];
    if b < 0xC0 then b
    else if b < 0xE0 && |bytes| >= 2 then (b - 0xC0) * 0x40 + Payload(bytes[1])
    else if b < 0xF0 && |bytes| >= 3 then ((b - 0xE0) * 0x40 + Payload(bytes[1])) * 0x40 + Payload(bytes[2])
    else if |bytes| >= 4 then
      (((b - 0xF0) * 0x40 + Payload(bytes[1])) * 0x40 + Payload(bytes[2])) * 0x40 + Payload(bytes[3])
    else -1
  }

  function Payload(b: Byte): int {
    b - 0x80
  }

  /** Decoding gives the character back, whatever bytes follow it. */
  lemma DecodeRoundTrip(c: char, rest: seq<Byte>)
    ensures DecodeFirst(EncodeChar(c) + rest) == c as int
  {
    var n := c as int;
    assert n < 0x110000;
    var bytes := EncodeChar(c) + rest;
    assert forall i :: 0 <= i < |EncodeChar(c)| ==> bytes[i] == EncodeChar(c)[i];
    if n < 0x80 {
    } else if n < 0x800 {
      assert bytes[0] < 0xE0;
    } else if n < 0x10000 {
      assert bytes[0] < 0xF0 && n / 0x40 / 0x40 == n / 0x1000;
    } else {
      Quotients(n);
    }
  }

  lemma Quotients(n: nat)
    ensures ((n / 0x40000 * 0x40 + n / 0x1000 % 0x40) * 0x40 + n / 0x40 % 0x40) * 0x40 + n % 0x40 == n
  {
    assert n / 0x40 / 0x40 == n / 0x1000 && n / 0x1000 / 0x40 == n / 0x40000;
  }

  predicate Continuation(b: Byte) {
    0x80 <= b < 0xC0
  }

  function Utf8(s: string): seq<Byte> {
    if s == [] then [] else EncodeChar(s[0]) + Utf8(s[1..])
  }

  predicate IsCharBoundary(bytes: seq<Byte>, i: nat) {
    i == 0 || i == |bytes| || (i < |bytes| && !Continuation(bytes[i]))
  }

  /** Number of leading characters whose encoding fits in `budget` bytes. */
  function Fitting(s: string, budget: nat): (k: nat)
    ensures k <= |s|
  {
    if s == [] || |EncodeChar(s[0])| > budget then 0
    else 1 + Fitting(s[1..], budget - |EncodeChar(s[0])|)
  }

  function PrefixOf(secret: string): (prefix: string)
    ensures prefix <= secret
  {
    secret[..Fitting(secret, PREFIX_BYTES)]
  }

  /** The fitting characters are exactly those whose cumulated encoding is within the budget. */
  lemma {:induction false} FittingIsLongest(s: string, budget: nat, k: nat)
    requires k <= |s|
    ensures |Utf8(s[..k])| <= budget <==> k <= Fitting(s, budget)
    decreases |s|
  {
    if k > 0 {
      assert s[..k][1..] == s[1..][..k - 1];
      var n := |EncodeChar(s[0])|;
      if n <= budget {
        FittingIsLongest(s[1..], budget - n, k - 1);
      }
    }
  }

  lemma {:induction false} Utf8Split(s: string, k: nat)
    requires k <= |s|
    ensures Utf8(s) == Utf8(s[..k]) + Utf8(s[k..])
    decreases k
  {
    if k == 0 {
      assert s[..0] == [] && s[0..] == s;
    } else {
      assert s[1..][..k - 1] == s[..k][1..] && s[1..][k - 1..] == s[k..];
      Utf8Split(s[1..], k - 1);
    }
  }

  /** Every boundary of the bytes is the end of some number of whole characters. */
  lemma {:induction false} BoundaryIsCharacterCount(s: string, i: nat) returns (k: nat)
    requires i <= |Utf8(s)| && IsCharBoundary(Utf8(s), i)
    ensures k <= |s| && |Utf8(s[..k])| == i && Utf8(s)[..i] == Utf8(s[..k])
    decreases |s|
  {
    if i == 0 {
      k := 0;
    } else {
      var first, tail := EncodeChar(s[0]), Utf8(s[1..]);
      assert Utf8(s) == first + tail;
      assert i >= |first|;
      var j := i - |first|;
      assert IsCharBoundary(tail, j) by {
        if 0 < j < |tail| { assert Utf8(s)[i] == tail[j]; }
      }
      var k' := BoundaryIsCharacterCount(s[1..], j);
      k := k' + 1;
      assert s[..k][1..] == s[1..][..k'];
      Utf8Split(s, k);
    }
  }

  /** Whole characters end at a boundary. */
  lemma CharacterCountIsBoundary(s: string, k: nat)
    requires k <= |s|
    ensures |Utf8(s[..k])| <= |Utf8(s)| && IsCharBoundary(Utf8(s), |Utf8(s[..k])|)
  {
    Utf8Split(s, k);
    if k < |s| {
      assert s[k..] != [];
      var i := |Utf8(s[..k])|;
      assert Utf8(s)[i] == Utf8(s[k..])[0] == EncodeChar(s[k])[0];
    } else {
      assert s[..k] == s;
    }
  }

  /** The byte loop yields the longest run of whole characters within eleven bytes, for every
      string: it never splits a character. */
  method DerivePrefix(secret: string) returns (prefix: seq<Byte>)
    ensures prefix == Utf8(PrefixOf(secret)) && |prefix| <= PREFIX_BYTES
    ensures forall k :: |PrefixOf(secret)| < k <= |secret| ==> |Utf8(secret[..k])| > PREFIX_BYTES
  {
    var bytes := Utf8(secret);
    var end := if PREFIX_BYTES < |bytes| then PREFIX_BYTES else |bytes|;
    while end > 0 && !IsCharBoundary(bytes, end)
      invariant 0 <= end <= PREFIX_BYTES && end <= |bytes|
      invariant forall i :: end < i <= PREFIX_BYTES && i <= |bytes| ==> !IsCharBoundary(bytes, i)
    {
      end := end - 1;
    }
    prefix := bytes[..end];
    ghost var n := Fitting(secret, PREFIX_BYTES);
    ghost var k := BoundaryIsCharacterCount(secret, end);
    FittingIsLongest(secret, PREFIX_BYTES, k);
    FittingIsLongest(secret, PREFIX_BYTES, n);
    CharacterCountIsBoundary(secret, n);
    PrefixesGrow(secret, k, n);
    forall m | |PrefixOf(secret)| < m <= |secret| ensures |Utf8(secret[..m])| > PREFIX_BYTES {
      FittingIsLongest(secret, PREFIX_BYTES, m);
    }
  }

  /** A longer run of characters has a strictly longer encoding. */
  lemma {:induction false} PrefixesGrow(s: string, j: nat, k: nat)
    requires j <= k <= |s|
    ensures |Utf8(s[..j])| + (k - j) <= |Utf8(s[..k])|
    decreases k
  {
    if j < k {
      PrefixesGrow(s, j, k - 1);
      Utf8Split(s[..k], k - 1);
      assert s[..k][..k - 1] == s[..k - 1] && s[..k][k - 1..] == [s[k - 1]];
      assert Utf8([s[k - 1]]) == EncodeChar(s[k - 1]) + Utf8([]);
    }
  }

  predicate IsHex(c: char) {
    '0' <= c <= '9' || 'a' <= c <= 'f'
  }

  /** A secret the store generates: `ak_` and 64 lowercase hexadecimal digits. */
  predicate IsGenerated(secret: string) {
    |secret| == 67 && "ak_" <= secret && forall i :: 3 <= i < 67 ==> IsHex(secret[i])
  }

  lemma {:induction false} AsciiFits(s: string, budget: nat)
    requires forall i :: 0 <= i < |s| ==> s[i] as int < 0x80
    ensures Fitting(s, budget) == (if budget < |s| then budget else |s|)
    decreases |s|
  {
    if s != [] && budget > 0 {
      AsciiFits(s[1..], budget - 1);
    }
  }

  /** A generated key is cut after eleven characters. */
  lemma GeneratedPrefix(secret: string)
    requires IsGenerated(secret)
    ensures PrefixOf(secret) == secret[..11]
  {
    forall i | 0 <= i < |secret| ensures secret[i] as int < 0x80 {
      if i < 3 { assert secret[i] == "ak_"[i]; }
    }
    AsciiFits(secret, PREFIX_BYTES);
  }
}
