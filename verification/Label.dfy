/** The volume label: UTF-8 truncated to a fixed buffer on a character boundary. */
module Label {
  import opened Bytes

  const VOLUME_ID_MAX: nat := 33

  // ------------------------------------------------------- RFC 3629, section 4

  predicate IsTail(b: byte) {
    0x80 <= b <= 0xbf
  }

  /** How many tail bytes a first byte calls for; 4 for one that starts nothing. */
  function Tails(b: byte): nat {
    if b <= 0x7f then 0
    else if 0xc2 <= b <= 0xdf then 1
    else if 0xe0 <= b <= 0xef then 2
    else if 0xf0 <= b <= 0xf4 then 3
    else 4
  }

  /** The narrower range of the second byte behind four of the first bytes. */
  predicate SecondFits(first: byte, second: byte) {
    && (first == 0xe0 ==> 0xa0 <= second)
    && (first == 0xed ==> second <= 0x9f)
    && (first == 0xf0 ==> 0x90 <= second)
    && (first == 0xf4 ==> second <= 0x8f)
  }

  predicate StartsWithChar(s: seq<byte>) {
    && s != [] && Tails(s[0]) < 4 && Tails(s[0]) < |s|
    && (forall i | 1 <= i <= Tails(s[0]) :: IsTail(s[i]))
    && (Tails(s[0]) > 0 ==> SecondFits(s[0], s[1]))
  }

  predicate WellFormed(s: seq<byte>) {
    s == [] || (StartsWithChar(s) && WellFormed(s[1 + Tails(s[0])..]))
  }

  /** The octets of a character (RFC 3629, section 3). */
  function Octets(c: nat): (s: seq<byte>)
    requires c < 0x11_0000
  {
    if c < 0x80 then [c]
    else if c < 0x800 then [0xc0 + c / 0x40, 0x80 + c % 0x40]
    else if c < 0x1_0000 then [0xe0 + c / 0x1000, 0x80 + c / 0x40 % 0x40, 0x80 + c % 0x40]
    else [0xf0 + c / 0x4_0000, 0x80 + c / 0x1000 % 0x40, 0x80 + c / 0x40 % 0x40, 0x80 + c % 0x40]
  }

  /** A Unicode scalar value: no surrogate. */
  predicate Scalar(c: nat) {
    c < 0xd800 || 0xe000 <= c < 0x11_0000
  }

  function Text(chars: seq<nat>): seq<byte>
    requires forall i | 0 <= i < |chars| :: Scalar(chars[i])
  {
    if chars == [] then []
    else
      assert Scalar(chars[0]);
      Octets(chars[0]) + Text(chars[1..])
  }

  lemma OctetsAreOneChar(c: nat, rest: seq<byte>)
    requires Scalar(c)
    ensures var s := Octets(c) + rest; StartsWithChar(s) && 1 + Tails(s[0]) == |Octets(c)|
  {
  }

  /** So text in any script is well formed. */
  lemma {:induction false} TextIsWellFormed(chars: seq<nat>)
    requires forall i | 0 <= i < |chars| :: Scalar(chars[i])
    ensures WellFormed(Text(chars))
  {
    if chars != [] {
      TextIsWellFormed(chars[1..]);
      OctetsAreOneChar(chars[0], Text(chars[1..]));
      assert Text(chars)[|Octets(chars[0])|..] == Text(chars[1..]);
    }
  }

  /** A prefix of well-formed UTF-8 is well formed exactly when the byte behind it
      does not continue a character. */
  lemma {:induction false} PrefixWellFormed(s: seq<byte>, n: nat)
    requires WellFormed(s) && n <= |s|
    ensures WellFormed(s[..n]) <==> n == |s| || !IsTail(s[n])
    decreases |s|
  {
    if n == |s| {
      assert s[..n] == s;
    } else if n > 0 {
      var size := 1 + Tails(s[0]);
      if n < size {
        assert s[..n][0] == s[0];
      } else {
        PrefixWellFormed(s[size..], n - size);
        assert s[..n][size..] == s[size..][..n - size];
        assert StartsWithChar(s[..n]);
        assert n < |s| ==> s[n] == s[size..][n - size];
      }
    }
  }

  // ---------------------------------------------------------------- the cut

  /** Left from `n` to a byte that does not continue a character. */
  function Back(s: seq<byte>, n: nat): (cut: nat)
    requires n < |s|
    ensures cut <= n && (cut > 0 ==> !IsTail(s[cut]))
    ensures forall i | cut < i <= n :: IsTail(s[i])
  {
    if n > 0 && IsTail(s[n]) then Back(s, n - 1) else n
  }

  /** Where a label is cut. */
  function Cut(s: seq<byte>): (cut: nat)
    ensures cut <= |s| && cut < VOLUME_ID_MAX
  {
    if |s| > VOLUME_ID_MAX - 1 then Back(s, VOLUME_ID_MAX - 1) else |s|
  }

  /** What is kept of well-formed UTF-8 is well formed, and nothing longer that
      fits the buffer is. */
  lemma CutIsLongest(s: seq<byte>)
    requires WellFormed(s)
    ensures WellFormed(s[..Cut(s)])
    ensures Cut(s) <= 32 && forall n | Cut(s) < n <= 32 && n <= |s| :: !WellFormed(s[..n])
  {
    PrefixWellFormed(s, Cut(s));
    forall n | Cut(s) < n < VOLUME_ID_MAX && n <= |s|
      ensures !WellFormed(s[..n])
    {
      PrefixWellFormed(s, n);
    }
  }

  /** A terminated string in a buffer. */
  predicate IsString(buffer: seq<byte>, text: seq<byte>) {
    |text| < |buffer| && buffer[..|text|] == text && buffer[|text|] == 0 && 0 !in text
  }

  /** copy_volume_id(). */
  method CopyVolumeId(dst: array<byte>, src: array<byte>, ghost text: seq<byte>)
    requires dst != src && dst.Length == 33 && IsString(src[..], text)
    modifies dst
    ensures IsString(dst[..], text[..Cut(text)])
    ensures WellFormed(text) ==>
      && WellFormed(text[..Cut(text)])
      && forall n | Cut(text) < n <= 32 && n <= |text| :: !WellFormed(text[..n])
  {
    var len: nat := Strlen(src, text);
    if len > VOLUME_ID_MAX - 1 {
      len := VOLUME_ID_MAX - 1;
      while len > 0 && IsTail(src[len])
        invariant len < |text| && len < VOLUME_ID_MAX
        invariant Back(text, VOLUME_ID_MAX - 1) == Back(text, len)
      {
        assert src[len] == src[..][len] == text[len];
        len := len - 1;
      }
      assert src[len] == src[..][len] == text[len];
    }
    assert forall k | 0 <= k < len :: src[k] == text[k];
    forall k | 0 <= k < len {
      dst[k] := src[k];
    }
    dst[len] := 0;
    assert dst[..][..len] == text[..len];
    if WellFormed(text) { CutIsLongest(text); }
  }

  method Strlen(src: array<byte>, ghost text: seq<byte>) returns (len: nat)
    requires IsString(src[..], text)
    ensures len == |text|
  {
    len := 0;
    while src[len] != 0
      invariant len <= |text|
      invariant src[len] == 0 ==> len == |text|
      decreases |text| - len
    {
      assert len < |text|;
      len := len + 1;
      assert len < |text| ==> src[len] == src[..][len] == text[len] && text[len] in text;
    }
  }
}
