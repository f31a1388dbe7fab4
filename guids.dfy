/** A .NET `Guid` as its 128-bit value, and `Guid.ToString()`: 32 lower-case hex
    digits grouped 8-4-4-4-12 by hyphens. The listener stores a tenured asset's id
    in a tenure summary in this textual form. */
module Guids {
  import opened NumberText

  const GuidBound: nat := 0x1_0000_0000_0000_0000_0000_0000_0000_0000

  type Guid = g: nat | g < GuidBound

  function HexDigits(g: Guid): (s: string)
    ensures |s| == 32 && AllDigits(s, 16)
  {
    Pad(g, 32, 16)
  }

  /** `g.ToString()`, the default "D" format. */
  function GuidToString(g: Guid): (s: string)
    ensures |s| == 36
    ensures s[8] == '-' && s[13] == '-' && s[18] == '-' && s[23] == '-'
  {
    var h := HexDigits(g);
    h[..8] + "-" + h[8..12] + "-" + h[12..16] + "-" + h[16..20] + "-" + h[20..]
  }

  /** Dropping the four hyphens recovers the digits. */
  function StripHyphens(s: string): string
    requires |s| == 36
  {
    s[..8] + s[9..13] + s[14..18] + s[19..23] + s[24..]
  }

  lemma {:induction false} PowAdd(b: nat, m: nat, n: nat)
    ensures Pow(b, m + n) == Pow(b, m) * Pow(b, n)
  {
    if m > 0 {
      PowAdd(b, m - 1, n);
      assert Pow(b, m + n) == b * Pow(b, m - 1 + n);
    }
  }

  lemma Pow16To32()
    ensures Pow(16, 32) == GuidBound
  {
    assert Pow(16, 4) == 0x1_0000;
    PowAdd(16, 4, 4);
    PowAdd(16, 8, 8);
    PowAdd(16, 16, 16);
  }

  lemma StripGuidText(g: Guid)
    ensures StripHyphens(GuidToString(g)) == HexDigits(g)
  {
    var h := HexDigits(g);
    var s := GuidToString(g);
    assert s[..8] == h[..8];
    assert s[9..13] == h[8..12];
    assert s[14..18] == h[12..16];
    assert s[19..23] == h[16..20];
    assert s[24..] == h[20..];
    assert h == h[..8] + h[8..12] + h[12..16] + h[16..20] + h[20..];
  }

  /** Distinct Guids print differently: the text determines the value. */
  lemma GuidToStringInjective(a: Guid, b: Guid)
    requires GuidToString(a) == GuidToString(b)
    ensures a == b
  {
    var ha, hb := HexDigits(a), HexDigits(b);
    StripGuidText(a);
    StripGuidText(b);
    Pow16To32();
    ValueOfPad(a, 32, 16);
    ValueOfPad(b, 32, 16);
  }
}
