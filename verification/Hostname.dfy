/** The host name rule ^[a-z0-9]([a-z0-9-]{0,61}[a-z0-9])?$. */
module Hostname {
  predicate IsAlnum(c: char) {
    'a' <= c <= 'z' || '0' <= c <= '9'
  }

  predicate IsValid(h: string) {
    && 0 < |h| <= 63
    && IsAlnum(h[0]) && IsAlnum(h[|h| - 1])
    && forall i :: 0 < i < |h| - 1 ==> IsAlnum(h[i]) || h[i] == '-'
  }

  /** Valid host names are made of letters, digits and hyphens only. */
  lemma Characters(h: string)
    requires IsValid(h)
    ensures forall i :: 0 <= i < |h| ==> IsAlnum(h[i]) || h[i] == '-'
  {
  }

  predicate AreInner(s: string) {
    forall i :: 0 <= i < |s| ==> IsAlnum(s[i]) || s[i] == '-'
  }

  /** The rule reads as its pattern: one letter or digit, or two of them around at most 61 that may also be hyphens. */
  lemma ValidExactly(h: string)
    ensures IsValid(h) <==>
              || (exists c :: IsAlnum(c) && h == [c])
              || (exists c, inner, d :: IsAlnum(c) && IsAlnum(d) && AreInner(inner) && |inner| <= 61 && h == [c] + inner + [d])
  {
    if IsValid(h) {
      if |h| == 1 {
        assert h == [h[0]];
      } else {
        var inner := h[1..|h| - 1];
        assert AreInner(inner) && h == [h[0]] + inner + [h[|h| - 1]];
      }
    }
  }
}
