/**
 The separator swap that `format_brl` applies to an en-US rendering of an
 amount ("R$ 1,234.56") to obtain the Brazilian form ("R$ 1.234,56").
 */
module Currency {

  /** `s.replace(from, to)` for single characters: every occurrence is replaced. */
  function ReplaceChar(s: string, from: char, to: char): (t: string)
    ensures |t| == |s|
    ensures forall i :: 0 <= i < |s| ==> t[i] == if s[i] == from then to else s[i]
  {
    if s == [] then [] else [if s[0] == from then to else s[0]] + ReplaceChar(s[1..], from, to)
  }

  /** The three chained replacements: ',' to 'X', then '.' to ',', then 'X' to '.'. */
  function SwapSeparators(s: string): string {
    ReplaceChar(ReplaceChar(ReplaceChar(s, ',', 'X'), '.', ','), 'X', '.')
  }

  /** The exchange of the two separators character by character. */
  function Exchanged(c: char): char {
    if c == ',' then '.' else if c == '.' then ',' else c
  }

  /**
   On text without an 'X' (every rendering of a number is such a text) the
   three replacements exchange ',' and '.' and leave every other character.
   */
  lemma SwapExchangesSeparators(s: string)
    requires 'X' !in s
    ensures |SwapSeparators(s)| == |s|
    ensures forall i :: 0 <= i < |s| ==> SwapSeparators(s)[i] == Exchanged(s[i])
  {
    forall i | 0 <= i < |s| ensures SwapSeparators(s)[i] == Exchanged(s[i]) {
      assert s[i] != 'X';
    }
  }

  /** Swapping twice restores an 'X'-free text. */
  lemma SwapTwiceRestores(s: string)
    requires 'X' !in s
    ensures SwapSeparators(SwapSeparators(s)) == s
  {
    SwapExchangesSeparators(s);
    var t := SwapSeparators(s);
    assert 'X' !in t by {
      forall i | 0 <= i < |t| ensures t[i] != 'X' {
        assert s[i] != 'X';
      }
    }
    SwapExchangesSeparators(t);
  }
}
