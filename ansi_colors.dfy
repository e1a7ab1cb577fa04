/// The colour table of the in-GUI console (ANSI_COLOR_MAP in ImGuiConsoleManager.h)
/// and the recogniser for one escape sequence of the shape ESC '[' (digit | ';')* 'm',
/// the pattern the console uses to find SGR ("Select Graphic Rendition") codes
/// as defined in section 8.3.117 of ECMA-48.
module AnsiColors {

  const ESC: char := '\U{1B}'

  /** One token per entry of ANSI_COLOR_MAP; the GUI colour values behind them are not modelled. */
  datatype Colour =
    | Red | Green | Yellow | Blue | Magenta | Cyan | White
    | PastelRed | PastelGreen | PastelYellow | PastelBlue | PastelMagenta | PastelCyan | PastelPurple
    | Reset

  /** ANSI_COLOR_MAP: the escape sequences the GUI console recognises, keyed by their exact text. */
  const ColorMap: map<string, Colour> := map[
    "\U{1B}[31m" := Red,
    "\U{1B}[32m" := Green,
    "\U{1B}[33m" := Yellow,
    "\U{1B}[34m" := Blue,
    "\U{1B}[35m" := Magenta,
    "\U{1B}[36m" := Cyan,
    "\U{1B}[37m" := White,
    "\U{1B}[38;5;210m" := PastelRed,
    "\U{1B}[38;5;150m" := PastelGreen,
    "\U{1B}[38;5;229m" := PastelYellow,
    "\U{1B}[38;5;147m" := PastelBlue,
    "\U{1B}[38;5;183m" := PastelMagenta,
    "\U{1B}[38;5;159m" := PastelCyan,
    "\U{1B}[38;5;141m" := PastelPurple,
    "\U{1B}[0m" := Reset
  ]

  /** The escape sequence the table gives for a colour token: the table read backwards. */
  function CodeOf(c: Colour): (code: string)
    ensures code in ColorMap && ColorMap[code] == c
  {
    match c
    case Red => "\U{1B}[31m"
    case Green => "\U{1B}[32m"
    case Yellow => "\U{1B}[33m"
    case Blue => "\U{1B}[34m"
    case Magenta => "\U{1B}[35m"
    case Cyan => "\U{1B}[36m"
    case White => "\U{1B}[37m"
    case PastelRed => "\U{1B}[38;5;210m"
    case PastelGreen => "\U{1B}[38;5;150m"
    case PastelYellow => "\U{1B}[38;5;229m"
    case PastelBlue => "\U{1B}[38;5;147m"
    case PastelMagenta => "\U{1B}[38;5;183m"
    case PastelCyan => "\U{1B}[38;5;159m"
    case PastelPurple => "\U{1B}[38;5;141m"
    case Reset => "\U{1B}[0m"
  }

  /** No two keys of the table share a colour token: reading it backwards gives the key back. */
  lemma CodeOfRoundTrip(code: string)
    requires code in ColorMap
    ensures CodeOf(ColorMap[code]) == code
  {
  }

  /** A character the pattern admits between '[' and 'm'. */
  predicate IsParamChar(c: char) {
    '0' <= c <= '9' || c == ';'
  }

  /** t is, as a whole, one match of the pattern ESC '[' [0-9;]* 'm'. */
  predicate IsSgr(t: string) {
    |t| >= 3 && t[0] == ESC && t[1] == '[' && t[|t| - 1] == 'm' &&
    forall k :: 2 <= k < |t| - 1 ==> IsParamChar(t[k])
  }

  /** The end of the run of parameter characters in s that starts at position j. */
  function ParamEnd(s: string, j: nat): (e: nat)
    requires j <= |s|
    ensures j <= e <= |s|
    decreases |s| - j
  {
    if j < |s| && IsParamChar(s[j]) then ParamEnd(s, j + 1) else j
  }

  /** The run from j holds parameter characters only and stops at the first other character. */
  lemma {:induction false} ParamEndSpec(s: string, j: nat)
    requires j <= |s|
    ensures forall k :: j <= k < ParamEnd(s, j) ==> IsParamChar(s[k])
    ensures ParamEnd(s, j) < |s| ==> !IsParamChar(s[ParamEnd(s, j)])
    decreases |s| - j
  {
    if j < |s| && IsParamChar(s[j]) {
      ParamEndSpec(s, j + 1);
    }
  }

  /** The run from j is determined by the two facts that characterise it. */
  lemma {:induction false} ParamEndIs(s: string, j: nat, e: nat)
    requires j <= e <= |s|
    requires forall k :: j <= k < e ==> IsParamChar(s[k])
    requires e < |s| ==> !IsParamChar(s[e])
    ensures ParamEnd(s, j) == e
    decreases |s| - j
  {
    if j < e {
      ParamEndIs(s, j + 1, e);
    }
  }

  /**
   * Length of the escape sequence that starts at position i of s, or 0 when
   * no match of the pattern starts there.
   */
  function SgrLenAt(s: string, i: nat): (n: nat)
    requires i <= |s|
    ensures i + n <= |s|
  {
    if i + 2 <= |s| && s[i] == ESC && s[i + 1] == '[' then
      var e := ParamEnd(s, i + 2);
      if e < |s| && s[e] == 'm' then e + 1 - i else 0
    else 0
  }

  /** A stretch of s from i is a whole match exactly when it is the one SgrLenAt finds. */
  lemma SgrLenExact(s: string, i: nat, m: nat)
    requires 0 < m && i + m <= |s|
    ensures IsSgr(s[i..i + m]) <==> m == SgrLenAt(s, i)
  {
    var t := s[i..i + m];
    assert forall k :: 0 <= k < m ==> t[k] == s[i + k];
    if IsSgr(t) {
      assert forall k :: i + 2 <= k < i + m - 1 ==> IsParamChar(s[k]) by {
        forall k | i + 2 <= k < i + m - 1 ensures IsParamChar(s[k]) {
          assert s[k] == t[k - i];
        }
      }
      ParamEndIs(s, i + 2, i + m - 1);
    }
    if m == SgrLenAt(s, i) {
      ParamEndSpec(s, i + 2);
    }
  }

  /** Text placed before s shifts the run of parameter characters and nothing else. */
  lemma {:induction false} ParamEndShift(p: string, s: string, j: nat)
    requires j <= |s|
    ensures ParamEnd(p + s, |p| + j) == |p| + ParamEnd(s, j)
    decreases |s| - j
  {
    if j < |s| {
      assert (p + s)[|p| + j] == s[j];
      if IsParamChar(s[j]) {
        ParamEndShift(p, s, j + 1);
      }
    }
  }

  /** Text placed before s does not change the match found at a position of s. */
  lemma SgrLenShift(p: string, s: string, i: nat)
    requires i <= |s|
    ensures SgrLenAt(p + s, |p| + i) == SgrLenAt(s, i)
  {
    var ps := p + s;
    if i + 2 <= |s| {
      assert ps[|p| + i] == s[i] && ps[|p| + i + 1] == s[i + 1];
      ParamEndShift(p, s, i + 2);
      var e := ParamEnd(s, i + 2);
      if e < |s| {
        assert ps[|p| + e] == s[e];
      }
    }
  }

  /** Text appended after a[j..] does not change the run from j when it starts with a non-parameter character. */
  lemma {:induction false} ParamEndAppend(a: string, t: string, j: nat)
    requires j <= |a| && t != [] && !IsParamChar(t[0])
    ensures ParamEnd(a + t, j) == ParamEnd(a, j)
    decreases |a| - j
  {
    if j < |a| {
      assert (a + t)[j] == a[j];
      if IsParamChar(a[j]) {
        ParamEndAppend(a, t, j + 1);
      }
    } else {
      assert (a + t)[j] == t[0];
    }
  }

  /** A match found at a position inside a cannot reach into text that starts with ESC. */
  lemma SgrLenAppend(a: string, t: string, i: nat)
    requires i < |a| && t != [] && t[0] == ESC
    ensures SgrLenAt(a + t, i) == SgrLenAt(a, i)
  {
    var s := a + t;
    assert s[i] == a[i];
    if i + 1 == |a| {
      assert s[i + 1] == t[0];
    } else {
      assert s[i + 1] == a[i + 1];
      if a[i] == ESC && a[i + 1] == '[' {
        ParamEndAppend(a, t, i + 2);
        var e := ParamEnd(a, i + 2);
        if e < |a| {
          assert s[e] == a[e];
        } else {
          assert s[e] == t[0];
        }
      }
    }
  }

  /** Every key of the colour table is itself one whole match of the pattern. */
  lemma KeysAreSgr(code: string)
    requires code in ColorMap
    ensures IsSgr(code)
  {
  }

  /** When s starts with a whole escape sequence, that sequence is the match found there. */
  lemma SgrLenOfCode(code: string, rest: string)
    requires IsSgr(code)
    ensures SgrLenAt(code + rest, 0) == |code|
  {
    assert (code + rest)[0..|code|] == code;
    SgrLenExact(code + rest, 0, |code|);
  }

  /**
   * The regex scan of ParseAnsiColors at position i: the length of the escape
   * sequence starting at s[i], or 0 when none starts there.
   */
  method MatchSgr(s: string, i: nat) returns (n: nat)
    requires i <= |s|
    ensures n == SgrLenAt(s, i) && i + n <= |s|
  {
    n := 0;
    if i + 2 <= |s| && s[i] == ESC && s[i + 1] == '[' {
      var k := i + 2;
      while k < |s| && IsParamChar(s[k])
        invariant i + 2 <= k <= |s|
        invariant ParamEnd(s, k) == ParamEnd(s, i + 2)
      {
        k := k + 1;
      }
      if k < |s| && s[k] == 'm' {
        n := k + 1 - i;
      }
    }
  }
}
