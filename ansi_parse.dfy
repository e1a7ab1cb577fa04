/// ParseAnsiColors of ImGuiConsoleManager.h: a log line is cut into
/// (text, colour) segments at the escape sequences the colour table knows.
/// The specification has two stages: Tokens is the regex scan (whole matches
/// of the pattern, and the characters between them one by one), and
/// SegmentsOf groups the tokens into coloured segments, looking each match up
/// in the colour table. The lemmas below say what Parse means; the method
/// ParseAnsiColors is the source's loop, proved to compute Parse.
module AnsiParse {
  import opened AnsiColors

  /** One coloured piece of a log line. */
  datatype Segment = Segment(text: string, colour: Colour)

  /**
   * One step of the scan: a whole match of the pattern, or one character where
   * no match starts.
   */
  datatype Token = Match(text: string) | Plain(text: string)

  /** A match the colour table knows. */
  predicate IsCode(tok: Token) {
    tok.Match? && tok.text in ColorMap
  }

  /** The segment for pending text, or none when the text is empty. */
  function Emit(text: string, colour: Colour): seq<Segment> {
    if text == [] then [] else [Segment(text, colour)]
  }

  /** Length of the token at position i of s: a whole match, or else one character. */
  function TokenLen(s: string, i: nat): (k: nat)
    requires i < |s|
    ensures 0 < k && i + k <= |s|
  {
    var n := SgrLenAt(s, i);
    if n > 0 then n else 1
  }

  /** The token at position i of s. */
  function TokenAt(s: string, i: nat): Token
    requires i < |s|
  {
    var n := SgrLenAt(s, i);
    if n > 0 then Match(s[i..i + n]) else Plain(s[i..i + 1])
  }

  /** The scan of s from position i, token by token. */
  function TokensFrom(s: string, i: nat): seq<Token>
    requires i <= |s|
    decreases |s| - i
  {
    if i == |s| then [] else [TokenAt(s, i)] + TokensFrom(s, i + TokenLen(s, i))
  }

  /** The scan of the whole of s. */
  function Tokens(s: string): seq<Token> {
    TokensFrom(s, 0)
  }

  /**
   * The segments produced from tokens when pending text is waiting to be
   * emitted in the given colour: a known code closes the pending text and
   * switches colour, any other token is added to the pending text.
   */
  function SegmentsOf(pending: string, colour: Colour, toks: seq<Token>): seq<Segment>
    decreases |toks|
  {
    if toks == [] then Emit(pending, colour)
    else if IsCode(toks[0]) then Emit(pending, colour) + SegmentsOf([], ColorMap[toks[0].text], toks[1..])
    else SegmentsOf(pending + toks[0].text, colour, toks[1..])
  }

  /** The segments of s when parsing starts in the given colour. */
  function ParseIn(colour: Colour, s: string): seq<Segment> {
    SegmentsOf([], colour, Tokens(s))
  }

  /** ParseAnsiColors as a function: parsing starts in the RESET colour. */
  function Parse(s: string): seq<Segment> {
    ParseIn(Reset, s)
  }

  /** The text of the tokens that are not known codes, joined. */
  function TextOf(toks: seq<Token>): string
    decreases |toks|
  {
    if toks == [] then []
    else (if IsCode(toks[0]) then [] else toks[0].text) + TextOf(toks[1..])
  }

  /** The number of known codes among the tokens. */
  function CodesOf(toks: seq<Token>): nat
    decreases |toks|
  {
    if toks == [] then 0 else (if IsCode(toks[0]) then 1 else 0) + CodesOf(toks[1..])
  }

  /** The text of s with every known code removed and everything else kept as it is. */
  function Visible(s: string): string {
    TextOf(Tokens(s))
  }

  /** The number of known codes in s. */
  function CodeCount(s: string): nat {
    CodesOf(Tokens(s))
  }

  /** The texts of a list of segments, joined. */
  function Texts(segs: seq<Segment>): string {
    if segs == [] then [] else segs[0].text + Texts(segs[1..])
  }

  lemma {:induction false} TextsAppend(a: seq<Segment>, b: seq<Segment>)
    ensures Texts(a + b) == Texts(a) + Texts(b)
  {
    if a == [] {
      assert a + b == b;
    } else {
      assert (a + b)[0] == a[0];
      assert (a + b)[1..] == a[1..] + b;
      TextsAppend(a[1..], b);
    }
  }

  lemma {:induction false} SegmentsOfTexts(pending: string, colour: Colour, toks: seq<Token>)
    ensures Texts(SegmentsOf(pending, colour, toks)) == pending + TextOf(toks)
    decreases |toks|
  {
    if toks != [] {
      var rest := toks[1..];
      if IsCode(toks[0]) {
        var c := ColorMap[toks[0].text];
        TextsAppend(Emit(pending, colour), SegmentsOf([], c, rest));
        SegmentsOfTexts([], c, rest);
      } else {
        SegmentsOfTexts(pending + toks[0].text, colour, rest);
      }
    }
  }

  /** Joining the segment texts gives the input without its known codes; unknown sequences stay. */
  lemma ParseTexts(s: string)
    ensures Texts(Parse(s)) == Visible(s)
  {
    SegmentsOfTexts([], Reset, Tokens(s));
  }

  lemma {:induction false} SegmentsOfNonEmpty(pending: string, colour: Colour, toks: seq<Token>)
    ensures forall i :: 0 <= i < |SegmentsOf(pending, colour, toks)| ==> SegmentsOf(pending, colour, toks)[i].text != []
    decreases |toks|
  {
    if toks != [] {
      if IsCode(toks[0]) {
        SegmentsOfNonEmpty([], ColorMap[toks[0].text], toks[1..]);
      } else {
        SegmentsOfNonEmpty(pending + toks[0].text, colour, toks[1..]);
      }
    }
  }

  /** No segment ParseAnsiColors returns has empty text. */
  lemma ParseNonEmpty(s: string)
    ensures forall i :: 0 <= i < |Parse(s)| ==> Parse(s)[i].text != []
  {
    SegmentsOfNonEmpty([], Reset, Tokens(s));
  }

  lemma {:induction false} SegmentsOfCount(pending: string, colour: Colour, toks: seq<Token>)
    ensures |SegmentsOf(pending, colour, toks)| <= CodesOf(toks) + 1
    decreases |toks|
  {
    if toks != [] {
      if IsCode(toks[0]) {
        SegmentsOfCount([], ColorMap[toks[0].text], toks[1..]);
      } else {
        SegmentsOfCount(pending + toks[0].text, colour, toks[1..]);
      }
    }
  }

  /** There is at most one segment more than there are known codes. */
  lemma ParseCount(s: string)
    ensures |Parse(s)| <= CodeCount(s) + 1
  {
    SegmentsOfCount([], Reset, Tokens(s));
  }

  lemma {:induction false} SegmentsOfWithoutCodes(pending: string, colour: Colour, toks: seq<Token>)
    requires CodesOf(toks) == 0
    ensures SegmentsOf(pending, colour, toks) == Emit(pending + TextOf(toks), colour)
    decreases |toks|
  {
    if toks == [] {
      assert pending + [] == pending;
    } else {
      var t := toks[0].text;
      SegmentsOfWithoutCodes(pending + t, colour, toks[1..]);
      assert (pending + t) + TextOf(toks[1..]) == pending + TextOf(toks);
    }
  }

  /** The scan from i without known codes gives back the rest of s as text. */
  lemma {:induction false} TextFromWithoutCodes(s: string, i: nat)
    requires i <= |s| && CodesOf(TokensFrom(s, i)) == 0
    ensures TextOf(TokensFrom(s, i)) == s[i..]
    decreases |s| - i
  {
    if i < |s| {
      var next := i + TokenLen(s, i);
      TokensFromUnfold(s, i, next);
      var toks, rest := TokensFrom(s, i), TokensFrom(s, next);
      assert toks[0] == TokenAt(s, i) && toks[1..] == rest;
      assert toks[0].text == s[i..next];
      assert CodesOf(toks) == (if IsCode(toks[0]) then 1 else 0) + CodesOf(rest);
      assert TextOf(toks) == s[i..next] + TextOf(rest);
      TextFromWithoutCodes(s, next);
      assert s[i..next] + s[next..] == s[i..];
    }
  }

  /** The texts of tokens, joined, codes included. */
  function Joined(toks: seq<Token>): string
    decreases |toks|
  {
    if toks == [] then [] else toks[0].text + Joined(toks[1..])
  }

  lemma {:induction false} TokensFromCover(s: string, i: nat)
    requires i <= |s|
    ensures Joined(TokensFrom(s, i)) == s[i..]
    decreases |s| - i
  {
    if i < |s| {
      var next := i + TokenLen(s, i);
      TokensFromUnfold(s, i, next);
      var t, rest := TokenAt(s, i), TokensFrom(s, next);
      assert t.text == s[i..next];
      assert ([t] + rest)[0] == t && ([t] + rest)[1..] == rest;
      assert Joined([t] + rest) == t.text + Joined(rest);
      TokensFromCover(s, next);
      assert s[i..next] + s[next..] == s[i..];
    }
  }

  /** The scan loses and invents nothing: its tokens, joined, give back the whole input. */
  lemma TokensCover(s: string)
    ensures Joined(Tokens(s)) == s
  {
    TokensFromCover(s, 0);
  }

  /** The scan of s without known codes gives back s as text. */
  lemma VisibleWithoutCodes(s: string)
    requires CodeCount(s) == 0
    ensures Visible(s) == s
  {
    TextFromWithoutCodes(s, 0);
  }

  /** Text without known codes is one segment in the starting colour, unknown sequences included. */
  lemma ParseInWithoutCodes(colour: Colour, s: string)
    requires CodeCount(s) == 0
    ensures ParseIn(colour, s) == Emit(s, colour)
    ensures Visible(s) == s
  {
    SegmentsOfWithoutCodes([], colour, Tokens(s));
    VisibleWithoutCodes(s);
    assert [] + s == s;
  }

  /** Input without known codes: nothing when empty, else one RESET-coloured segment holding all of it. */
  lemma ParseWithoutCodes(s: string)
    requires CodeCount(s) == 0
    ensures s == [] ==> Parse(s) == []
    ensures s != [] ==> Parse(s) == [Segment(s, Reset)]
  {
    ParseInWithoutCodes(Reset, s);
  }

  lemma {:induction false} NoEscapeFrom(s: string, i: nat)
    requires i <= |s| && ESC !in s
    ensures CodesOf(TokensFrom(s, i)) == 0
    decreases |s| - i
  {
    if i < |s| {
      assert s[i] in s;
      var toks := TokensFrom(s, i);
      assert toks[0] == TokenAt(s, i) && toks[1..] == TokensFrom(s, i + 1);
      NoEscapeFrom(s, i + 1);
    }
  }

  /** Text without the escape character holds no code at all. */
  lemma NoEscapeNoCodes(s: string)
    requires ESC !in s
    ensures CodeCount(s) == 0
  {
    NoEscapeFrom(s, 0);
  }

  /** The scan from i is the token at i followed by the scan after it. */
  lemma TokensFromUnfold(s: string, i: nat, next: nat)
    requires i < |s| && next == i + TokenLen(s, i)
    ensures TokensFrom(s, i) == [TokenAt(s, i)] + TokensFrom(s, next)
  {
  }

  lemma ConsAppend<T>(x: T, h: seq<T>, r: seq<T>)
    ensures [x] + (h + r) == ([x] + h) + r
  {
  }

  /** Text placed before s does not change the token found at a position of s: position j of p + s is position i of s. */
  lemma TokenShift(p: string, s: string, i: nat, j: nat)
    requires i < |s| && j == |p| + i
    ensures TokenLen(p + s, j) == TokenLen(s, i)
    ensures TokenAt(p + s, j) == TokenAt(s, i)
  {
    SgrLenShift(p, s, i);
    var k := TokenLen(s, i);
    var shifted, own := (p + s)[j..j + k], s[i..i + k];
    forall y | 0 <= y < k
      ensures shifted[y] == own[y]
    {
      assert shifted[y] == (p + s)[|p| + (i + y)] == s[i + y];
    }
    assert shifted == own;
  }

  /** Text placed before s does not change the scan of s: position j of p + s is position i of s. */
  lemma {:induction false} TokensShift(p: string, s: string, i: nat, j: nat)
    requires i <= |s| && j == |p| + i
    ensures TokensFrom(p + s, j) == TokensFrom(s, i)
    decreases |s| - i
  {
    if i < |s| {
      TokenShift(p, s, i, j);
      var i2 := i + TokenLen(s, i);
      var j2 := j + TokenLen(p + s, j);
      TokensFromUnfold(p + s, j, j2);
      TokensFromUnfold(s, i, i2);
      TokensShift(p, s, i2, j2);
    } else {
      assert j == |p + s|;
      assert TokensFrom(p + s, j) == TokensFrom(s, i);
    }
  }

  /** Text appended after a does not change the token found at a position of a when it starts with ESC. */
  lemma TokenAppend(a: string, t: string, i: nat)
    requires i < |a| && t != [] && t[0] == ESC
    ensures TokenLen(a + t, i) == TokenLen(a, i)
    ensures TokenAt(a + t, i) == TokenAt(a, i)
  {
    SgrLenAppend(a, t, i);
    var k := TokenLen(a, i);
    assert (a + t)[i..i + k] == a[i..i + k];
  }

  /** The scan of a stops where text starting with ESC begins, whatever that text holds. */
  lemma {:induction false} TokensBeforeEsc(a: string, t: string, i: nat)
    requires i <= |a| && t != [] && t[0] == ESC
    ensures TokensFrom(a + t, i) == TokensFrom(a, i) + TokensFrom(a + t, |a|)
    decreases |a| - i
  {
    if i < |a| {
      var next := i + TokenLen(a, i);
      TokenAppend(a, t, i);
      TokensFromUnfold(a + t, i, next);
      TokensFromUnfold(a, i, next);
      TokensBeforeEsc(a, t, next);
      ConsAppend(TokenAt(a, i), TokensFrom(a, next), TokensFrom(a + t, |a|));
    } else {
      assert TokensFrom(a, i) == [];
    }
  }

  /** The scan of a whole escape sequence followed by b is that match followed by the scan of b. */
  lemma TokensOfSgr(code: string, b: string)
    requires IsSgr(code)
    ensures Tokens(code + b) == [Match(code)] + Tokens(b)
  {
    SgrLenOfCode(code, b);
    var r := code + b;
    assert r[0..|code|] == code;
    TokensShift(code, b, 0, |code|);
  }

  /**
   * What the GUI console shows of text that starts with a whole escape
   * sequence: nothing of a known code, and an unknown one verbatim.
   */
  lemma VisibleOfSgr(code: string, b: string)
    requires IsSgr(code)
    ensures code in ColorMap ==> Visible(code + b) == Visible(b)
    ensures code !in ColorMap ==> Visible(code + b) == code + Visible(b)
  {
    TokensOfSgr(code, b);
    var toks := Tokens(code + b);
    assert toks[0] == Match(code) && toks[1..] == Tokens(b);
  }

  /** The scan does not look past a known code: it splits there into the scans of both sides. */
  lemma TokensAcrossCode(a: string, code: string, b: string)
    requires code in ColorMap
    ensures Tokens(a + code + b) == Tokens(a) + [Match(code)] + Tokens(b)
  {
    KeysAreSgr(code);
    var r := code + b;
    assert a + code + b == a + r;
    assert r[0] == code[0];
    TokensBeforeEsc(a, r, 0);
    TokensShift(a, r, 0, |a|);
    TokensOfSgr(code, b);
  }

  lemma {:induction false} TextOfAppend(x: seq<Token>, y: seq<Token>)
    ensures TextOf(x + y) == TextOf(x) + TextOf(y)
    decreases |x|
  {
    if x == [] {
      assert x + y == y;
    } else {
      assert (x + y)[0] == x[0];
      assert (x + y)[1..] == x[1..] + y;
      TextOfAppend(x[1..], y);
    }
  }

  lemma {:induction false} CodesOfAppend(x: seq<Token>, y: seq<Token>)
    ensures CodesOf(x + y) == CodesOf(x) + CodesOf(y)
    decreases |x|
  {
    if x == [] {
      assert x + y == y;
    } else {
      assert (x + y)[0] == x[0];
      assert (x + y)[1..] == x[1..] + y;
      CodesOfAppend(x[1..], y);
    }
  }

  /** A known code leaves nothing of itself in the shown text, and each side is shown as it would be on its own. */
  lemma VisibleAcrossCode(a: string, code: string, b: string)
    requires code in ColorMap
    ensures Visible(a + code + b) == Visible(a) + Visible(b)
  {
    TokensAcrossCode(a, code, b);
    TextOfAppend(Tokens(a) + [Match(code)], Tokens(b));
    TextOfAppend(Tokens(a), [Match(code)]);
    assert [Match(code)][1..] == [];
  }

  /**
   * Each occurrence of a key of the colour table counts as exactly one known
   * code, and the text on either side keeps its own count: CodeCount is the
   * number of key occurrences.
   */
  lemma CodeCountOfKey(a: string, code: string, b: string)
    ensures code in ColorMap ==> CodeCount(a + code + b) == CodeCount(a) + 1 + CodeCount(b)
  {
    if code in ColorMap {
      TokensAcrossCode(a, code, b);
      CodesOfAppend(Tokens(a) + [Match(code)], Tokens(b));
      CodesOfAppend(Tokens(a), [Match(code)]);
      assert [Match(code)][1..] == [];
    }
  }

  /** A known code found by the scan from i is a stretch of s that is a key of the colour table. */
  lemma {:induction false} CodeFoundFrom(s: string, i: nat)
    requires i <= |s| && CodesOf(TokensFrom(s, i)) > 0
    ensures exists p, q :: i <= p <= q <= |s| && s[p..q] in ColorMap
    decreases |s| - i
  {
    var next := i + TokenLen(s, i);
    TokensFromUnfold(s, i, next);
    var toks := TokensFrom(s, i);
    assert toks[0] == TokenAt(s, i) && toks[1..] == TokensFrom(s, next);
    if IsCode(TokenAt(s, i)) {
      assert s[i..next] in ColorMap;
    } else {
      CodeFoundFrom(s, next);
    }
  }

  /** s holds no known code exactly when no stretch of s is a key of the colour table. */
  lemma NoCodesIffNoKeys(s: string)
    ensures CodeCount(s) == 0 <==> forall p, q :: 0 <= p <= q <= |s| ==> s[p..q] !in ColorMap
  {
    if CodeCount(s) > 0 {
      CodeFoundFrom(s, 0);
    } else {
      forall p, q | 0 <= p <= q <= |s|
        ensures s[p..q] !in ColorMap
      {
        assert s[..p] + s[p..q] + s[q..] == s;
        CodeCountOfKey(s[..p], s[p..q], s[q..]);
      }
    }
  }

  /** A known code splits the segments: what precedes it keeps its colour, what follows takes the code's. */
  lemma {:induction false} SegmentsOfAcrossCode(pending: string, colour: Colour, t1: seq<Token>, code: string, t2: seq<Token>)
    requires code in ColorMap
    ensures SegmentsOf(pending, colour, t1 + [Match(code)] + t2)
         == SegmentsOf(pending, colour, t1) + SegmentsOf([], ColorMap[code], t2)
    decreases |t1|
  {
    var toks := t1 + [Match(code)] + t2;
    if t1 == [] {
      assert toks[0] == Match(code) && toks[1..] == t2;
    } else {
      assert toks[0] == t1[0];
      assert toks[1..] == t1[1..] + [Match(code)] + t2;
      if IsCode(t1[0]) {
        SegmentsOfAcrossCode([], ColorMap[t1[0].text], t1[1..], code, t2);
      } else {
        SegmentsOfAcrossCode(pending + t1[0].text, colour, t1[1..], code, t2);
      }
    }
  }

  /**
   * A known code splits the parse: what precedes it keeps the colour parsing
   * started with, and what follows it is parsed in the code's colour. Every
   * segment is therefore coloured by the last known code before it, or the
   * starting colour when there is none.
   */
  lemma ParseAcrossCode(colour: Colour, a: string, code: string, b: string)
    requires code in ColorMap
    ensures ParseIn(colour, a + code + b) == ParseIn(colour, a) + ParseIn(ColorMap[code], b)
  {
    TokensAcrossCode(a, code, b);
    SegmentsOfAcrossCode([], colour, Tokens(a), code, Tokens(b));
  }

  /** Text before the first known code is one segment in the RESET colour. */
  lemma LeadingTextIsDefault(a: string, code: string, b: string)
    requires CodeCount(a) == 0 && code in ColorMap
    ensures Parse(a + code + b) == Emit(a, Reset) + ParseIn(ColorMap[code], b)
  {
    ParseAcrossCode(Reset, a, code, b);
    ParseInWithoutCodes(Reset, a);
  }

  /**
   * One turn of the loop of ParseAnsiColors on a known code, the text part of
   * s from i to next, with done the segments emitted so far and pending the
   * text not yet emitted: the pending text, if any, is emitted and the colour
   * switches. What is left to emit does not change.
   */
  lemma StepCode(done: seq<Segment>, pending: string, colour: Colour, s: string, i: nat, next: nat, part: string)
    requires i < |s| && next == i + TokenLen(s, i) && part == s[i..next]
    requires part in ColorMap
    ensures (if pending != [] then done + [Segment(pending, colour)] else done)
              + SegmentsOf([], ColorMap[part], TokensFrom(s, next))
         == done + SegmentsOf(pending, colour, TokensFrom(s, i))
  {
    KeysAreSgr(part);
    assert |part| == TokenLen(s, i) >= 3;
    TokensFromUnfold(s, i, next);
    var toks := TokensFrom(s, i);
    assert toks[0] == Match(part) && toks[1..] == TokensFrom(s, next);
    var after := SegmentsOf([], ColorMap[part], toks[1..]);
    assert done + (Emit(pending, colour) + after) == (done + Emit(pending, colour)) + after;
  }

  /** One turn of the loop on anything else: the part is added to the pending text. */
  lemma StepText(done: seq<Segment>, pending: string, colour: Colour, s: string, i: nat, next: nat, part: string)
    requires i < |s| && next == i + TokenLen(s, i) && part == s[i..next]
    requires part !in ColorMap
    ensures done + SegmentsOf(pending + part, colour, TokensFrom(s, next))
         == done + SegmentsOf(pending, colour, TokensFrom(s, i))
  {
    TokensFromUnfold(s, i, next);
    var toks := TokensFrom(s, i);
    assert toks[0] == TokenAt(s, i) && toks[1..] == TokensFrom(s, next);
    assert !IsCode(toks[0]) && toks[0].text == part;
  }

  /**
   * The loop of ParseAnsiColors: the pattern is searched from the current
   * position; known codes flush the pending text and switch colour, other
   * matches and the text between matches are added to the pending text.
   */
  method ParseAnsiColors(s: string) returns (result: seq<Segment>)
    ensures result == Parse(s)
  {
    result := [];
    var currentColor := Reset;
    var currentText: string := [];
    var i := 0;
    while i < |s|
      invariant i <= |s|
      invariant result + SegmentsOf(currentText, currentColor, TokensFrom(s, i)) == Parse(s)
    {
      var n := MatchSgr(s, i);
      var next := if n > 0 then i + n else i + 1;
      var part := s[i..next];
      if part in ColorMap {
        StepCode(result, currentText, currentColor, s, i, next, part);
        if currentText != [] {
          result := result + [Segment(currentText, currentColor)];
          currentText := [];
        }
        currentColor := ColorMap[part];
      } else {
        StepText(result, currentText, currentColor, s, i, next, part);
        currentText := currentText + part;
      }
      i := next;
    }
    if currentText != [] {
      result := result + [Segment(currentText, currentColor)];
    }
  }
}
