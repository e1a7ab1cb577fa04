/// The log-line formatter of ConsoleManager.h: colour macros, the API and level
/// tables, setColor, getAPIString, getLevelString and setLog, with what the GUI
/// console's parser makes of the lines they build.
module ConsoleFormat {
  import opened AnsiColors
  import opened AnsiParse

  const RED: string := "\U{1B}[31m"
  const GREEN: string := "\U{1B}[32m"
  const YELLOW: string := "\U{1B}[33m"
  const BLUE: string := "\U{1B}[34m"
  const MAGENTA: string := "\U{1B}[35m"
  const CYAN: string := "\U{1B}[36m"
  const WHITE: string := "\U{1B}[37m"

  const PASTEL_RED: string := "\U{1B}[38;5;210m"
  const PASTEL_GREEN: string := "\U{1B}[38;5;150m"
  const PASTEL_YELLOW: string := "\U{1B}[38;5;229m"
  const PASTEL_BLUE: string := "\U{1B}[38;5;147m"
  const PASTEL_MAGENTA: string := "\U{1B}[38;5;183m"
  const PASTEL_CYAN: string := "\U{1B}[38;5;159m"
  const PASTEL_PURPLE: string := "\U{1B}[38;5;141m"

  const RESET: string := "\U{1B}[0m"

  /** Log levels; ERRORS is printed with the label "ERROR". */
  datatype Level = INFO | WARNING | ERRORS | PRINT | SUCCESS

  /** The subsystem a message comes from. */
  datatype Api = DX11 | OPENGL | MAIN | INPUT | PHYSICS | RENDERER | SHADER | MODEL | UI

  /** Every colour macro of the formatter is a code the GUI console knows. */
  lemma MacrosAreKnownCodes()
    ensures RED in ColorMap && GREEN in ColorMap && YELLOW in ColorMap && BLUE in ColorMap
    ensures MAGENTA in ColorMap && CYAN in ColorMap && WHITE in ColorMap
    ensures PASTEL_RED in ColorMap && PASTEL_GREEN in ColorMap && PASTEL_YELLOW in ColorMap
    ensures PASTEL_BLUE in ColorMap && PASTEL_MAGENTA in ColorMap && PASTEL_CYAN in ColorMap
    ensures PASTEL_PURPLE in ColorMap && RESET in ColorMap
    ensures ColorMap[RESET] == Reset
  {
  }

  /** The colour of an API's name, from the switch of getAPIString. */
  function ApiColour(api: Api): string {
    match api
    case DX11 => GREEN
    case OPENGL => BLUE
    case MAIN => PASTEL_CYAN
    case INPUT => CYAN
    case PHYSICS => MAGENTA
    case RENDERER => RED
    case MODEL => PASTEL_MAGENTA
    case SHADER => PASTEL_RED
    case UI => PASTEL_GREEN
  }

  /** The label of an API, from the switch of getAPIString. */
  function ApiName(api: Api): string {
    match api
    case DX11 => "DX11"
    case OPENGL => "OPENGL"
    case MAIN => "MAIN"
    case INPUT => "INPUT"
    case PHYSICS => "PHYSICS"
    case RENDERER => "RENDERER"
    case MODEL => "MODEL"
    case SHADER => "SHADER"
    case UI => "UI"
  }

  /** The colour of a level's label, from the switch of getLevelString. */
  function LevelColour(level: Level): string {
    match level
    case INFO => BLUE
    case WARNING => YELLOW
    case ERRORS => RED
    case PRINT => WHITE
    case SUCCESS => GREEN
  }

  /** The label of a level, from the switch of getLevelString. */
  function LevelName(level: Level): string {
    match level
    case INFO => "INFO"
    case WARNING => "WARNING"
    case ERRORS => "ERROR"
    case PRINT => "PRINT"
    case SUCCESS => "SUCCESS"
  }

  /** Every API is shown in a colour the GUI console knows, other than RESET, with a non-empty plain label. */
  lemma ApiTable(api: Api)
    ensures ApiColour(api) in ColorMap && ApiColour(api) != RESET
    ensures ApiName(api) != [] && ESC !in ApiName(api)
  {
  }

  /**
   * Every level is shown in a colour the GUI console knows, other than RESET,
   * with a non-empty plain label; only ERRORS is labelled "ERROR".
   */
  lemma LevelTable(level: Level)
    ensures LevelColour(level) in ColorMap && LevelColour(level) != RESET
    ensures LevelName(level) != [] && ESC !in LevelName(level)
    ensures level == ERRORS <==> LevelName(level) == "ERROR"
  {
  }

  /** setColor: the text between a colour code and RESET. */
  function SetColor(colour: string, text: string): (r: string)
    ensures |r| == |colour| + |text| + |RESET|
    ensures r[..|colour|] == colour && r[|colour|..|colour| + |text|] == text
    ensures r[|r| - |RESET|..] == RESET
  {
    colour + text + RESET
  }

  /** getAPIString: the API's label in its colour, in brackets, with no trailing space. */
  function ApiString(api: Api): string {
    "[" + SetColor(ApiColour(api), ApiName(api)) + "]"
  }

  /** getLevelString: the level's label in its colour, in brackets, followed by one space. */
  function LevelString(level: Level): string {
    "[" + SetColor(LevelColour(level), LevelName(level)) + "] "
  }

  /** setLog: API tag, level tag, then the message text in the given colour. */
  function SetLog(api: Api, level: Level, text: string, colour: string): string {
    ApiString(api) + LevelString(level) + SetColor(colour, text)
  }

  /** A formatted line, regrouped around its three coloured pieces. */
  lemma Regroup(a: string, l: string, t: string)
    ensures ("[" + a + "]") + ("[" + l + "] ") + t == "[" + a + ("][" + l + ("] " + t + []))
  {
    assert "]" + "[" + l == "][" + l;
  }

  /** Text with no escape character, parsed in any colour, stays one segment of that colour. */
  lemma PlainText(colour: Colour, t: string)
    requires ESC !in t
    ensures ParseIn(colour, t) == Emit(t, colour)
  {
    NoEscapeNoCodes(t);
    ParseInWithoutCodes(colour, t);
  }

  /**
   * Plain text, then a coloured text, then the rest: the plain text keeps the
   * colour parsing is in, the coloured text gets its code's colour, and the rest
   * is parsed starting in the RESET colour that closes the coloured text.
   */
  lemma ParseColouredPiece(current: Colour, lead: string, colour: string, text: string, rest: string)
    requires ESC !in lead && colour in ColorMap && CodeCount(text) == 0
    ensures ParseIn(current, lead + SetColor(colour, text) + rest)
         == Emit(lead, current) + Emit(text, ColorMap[colour]) + ParseIn(Reset, rest)
  {
    assert RESET in ColorMap && ColorMap[RESET] == Reset;
    var after := text + RESET + rest;
    assert lead + SetColor(colour, text) + rest == lead + colour + after;
    calc {
      ParseIn(current, lead + colour + after);
      { ParseAcrossCode(current, lead, colour, after); }
      ParseIn(current, lead) + ParseIn(ColorMap[colour], after);
      { PlainText(current, lead); }
      Emit(lead, current) + ParseIn(ColorMap[colour], after);
      { ParseAcrossCode(ColorMap[colour], text, RESET, rest); }
      Emit(lead, current) + (ParseIn(ColorMap[colour], text) + ParseIn(Reset, rest));
      { ParseInWithoutCodes(ColorMap[colour], text); }
      Emit(lead, current) + (Emit(text, ColorMap[colour]) + ParseIn(Reset, rest));
    }
  }

  /** A bracketed tag "[" + setColor(colour, label) + close, as getAPIString and getLevelString build it. */
  lemma TagParse(colour: string, name: string, close: string)
    requires colour in ColorMap && name != [] && ESC !in name && close != [] && ESC !in close
    ensures Parse("[" + SetColor(colour, name) + close)
         == [Segment("[", Reset), Segment(name, ColorMap[colour]), Segment(close, Reset)]
  {
    NoEscapeNoCodes(name);
    ParseColouredPiece(Reset, "[", colour, name, close);
    PlainText(Reset, close);
  }

  /** What the GUI console shows of getAPIString: the API label in its colour, between RESET-coloured brackets. */
  lemma ApiStringParse(api: Api)
    ensures Parse(ApiString(api))
         == [Segment("[", Reset), Segment(ApiName(api), ColorMap[ApiColour(api)]), Segment("]", Reset)]
  {
    ApiTable(api);
    TagParse(ApiColour(api), ApiName(api), "]");
  }

  /** What the GUI console shows of getLevelString: the level label in its colour, then "] " in RESET. */
  lemma LevelStringParse(level: Level)
    ensures Parse(LevelString(level))
         == [Segment("[", Reset), Segment(LevelName(level), ColorMap[LevelColour(level)]), Segment("] ", Reset)]
  {
    LevelTable(level);
    TagParse(LevelColour(level), LevelName(level), "] ");
  }

  lemma Flatten(x1: Segment, x2: Segment, x3: Segment, x4: Segment, x5: Segment, e: seq<Segment>)
    ensures [x1] + [x2] + ([x3] + [x4] + ([x5] + e)) == [x1, x2, x3, x4, x5] + e
  {
  }

  /** Three plain texts, each followed by a coloured text, parsed from the RESET colour. */
  lemma ParseThreePieces(o: string, ac: string, a: string, m: string, lc: string, l: string,
                         cl: string, tc: string, t: string)
    requires ESC !in o && ESC !in m && ESC !in cl
    requires ac in ColorMap && lc in ColorMap && tc in ColorMap
    requires CodeCount(a) == 0 && CodeCount(l) == 0 && CodeCount(t) == 0
    ensures ParseIn(Reset, o + SetColor(ac, a) + (m + SetColor(lc, l) + (cl + SetColor(tc, t) + [])))
         == Emit(o, Reset) + Emit(a, ColorMap[ac]) + (Emit(m, Reset) + Emit(l, ColorMap[lc])
            + (Emit(cl, Reset) + Emit(t, ColorMap[tc])))
  {
    var third := cl + SetColor(tc, t) + [];
    var second := m + SetColor(lc, l) + third;
    ParseColouredPiece(Reset, o, ac, a, second);
    ParseColouredPiece(Reset, m, lc, l, third);
    ParseColouredPiece(Reset, cl, tc, t, []);
    PlainText(Reset, []);
    assert Emit(cl, Reset) + Emit(t, ColorMap[tc]) + [] == Emit(cl, Reset) + Emit(t, ColorMap[tc]);
  }

  /**
   * What the GUI console shows of a formatted line whose message holds no known
   * code: the API label in the API's colour, the level label in the level's
   * colour, the message in the message colour, and the brackets and the space
   * in the RESET colour; an empty message gives no segment.
   */
  lemma ParseSetLog(api: Api, level: Level, text: string, colour: string)
    requires colour in ColorMap && CodeCount(text) == 0
    ensures Parse(SetLog(api, level, text, colour))
         == [Segment("[", Reset), Segment(ApiName(api), ColorMap[ApiColour(api)]),
             Segment("][", Reset), Segment(LevelName(level), ColorMap[LevelColour(level)]),
             Segment("] ", Reset)] + Emit(text, ColorMap[colour])
  {
    var ac, an := ApiColour(api), ApiName(api);
    var lc, ln := LevelColour(level), LevelName(level);
    ApiTable(api);
    LevelTable(level);
    NoEscapeNoCodes(an);
    NoEscapeNoCodes(ln);
    var open, mid, close := "[", "][", "] ";
    Regroup(SetColor(ac, an), SetColor(lc, ln), SetColor(colour, text));
    ParseThreePieces(open, ac, an, mid, lc, ln, close, colour, text);
    Flatten(Segment(open, Reset), Segment(an, ColorMap[ac]), Segment(mid, Reset), Segment(ln, ColorMap[lc]),
            Segment(close, Reset), Emit(text, ColorMap[colour]));
  }

  lemma TextsOfFive(x1: Segment, x2: Segment, x3: Segment, x4: Segment, x5: Segment)
    ensures Texts([x1, x2, x3, x4, x5]) == x1.text + x2.text + x3.text + x4.text + x5.text
  {
    assert [x1, x2, x3, x4, x5][1..] == [x2, x3, x4, x5];
    assert [x2, x3, x4, x5][1..] == [x3, x4, x5];
    assert [x3, x4, x5][1..] == [x4, x5];
    assert [x4, x5][1..] == [x5];
    assert Texts([x5]) == x5.text + Texts([]) == x5.text;
    assert Texts([x4, x5]) == x4.text + x5.text;
    assert Texts([x3, x4, x5]) == x3.text + (x4.text + x5.text);
    assert Texts([x2, x3, x4, x5]) == x2.text + (x3.text + (x4.text + x5.text));
    assert Texts([x1, x2, x3, x4, x5]) == x1.text + (x2.text + (x3.text + (x4.text + x5.text)));
  }

  /** The text the GUI console shows of a formatted line, once the colours are set aside. */
  lemma SetLogVisibleText(api: Api, level: Level, text: string, colour: string)
    requires colour in ColorMap && CodeCount(text) == 0
    ensures Texts(Parse(SetLog(api, level, text, colour)))
         == "[" + ApiName(api) + "][" + LevelName(level) + "] " + text
  {
    var x1, x2, x3 := Segment("[", Reset), Segment(ApiName(api), ColorMap[ApiColour(api)]), Segment("][", Reset);
    var x4, x5 := Segment(LevelName(level), ColorMap[LevelColour(level)]), Segment("] ", Reset);
    var e := Emit(text, ColorMap[colour]);
    ParseSetLog(api, level, text, colour);
    TextsAppend([x1, x2, x3, x4, x5], e);
    TextsOfFive(x1, x2, x3, x4, x5);
    assert Texts(e) == text;
  }
}
