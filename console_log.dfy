/// Console::Log and Console::Sample (ConsoleManager.cpp): a message is formatted
/// with its API and level, written to the standard or the error stream, and
/// forwarded to the GUI console's store.
module ConsoleLog {
  import opened AnsiColors
  import opened AnsiParse
  import opened ConsoleFormat
  import opened ImGuiConsole

  /** The colour of the message text, chosen by level. */
  function MessageColour(level: Level): string {
    match level
    case SUCCESS => GREEN
    case INFO => CYAN
    case WARNING => YELLOW
    case PRINT => WHITE
    case ERRORS => RED
  }

  /** Every message colour is a code the GUI console knows, other than RESET. */
  lemma MessageColourKnown(level: Level)
    ensures MessageColour(level) in ColorMap && MessageColour(level) != RESET
  {
  }

  /** The line Console::Log writes and forwards for one message. */
  function LogLine(message: string, api: Api, level: Level): string {
    SetLog(api, level, message, MessageColour(level))
  }

  /**
   * What the GUI console stores for a message holding no known code: the
   * API label in the API's colour, the level label in the level's colour and
   * the message in the colour chosen by the level; an empty message gives no
   * segment.
   */
  lemma LoggedLineShape(message: string, api: Api, level: Level)
    requires CodeCount(message) == 0
    ensures Parse(LogLine(message, api, level))
         == [Segment("[", Reset), Segment(ApiName(api), ColorMap[ApiColour(api)]),
             Segment("][", Reset), Segment(LevelName(level), ColorMap[LevelColour(level)]),
             Segment("] ", Reset)] + Emit(message, ColorMap[MessageColour(level)])
  {
    MessageColourKnown(level);
    ParseSetLog(api, level, message, MessageColour(level));
  }

  class Console {
    /** The GUI console every line is forwarded to. */
    var gui: ImGuiConsoleManager
    /** What has been written to the standard output stream. */
    var cout: seq<string>
    /** What has been written to the standard error stream. */
    var cerr: seq<string>

    ghost predicate Valid()
      reads this, gui
    {
      gui.Valid()
    }

    constructor (gui: ImGuiConsoleManager)
      requires gui.Valid()
      ensures Valid() && this.gui == gui
      ensures cout == [] && cerr == []
    {
      this.gui := gui;
      cout := [];
      cerr := [];
    }

    /**
     * Format a message, write it with a line break to the error stream for
     * ERRORS and to the standard stream otherwise, and store its parsed form
     * in the GUI console.
     */
    method Log(message: string, api: Api := Api.MAIN, errorLvl: Level := Level.PRINT)
      requires Valid()
      modifies this`cout, this`cerr, gui`logs, gui`messages, gui`history, gui`scrollToBottom
      ensures Valid()
      ensures var line := LogLine(message, api, errorLvl);
        gui.messages == old(gui.messages) + [line] && gui.scrollToBottom
      ensures errorLvl != ERRORS ==> cout == old(cout) + [LogLine(message, api, errorLvl)] && cerr == old(cerr)
      ensures errorLvl == ERRORS ==> cerr == old(cerr) + [LogLine(message, api, errorLvl)] && cout == old(cout)
    {
      match errorLvl
      case SUCCESS =>
        var successMessage := SetLog(api, SUCCESS, message, GREEN);
        cout := cout + [successMessage];
        gui.Log(successMessage);
      case INFO =>
        var infoMessage := SetLog(api, INFO, message, CYAN);
        cout := cout + [infoMessage];
        gui.Log(infoMessage);
      case WARNING =>
        var warnMessage := SetLog(api, WARNING, message, YELLOW);
        cout := cout + [warnMessage];
        gui.Log(warnMessage);
      case PRINT =>
        var printMessage := SetLog(api, PRINT, message, WHITE);
        cout := cout + [printMessage];
        gui.Log(printMessage);
      case ERRORS =>
        var errorMessage := SetLog(api, ERRORS, message, RED);
        cerr := cerr + [errorMessage];
        gui.Log(errorMessage);
    }

    /**
     * Log seven sample messages; the last one takes the default API (MAIN) and
     * level (PRINT). The GUI console receives the seven lines in call order, the
     * error stream the one ERRORS line and the standard stream the other six.
     */
    method Sample()
      requires Valid()
      modifies this`cout, this`cerr, gui`logs, gui`messages, gui`history, gui`scrollToBottom
      ensures Valid()
      ensures gui.messages == old(gui.messages) + [
        LogLine("I'm an info", PHYSICS, INFO), LogLine("I'm a success", MAIN, SUCCESS),
        LogLine("I'm a print", DX11, PRINT), LogLine("I'm a warning", INPUT, INFO),
        LogLine("I'm a warning", SHADER, SUCCESS), LogLine("I'm an error", MODEL, ERRORS),
        LogLine("I'm the default message", MAIN, PRINT)]
      ensures cout == old(cout) + [
        LogLine("I'm an info", PHYSICS, INFO), LogLine("I'm a success", MAIN, SUCCESS),
        LogLine("I'm a print", DX11, PRINT), LogLine("I'm a warning", INPUT, INFO),
        LogLine("I'm a warning", SHADER, SUCCESS), LogLine("I'm the default message", MAIN, PRINT)]
      ensures cerr == old(cerr) + [LogLine("I'm an error", MODEL, ERRORS)]
    {
      ghost var m0, o0 := gui.messages, cout;
      ghost var l1 := LogLine("I'm an info", PHYSICS, INFO);
      ghost var l2 := LogLine("I'm a success", MAIN, SUCCESS);
      ghost var l3 := LogLine("I'm a print", DX11, PRINT);
      ghost var l4 := LogLine("I'm a warning", INPUT, INFO);
      ghost var l5 := LogLine("I'm a warning", SHADER, SUCCESS);
      ghost var l6 := LogLine("I'm an error", MODEL, ERRORS);
      ghost var l7 := LogLine("I'm the default message", MAIN, PRINT);
      Log("I'm an info", Api.PHYSICS, Level.INFO);
      Log("I'm a success", Api.MAIN, Level.SUCCESS);
      assert gui.messages == m0 + [l1, l2] && cout == o0 + [l1, l2];
      Log("I'm a print", Api.DX11, Level.PRINT);
      assert gui.messages == m0 + [l1, l2, l3] && cout == o0 + [l1, l2, l3];
      Log("I'm a warning", Api.INPUT, Level.INFO);
      assert gui.messages == m0 + [l1, l2, l3, l4] && cout == o0 + [l1, l2, l3, l4];
      Log("I'm a warning", Api.SHADER, Level.SUCCESS);
      assert gui.messages == m0 + [l1, l2, l3, l4, l5] && cout == o0 + [l1, l2, l3, l4, l5];
      Log("I'm an error", Api.MODEL, Level.ERRORS);
      assert gui.messages == m0 + [l1, l2, l3, l4, l5, l6] && cout == o0 + [l1, l2, l3, l4, l5];
      Log("I'm the default message");
    }
  }
}
