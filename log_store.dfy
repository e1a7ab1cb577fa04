/// The log store of ImGuiConsoleManager (ImGuiConsoleManager.h): parsed lines
/// kept up to a cap of 100, oldest dropped first, and the input field that logs
/// what the user typed.
module ImGuiConsole {
  import opened AnsiColors
  import opened AnsiParse

  /** The cap on stored lines. */
  const MaxLogs: nat := 100

  /** The size of the input field's character buffer. */
  const InputBufferSize: nat := 256

  /** One stored log line: its coloured segments. */
  type Line = seq<Segment>

  /**
   * The store after one line is added: a store holding MaxLogs or more lines
   * loses its oldest line first.
   */
  function Pushed(logs: seq<Line>, line: Line): (r: seq<Line>)
    ensures |logs| <= MaxLogs ==> |r| <= MaxLogs
    ensures |r| > 0 && r[|r| - 1] == line
    ensures |logs| < MaxLogs ==> |r| == |logs| + 1 && r[..|logs|] == logs
    ensures |logs| >= MaxLogs ==> |r| == |logs| && r[..|r| - 1] == logs[1..]
  {
    if |logs| >= MaxLogs then logs[1..] + [line] else logs + [line]
  }

  /** The most recent MaxLogs lines of a history, in order. */
  function Window(history: seq<Line>): (w: seq<Line>)
    ensures |w| == if |history| <= MaxLogs then |history| else MaxLogs
  {
    if |history| <= MaxLogs then history else history[|history| - MaxLogs..]
  }

  /** Adding a line to the window of a history gives the window of the longer history. */
  lemma WindowPushed(history: seq<Line>, line: Line)
    ensures Pushed(Window(history), line) == Window(history + [line])
  {
    var h := history + [line];
    if |history| >= MaxLogs {
      assert Window(history)[1..] + [line] == h[|h| - MaxLogs..];
    }
  }

  /** The C string held by a character buffer: everything before the first NUL. */
  function CString(buffer: seq<char>): (s: string)
    ensures |s| <= |buffer| && s == buffer[..|s|]
    ensures forall k :: 0 <= k < |s| ==> s[k] != '\0'
    ensures |s| < |buffer| ==> buffer[|s|] == '\0'
  {
    if buffer == [] || buffer[0] == '\0' then [] else [buffer[0]] + CString(buffer[1..])
  }

  class ImGuiConsoleManager {
    /** The stored lines, oldest first. */
    var logs: seq<Line>
    /** The input field's characters. */
    var inputBuffer: array<char>
    /** Set whenever a line is added; the drawing code scrolls to the bottom and clears it. */
    var scrollToBottom: bool
    /** Every message passed to Log since the store was created or last cleared. */
    ghost var messages: seq<string>
    /** The parsed line of each of those messages, in the same order. */
    ghost var history: seq<Line>

    ghost predicate Valid()
      reads this
    {
      && inputBuffer.Length == InputBufferSize
      && |history| == |messages|
      && (forall k {:trigger history[k]} :: 0 <= k < |history| ==> history[k] == Parse(messages[k]))
      && logs == Window(history)
    }

    constructor ()
      ensures Valid() && fresh(inputBuffer)
      ensures logs == [] && messages == [] && !scrollToBottom
      ensures forall k :: 0 <= k < inputBuffer.Length ==> inputBuffer[k] == '\0'
    {
      logs := [];
      messages := [];
      history := [];
      scrollToBottom := false;
      inputBuffer := new char[InputBufferSize](_ => '\0');
    }

    /** Parse a message and store it as the newest line, dropping the oldest when full. */
    method Log(message: string)
      requires Valid()
      modifies this`logs, this`messages, this`history, this`scrollToBottom
      ensures Valid() && |logs| <= MaxLogs
      ensures logs == Pushed(old(logs), Parse(message))
      ensures messages == old(messages) + [message]
      ensures scrollToBottom
    {
      var parsedSegments := ParseAnsiColors(message);
      if |logs| >= MaxLogs {
        logs := logs[1..];
      }
      logs := logs + [parsedSegments];
      messages := messages + [message];
      history := history + [parsedSegments];
      scrollToBottom := true;
      WindowPushed(old(history), parsedSegments);
    }

    /** Remove every stored line; the scroll flag is left as it is. */
    method Clear()
      requires Valid()
      modifies this`logs, this`messages, this`history
      ensures Valid()
      ensures logs == [] && messages == []
      ensures scrollToBottom == old(scrollToBottom)
    {
      logs := [];
      messages := [];
      history := [];
    }

    /**
     * The logic of the input field, once the widget has run: edited tells
     * whether the user changed the field. A non-empty field is logged and then
     * zeroed; otherwise nothing changes.
     */
    method DrawInput(edited: bool)
      requires Valid()
      modifies this`logs, this`messages, this`history, this`scrollToBottom, inputBuffer
      ensures Valid()
      ensures var typed := CString(old(inputBuffer[..]));
        if edited && typed != [] then
          logs == Pushed(old(logs), Parse(typed)) && messages == old(messages) + [typed] && scrollToBottom &&
          forall k :: 0 <= k < inputBuffer.Length ==> inputBuffer[k] == '\0'
        else
          logs == old(logs) && messages == old(messages) && scrollToBottom == old(scrollToBottom) &&
          inputBuffer[..] == old(inputBuffer[..])
    {
      if edited {
        if inputBuffer[0] != '\0' {
          Log(CString(inputBuffer[..]));
          forall k | 0 <= k < inputBuffer.Length {
            inputBuffer[k] := '\0';
          }
        }
      }
    }
  }
}
