# POTATO-ENGINE console pipeline in Dafny

This project models the logging console of POTATO-ENGINE. It has three parts, and each is proved against a specification.

- **The log-line formatter** (`Console` in `ConsoleManager.h` / `ConsoleManager.cpp`).
  - The colour macros, the `API` and `LEVEL` enums, `setColor`, `getAPIString`, `getLevelString` and `setLog` are pure functions.
  - `Console::Log` and `Console::Sample` are methods of a `Console` class. The class holds the standard and error output streams as lists of written lines, and a reference to the GUI console.
- **The ANSI colour segmenter** (`ImGuiConsoleManager::ParseAnsiColors`).
  - `ANSI_COLOR_MAP` is a finite map from escape strings to colour tokens.
  - The specification has two stages:
    - `Tokens` is the regex scan: whole matches of `ESC [ [0-9;]* m`, and the characters between them.
    - `SegmentsOf` groups the tokens into (text, colour) segments.
  - `ParseAnsiColors` is the source's loop. It is proved to compute `Parse`.
  - The lemmas state what `Parse` means. Known codes vanish from the text and unknown ones stay. No segment is empty. The colour of a segment is that of the last known code before it, or RESET. There is at most one segment more than there are codes.
- **The bounded log store** (`ImGuiConsoleManager::Log`, `Clear`, and the logic of `DrawInput`). It is a class with the `logs` list, the `scrollToBottom` flag and the `inputBuffer` array.
  - Its invariant says the stored lines are the parses of the last 100 logged messages, in order.
  - The spec function `Pushed` states the eviction policy: a full store drops its oldest line first.

`Console::Sample` is modelled as written. Its two messages that read "I'm a warning" are logged at levels INFO and SUCCESS, as the code does.

## Model

| member | source | states |
|---|---|---|
| AnsiColors.CodeOf | POTATO-ENGINE/EngineCore/Include/ImGuiConsoleManager.h:15-32 | ANSI_COLOR_MAP (the constant `ColorMap`) has a key for every colour token: reading the table backwards always lands on a key that maps to that colour |
| AnsiColors.CodeOfRoundTrip | POTATO-ENGINE/EngineCore/Include/ImGuiConsoleManager.h:15-32 | no two keys of ANSI_COLOR_MAP share a colour token: the table is one-to-one, so reading it backwards gives each key back |
| AnsiColors.ParamEnd | POTATO-ENGINE/EngineCore/Include/ImGuiConsoleManager.h:173 | the run of `[0-9;]` characters from a position stays inside the string |
| AnsiColors.ParamEndSpec | POTATO-ENGINE/EngineCore/Include/ImGuiConsoleManager.h:173 | every character of the run is a digit or `;`, and the character after it is not |
| AnsiColors.ParamEndIs | POTATO-ENGINE/EngineCore/Include/ImGuiConsoleManager.h:173 | those two facts determine the end of the run uniquely |
| AnsiColors.SgrLenAt | POTATO-ENGINE/EngineCore/Include/ImGuiConsoleManager.h:173 | the length of the match found at a position never runs past the end of the text |
| AnsiColors.SgrLenExact | POTATO-ENGINE/EngineCore/Include/ImGuiConsoleManager.h:173 | a stretch of text from a position is a whole match of `\x1B\[[0-9;]*m` exactly when it is the one the scanner reports there (both directions) |
| AnsiColors.ParamEndShift | POTATO-ENGINE/EngineCore/Include/ImGuiConsoleManager.h:173 | text placed in front only shifts the parameter run |
| AnsiColors.SgrLenShift | POTATO-ENGINE/EngineCore/Include/ImGuiConsoleManager.h:173-174 | text placed in front does not change the match found at a position |
| AnsiColors.ParamEndAppend | POTATO-ENGINE/EngineCore/Include/ImGuiConsoleManager.h:173 | appended text that starts with a non-parameter character does not change the parameter run |
| AnsiColors.SgrLenAppend | POTATO-ENGINE/EngineCore/Include/ImGuiConsoleManager.h:173-174 | a match cannot reach into following text that starts with ESC |
| AnsiColors.KeysAreSgr | POTATO-ENGINE/EngineCore/Include/ImGuiConsoleManager.h:15-32 | every key of ANSI_COLOR_MAP is itself one whole match of the pattern |
| AnsiColors.SgrLenOfCode | POTATO-ENGINE/EngineCore/Include/ImGuiConsoleManager.h:173-174 | text that starts with a whole escape sequence has that sequence as its first match |
| AnsiColors.MatchSgr | POTATO-ENGINE/EngineCore/Include/ImGuiConsoleManager.h:173-174 | the scanning loop returns exactly the length of the match at the position, or 0 |
| AnsiParse.Tokens | POTATO-ENGINE/EngineCore/Include/ImGuiConsoleManager.h:173-174 | defines the regex scan: the whole matches of the pattern in order, and the characters between them one by one (no contract of its own; see TokensCover) |
| AnsiParse.TokensCover | POTATO-ENGINE/EngineCore/Include/ImGuiConsoleManager.h:173-174 | the scan loses and invents nothing: its token texts joined give back the whole input, as the token iterator with sub-matches -1 and 0 does |
| AnsiParse.SegmentsOf | POTATO-ENGINE/EngineCore/Include/ImGuiConsoleManager.h:180-201 | defines the grouping of tokens: a known code flushes the pending text in the current colour and switches colour, any other token is appended; pending text is flushed at the end (no contract of its own; see the lemmas below) |
| AnsiParse.Parse | POTATO-ENGINE/EngineCore/Include/ImGuiConsoleManager.h:170-204 | defines ParseAnsiColors as a function: the grouping of the scan, starting in the RESET colour (no contract of its own; the method ParseAnsiColors is proved to compute it and the lemmas below say what it means) |
| AnsiParse.TokenLen | POTATO-ENGINE/EngineCore/Include/ImGuiConsoleManager.h:174 | each scan step consumes at least one character and stays inside the text |
| AnsiParse.SegmentsOfTexts | POTATO-ENGINE/EngineCore/Include/ImGuiConsoleManager.h:180-201 | the segment texts joined are the pending text followed by the text of the non-code tokens |
| AnsiParse.ParseTexts | POTATO-ENGINE/EngineCore/Include/ImGuiConsoleManager.h:180-201 | joining the texts of all segments gives the input with its known codes removed |
| AnsiParse.VisibleOfSgr | POTATO-ENGINE/EngineCore/Include/ImGuiConsoleManager.h:183-195 | a known escape sequence leaves no text behind, and an unknown one stays in the text verbatim |
| AnsiParse.VisibleWithoutCodes | POTATO-ENGINE/EngineCore/Include/ImGuiConsoleManager.h:192-195 | text with no known code is shown unchanged, unknown sequences included |
| AnsiParse.TextFromWithoutCodes | POTATO-ENGINE/EngineCore/Include/ImGuiConsoleManager.h:192-195 | the same, for the scan from any position |
| AnsiParse.SegmentsOfNonEmpty | POTATO-ENGINE/EngineCore/Include/ImGuiConsoleManager.h:185-189 | segments are only emitted for non-empty pending text |
| AnsiParse.ParseNonEmpty | POTATO-ENGINE/EngineCore/Include/ImGuiConsoleManager.h:185-189 | no returned segment has empty text |
| AnsiParse.SegmentsOfCount | POTATO-ENGINE/EngineCore/Include/ImGuiConsoleManager.h:180-201 | there are at most one more segments than code tokens |
| AnsiParse.ParseCount | POTATO-ENGINE/EngineCore/Include/ImGuiConsoleManager.h:180-203 | the number of segments is at most the number of known codes plus one |
| AnsiParse.SegmentsOfWithoutCodes | POTATO-ENGINE/EngineCore/Include/ImGuiConsoleManager.h:192-201 | with no code token, the pending text and all token texts are gathered into one final segment in the current colour, or none when that text is empty |
| AnsiParse.ParseInWithoutCodes | POTATO-ENGINE/EngineCore/Include/ImGuiConsoleManager.h:192-201 | text without known codes becomes one segment in the starting colour, or none when empty |
| AnsiParse.ParseWithoutCodes | POTATO-ENGINE/EngineCore/Include/ImGuiConsoleManager.h:177-203 | input without codes gives no segment when empty, else exactly one RESET-coloured segment holding all of it |
| AnsiParse.NoEscapeFrom | POTATO-ENGINE/EngineCore/Include/ImGuiConsoleManager.h:173 | a scan of text without ESC finds no code |
| AnsiParse.NoEscapeNoCodes | POTATO-ENGINE/EngineCore/Include/ImGuiConsoleManager.h:173 | text without the escape character holds no known code |
| AnsiParse.CodeFoundFrom | POTATO-ENGINE/EngineCore/Include/ImGuiConsoleManager.h:173-191 | when the scan from a position finds a known code, some stretch of the input from that position is a key of ANSI_COLOR_MAP |
| AnsiParse.CodeCountOfKey | POTATO-ENGINE/EngineCore/Include/ImGuiConsoleManager.h:173-191 | an occurrence of a key of ANSI_COLOR_MAP adds exactly one to the sum of the code counts of the text on either side of it |
| AnsiParse.NoCodesIffNoKeys | POTATO-ENGINE/EngineCore/Include/ImGuiConsoleManager.h:173-191 | the input holds no known code exactly when no stretch of it is a key of ANSI_COLOR_MAP (both directions) |
| AnsiParse.VisibleAcrossCode | POTATO-ENGINE/EngineCore/Include/ImGuiConsoleManager.h:183-195 | a known code anywhere in the input is removed from the shown text and each side is shown as it would be on its own |
| AnsiParse.TokenShift | POTATO-ENGINE/EngineCore/Include/ImGuiConsoleManager.h:174 | text placed in front does not change the token at a position |
| AnsiParse.TokensShift | POTATO-ENGINE/EngineCore/Include/ImGuiConsoleManager.h:174 | text placed in front does not change the scan of the rest |
| AnsiParse.TokenAppend | POTATO-ENGINE/EngineCore/Include/ImGuiConsoleManager.h:174 | text starting with ESC appended after does not change a token found before it |
| AnsiParse.TokensBeforeEsc | POTATO-ENGINE/EngineCore/Include/ImGuiConsoleManager.h:174 | the scan splits where text starting with ESC begins |
| AnsiParse.TokensOfSgr | POTATO-ENGINE/EngineCore/Include/ImGuiConsoleManager.h:173-174 | a leading whole escape sequence is scanned as one match, followed by the scan of the rest |
| AnsiParse.TokensAcrossCode | POTATO-ENGINE/EngineCore/Include/ImGuiConsoleManager.h:173-174 | the scan of `a + code + b` is the scan of `a`, the code's match, then the scan of `b` |
| AnsiParse.SegmentsOfAcrossCode | POTATO-ENGINE/EngineCore/Include/ImGuiConsoleManager.h:183-191 | a known code closes the segments before it and starts the rest in its own colour |
| AnsiParse.ParseAcrossCode | POTATO-ENGINE/EngineCore/Include/ImGuiConsoleManager.h:183-191 | each segment's colour is that of the last known code before it: what follows a code is parsed in the code's colour, independently of what precedes it |
| AnsiParse.LeadingTextIsDefault | POTATO-ENGINE/EngineCore/Include/ImGuiConsoleManager.h:177 | text before the first known code is one segment in the RESET colour |
| AnsiParse.StepCode | POTATO-ENGINE/EngineCore/Include/ImGuiConsoleManager.h:183-191 | one turn of the loop on a known code flushes the pending text and switches colour without changing what remains to be emitted |
| AnsiParse.StepText | POTATO-ENGINE/EngineCore/Include/ImGuiConsoleManager.h:192-195 | one turn on any other part appends it to the pending text without changing what remains to be emitted |
| AnsiParse.ParseAnsiColors | POTATO-ENGINE/EngineCore/Include/ImGuiConsoleManager.h:170-204 | the loop (scan, flush on known codes, final flush) returns exactly `Parse(s)` |
| ConsoleFormat.MacrosAreKnownCodes | POTATO-ENGINE/EngineCore/Include/ConsoleManager.h:8-24 | every colour macro is a key of ANSI_COLOR_MAP, and RESET maps to the RESET colour |
| ConsoleFormat.ApiTable | POTATO-ENGINE/EngineCore/Include/ConsoleManager.h:76-91 | every API label is non-empty plain text in a known colour other than RESET |
| ConsoleFormat.LevelTable | POTATO-ENGINE/EngineCore/Include/ConsoleManager.h:98-109 | every level label is non-empty plain text in a known colour other than RESET, and only ERRORS is labelled "ERROR" |
| ConsoleFormat.ApiString | POTATO-ENGINE/EngineCore/Include/ConsoleManager.h:76-91 | defines getAPIString: "[" then the API label between its colour code and RESET, then "]", with no trailing space (no contract of its own; see ApiStringParse) |
| ConsoleFormat.TagParse | POTATO-ENGINE/EngineCore/Include/ConsoleManager.h:80-106 | a bracketed tag "[" + setColor(colour, name) + closing text, the shape of every case of getAPIString and getLevelString, parses to "[" in RESET, the name in its code's colour, and the closing text in RESET |
| ConsoleFormat.ApiStringParse | POTATO-ENGINE/EngineCore/Include/ConsoleManager.h:76-91 | the GUI console shows getAPIString as "[" in RESET, the API label in the API's colour, then "]" in RESET |
| ConsoleFormat.LevelString | POTATO-ENGINE/EngineCore/Include/ConsoleManager.h:98-109 | defines getLevelString: "[" then the level label between its colour code and RESET, then "] " with one trailing space (no contract of its own; see LevelStringParse) |
| ConsoleFormat.LevelStringParse | POTATO-ENGINE/EngineCore/Include/ConsoleManager.h:98-109 | the GUI console shows getLevelString as "[" in RESET, the level label in the level's colour, then "] " in RESET |
| ConsoleFormat.SetLog | POTATO-ENGINE/EngineCore/Include/ConsoleManager.h:130-133 | defines setLog: the API tag, the level tag, then the message between the given colour code and RESET (no contract of its own; see ParseSetLog and SetLogVisibleText) |
| ConsoleFormat.SetColor | POTATO-ENGINE/EngineCore/Include/ConsoleManager.h:117-120 | the result starts with the colour code, then the text, and always ends with RESET |
| ConsoleFormat.PlainText | POTATO-ENGINE/EngineCore/Include/ImGuiConsoleManager.h:192-201 | text without ESC parses as one segment of the current colour, or none when the text is empty |
| ConsoleFormat.ParseColouredPiece | POTATO-ENGINE/EngineCore/Include/ConsoleManager.h:117-120 | plain text followed by a `setColor` piece parses to the plain text in the current colour, then the piece in its code's colour; the rest is parsed starting in RESET |
| ConsoleFormat.ParseThreePieces | POTATO-ENGINE/EngineCore/Include/ConsoleManager.h:130-133 | three plain/coloured pairs parse pair by pair |
| ConsoleFormat.ParseSetLog | POTATO-ENGINE/EngineCore/Include/ConsoleManager.h:76-133 | a formatted line whose message holds no known code parses to: "[" (RESET), the API label in its colour, "][" (RESET), the level label in its colour, "] " (RESET), then the message in the message colour, or no message segment when the message is empty |
| ConsoleFormat.SetLogVisibleText | POTATO-ENGINE/EngineCore/Include/ConsoleManager.h:117-133 | for a message without codes, the segment texts join to `"[" + api + "][" + level + "] " + text` |
| ConsoleLog.MessageColour | POTATO-ENGINE/EngineCore/Source/ConsoleManager.cpp:7-43 | defines the message colour by level: SUCCESS green, INFO cyan, WARNING yellow, PRINT white, ERRORS red (no contract of its own; see MessageColourKnown and LoggedLineShape) |
| ConsoleLog.LogLine | POTATO-ENGINE/EngineCore/Source/ConsoleManager.cpp:7-43 | defines the line one Log call builds: setLog with the call's own API and level and the level's message colour (no contract of its own; see Console.Log and LoggedLineShape) |
| ConsoleLog.MessageColourKnown | POTATO-ENGINE/EngineCore/Source/ConsoleManager.cpp:9-38 | every message colour chosen by level is a known code other than RESET |
| ConsoleLog.LoggedLineShape | POTATO-ENGINE/EngineCore/Source/ConsoleManager.cpp:3-47 | the GUI line for a message holding no known code (unknown escape sequences allowed) is the API label, the level label and the message, each in its colour (SUCCESS green, INFO cyan, WARNING yellow, PRINT white, ERRORS red), or no message segment when the message is empty |
| ConsoleLog.Console.constructor | POTATO-ENGINE/EngineCore/Include/ConsoleManager.h:53-57 | a console starts with empty streams over a valid GUI store |
| ConsoleLog.Console.Log | POTATO-ENGINE/EngineCore/Source/ConsoleManager.cpp:3-47 | one call appends exactly one line, the formatted line of its own level, to the GUI store's messages, and by the store's invariant its visible lines are the parses of the last 100 messages; the same line goes to the error stream for ERRORS and to the standard stream otherwise; the other stream is unchanged; the defaults are MAIN and PRINT |
| ConsoleLog.Console.Sample | POTATO-ENGINE/EngineCore/Source/ConsoleManager.cpp:49-58 | seven GUI entries in call order, the last with the default API and level; the ERRORS line goes to the error stream and the other six to the standard stream |
| ImGuiConsole.Pushed | POTATO-ENGINE/EngineCore/Include/ImGuiConsoleManager.h:64-68 | the new line is last, and a store of at most 100 lines stays at most 100. Below 100 it grows by one and keeps every earlier line. At 100 or more it drops exactly the oldest line and keeps the rest in order |
| ImGuiConsole.Window | POTATO-ENGINE/EngineCore/Include/ImGuiConsoleManager.h:64-68 | the store holds min(count, 100) lines |
| ImGuiConsole.WindowPushed | POTATO-ENGINE/EngineCore/Include/ImGuiConsoleManager.h:64-68 | pushing onto the last 100 lines gives the last 100 lines of the longer history |
| ImGuiConsole.CString | POTATO-ENGINE/EngineCore/Include/ImGuiConsoleManager.h:119 | the string read from the buffer is its prefix before the first NUL |
| ImGuiConsole.ImGuiConsoleManager.constructor | POTATO-ENGINE/EngineCore/Include/ImGuiConsoleManager.h:141-161 | an empty store, flag cleared, a zeroed 256-character input buffer |
| ImGuiConsole.ImGuiConsoleManager.Log | POTATO-ENGINE/EngineCore/Include/ImGuiConsoleManager.h:60-70 | the parsed message is pushed with eviction of the oldest line, the store stays within 100 lines and `scrollToBottom` is set |
| ImGuiConsole.ImGuiConsoleManager.Clear | POTATO-ENGINE/EngineCore/Include/ImGuiConsoleManager.h:75-78 | the store is empty and `scrollToBottom` is unchanged |
| ImGuiConsole.ImGuiConsoleManager.DrawInput | POTATO-ENGINE/EngineCore/Include/ImGuiConsoleManager.h:113-123 | an edited, non-empty field is logged and then zeroed; otherwise nothing changes |

## Left out

- `ImGuiConsoleManager::Draw` is not modelled. It renders segments through ImGui and clears `scrollToBottom` after scrolling.
- `ImGui::InputText`, the widget inside `DrawInput`, is not modelled. Its return value is the `edited` parameter, and what it writes into `inputBuffer` happens outside the model.
- The `"[UNKNOWN]"` default branches of `getAPIString` and `getLevelString`, and the `default: break` of `Console::Log`, are left out. Enum values outside the declared constructors cannot be built in the model.
- The singletons (`GetInstance`) and the global `console` become explicitly constructed objects. A `Console` holds the GUI store it forwards to.
- `std::cout` and `std::cerr` are modelled as lists of written lines. Each `<< std::endl` is one entry. The newline character and the flush are not modelled.
- `ImVec4` colour values are opaque tokens, one per entry of `ANSI_COLOR_MAP`. RESET and WHITE are distinct tokens, although the source gives both the same float value.
- `std::regex` and `std::sregex_token_iterator` are replaced by a scanner. It reports the match of `ESC [ [0-9;]* m` that starts at each position and takes the text between matches one character at a time.
  - The loop appends every non-code part to the pending text, so the split of that text does not change any segment.
  - A single character is never a key of the colour table.
- `std::string` and `char inputBuffer[256]` hold bytes, while the model's strings hold Unicode characters: the 256-byte buffer becomes 256 characters, and multi-byte UTF-8 text is not split into bytes. Segmentation is unaffected, because the escape pattern and every key of the colour table are ASCII.
- The Sound, AudioManager and RendererManager files are not part of this model. They hold threads, miniaudio handles and Win32 calls.
