# claudius-gate TTY core in Dafny

This project models the terminal layer of claudius-gate, an Electron front end that
runs the `claude` command-line program in a pseudo-terminal. The model covers six
parts of that layer and proves properties about each:

- **ANSI parser** (`Ansi`, `AnsiProperties`). This is the character-by-character
  state machine (NORMAL, ESCAPE, CSI, OSC, DCS) that turns the program's output into
  `text`, control-character, `sequence`, `title` and `hyperlink` events. `Step` and
  `Run` specify it. The class `Ansi.ANSIParser` keeps the source's fields and
  handlers, and each of its methods is proved equal to the specification. Events are
  kept as a log in the order they are emitted.
- **Output processor** (`Screen`, `Output`, `ScreenProperties`). `TerminalState` is
  the screen: two buffers of lines made of cells, a cursor, a style, modes and a
  title. `OutputProcessor` applies the parser's events to it. The pure state `Term`
  and the functions `Written`, `ScreenCleared`, `LineCleared`, `Handle` and
  `HandleAll` specify the classes' methods.
- **Binary decoder** (`Binary`, `BinaryProperties`). This turns PTY output bytes into
  text. It records control bytes, undecodable bytes and decode errors, and it keeps
  an incomplete UTF-8 sequence for the next chunk. `Scan` specifies the loop of
  `processBuffer`.
- **Input encoder** (`Encoding`). This turns text, key names, pastes and mouse
  events into the bytes a terminal program expects.
- **Control-sequence builders** (`Controls`). These build the escape sequences for
  cursor, screen, text-style, mode, title and hyperlink requests. Each builder is
  proved to read back through the modelled parser with the meaning it was built for.
- **Claude service** (`Session`). This is the service state machine (IDLE,
  INITIALIZING, READY, PROCESSING, ERROR, TERMINATED). It sends messages as
  keystrokes, collects output until a prompt appears, and turns the collected
  output into assistant messages.

Conventions used in the model:

- JavaScript values are modelled explicitly (`Js`):
  - `NaN` and numbers are `JsNum`.
  - `undefined` and `null` strings are `JsString`.
  - `x || d` on numbers is `OrDefault`.
  - `parseInt`, `split`, `join`, `trim`, `String(n)` and `String.fromCharCode` each
    have their own function.
- A string is one Dafny `char` per JavaScript character.
- Event emitters are modelled as logs of the events emitted.
- The pseudo-terminal, the clock and the UTF-8 and base64 decoders of the platform
  are parameters or logs (see "Left out").

Where the code differs from what a real terminal does, the model follows the code:

- `?` in `ESC [ ? n h` is a parameter byte. The parameter therefore reads as NaN, and
  no mode request is ever private (`AnsiProperties.NeverPrivate`). The private DEC
  modes 1049, 25, 1000 and 2004 are never switched by parsed output
  (`ScreenProperties.ProcessedOutputKeepsModes`).
- The escapes `ESC 7`, `ESC 8`, `ESC c`, `ESC =` and `ESC >` lie outside 0x40–0x5F,
  so they never reach `handleSingleEscape` (`AnsiProperties.GuardedEscapesNeverEmitted`).
- A CSI sequence with an unhandled final byte is still emitted, with type `unknown`.
  OSC 1 emits nothing.
- `writeText` captures the cursor line once. After an autowrap it goes on writing
  into that line, not into the new cursor row (`ScreenProperties.WrapKeepsWritingCapturedLine`).
- After a write the cursor column may equal `cols`. With autowrap off, the cursor
  ends at `cols`, and the last character overwrites the last column
  (`ScreenProperties.ClampedLastChar`).

## Model

| member | source | states |
|---|---|---|
| Ansi.RunCons | src/main/tty/receiver/ansiParser.cjs:50-80 | `parse` of a non-empty string is the first character's handler, then `parse` of the rest from the state it leaves |
| Ansi.DriveOneStep | src/main/tty/receiver/ansiParser.cjs:51-79 | one iteration of `parse`'s `for` loop leaves the events still to come and the final state unchanged |
| Ansi.SgrHead | src/main/tty/receiver/ansiParser.cjs:332-385 | one iteration of `parseGraphicsParams` pushes at most one style and advances by 1, or by 3 and 5 after `38;5`/`48;5` and `38;2`/`48;2` |
| Ansi.SgrOneRound | src/main/tty/receiver/ansiParser.cjs:332-386 | the styles pushed so far plus those still to come stay equal to the whole list across one iteration |
| Ansi.ANSIParser.constructor | src/main/tty/receiver/ansiParser.cjs:31-39 | a new parser is in NORMAL with empty buffer, params, current parameter, intermediates and final character, and has emitted nothing |
| Ansi.ANSIParser.Reset | src/main/tty/receiver/ansiParser.cjs:41-48 | every field returns to its initial value; the events already emitted stay |
| Ansi.ANSIParser.Parse | src/main/tty/receiver/ansiParser.cjs:50-80 | after `parse(data)` the fields equal `Run` of the old fields over `data`, and the events appended are exactly `Run`'s events, in order |
| Ansi.ANSIParser.HandleNormal | src/main/tty/receiver/ansiParser.cjs:82-91 | ESC flushes the text and enters ESCAPE; a control character is dispatched; any other character is appended to the text buffer |
| Ansi.ANSIParser.HandleEscape | src/main/tty/receiver/ansiParser.cjs:93-113 | `[` enters CSI with cleared params, `]` and `P` enter OSC and DCS with a cleared buffer, 0x40–0x5F is a single escape, anything else goes back to NORMAL |
| Ansi.ANSIParser.HandleCSI | src/main/tty/receiver/ansiParser.cjs:115-140 | `;` commits the pending parameter (`parseInt`, or 0 when empty), other 0x30–0x3F bytes extend it, 0x20–0x2F are intermediates, a final byte commits and dispatches, anything else abandons the sequence |
| Ansi.ANSIParser.HandleOSC | src/main/tty/receiver/ansiParser.cjs:142-152 | BEL dispatches the body, ESC returns to NORMAL keeping the buffer, other characters are collected |
| Ansi.ANSIParser.HandleDCS | src/main/tty/receiver/ansiParser.cjs:154-161 | ESC returns to NORMAL, other characters are collected |
| Ansi.ANSIParser.HandleControlChar | src/main/tty/receiver/ansiParser.cjs:168-191 | pending text is flushed; BEL, BS, TAB, LF and CR emit their event, other controls emit nothing |
| Ansi.ANSIParser.HandleSingleEscape | src/main/tty/receiver/ansiParser.cjs:193-220 | the fields are unchanged and the event of the escape character is emitted (`index`, `reverseIndex`, `nextLine`, …) |
| Ansi.ANSIParser.HandleCSISequence | src/main/tty/receiver/ansiParser.cjs:222-309 | exactly one `sequence` event with the current params, intermediates and final byte, and its type and action as the `switch` assigns them |
| Ansi.ANSIParser.HandleOSCSequence | src/main/tty/receiver/ansiParser.cjs:311-327 | emits the title for commands 0 and 2, the hyperlink for 8 and nothing otherwise, and empties the buffer |
| Ansi.ANSIParser.ParseGraphicsParams | src/main/tty/receiver/ansiParser.cjs:329-389 | the loop returns the style list `SgrFrom(params, 0)`: reset, flags, basic, 256-colour and RGB colours, left to right |
| Ansi.ANSIParser.FlushText | src/main/tty/receiver/ansiParser.cjs:391-396 | a non-empty text buffer is emitted as one `text` event and emptied; an empty one emits nothing |
| Ansi.ANSIParser.End | src/main/tty/receiver/ansiParser.cjs:398-401 | the pending text is flushed, then the parser is reset |
| AnsiProperties.Commits | src/main/tty/receiver/ansiParser.cjs:117-123 | one parameter value per completed field, each as `;` commits it |
| AnsiProperties.DriveAppend | src/main/tty/receiver/ansiParser.cjs:50-80 | for any handler, feeding `a + b` equals feeding `a` and then `b` from where `a` left off, with the events concatenated |
| AnsiProperties.RunOne | src/main/tty/receiver/ansiParser.cjs:50-80 | parsing one character is one step of the state machine |
| AnsiProperties.RunAppend | src/main/tty/receiver/ansiParser.cjs:50-80 | parsing in two chunks gives the same state and the same events as parsing the concatenation in one call |
| AnsiProperties.RunThree | src/main/tty/receiver/ansiParser.cjs:50-80 | three chunks whose middle one emits nothing give the first chunk's events and then the third's |
| AnsiProperties.StepKeepsWf | src/main/tty/receiver/ansiParser.cjs:93-161 | each step keeps the field invariant: the intermediates hold only 0x20–0x2F bytes (never `?`), the pending parameter holds no `;`, and the final character is at most one character |
| AnsiProperties.RunKeepsWf | src/main/tty/receiver/ansiParser.cjs:50-80 | the field invariant holds after any input |
| AnsiProperties.PrintableText | src/main/tty/receiver/ansiParser.cjs:82-91 | printable characters in NORMAL are appended to the text buffer and emit nothing |
| AnsiProperties.TextThenLinefeed | src/main/tty/receiver/ansiParser.cjs:168-191 | a line of text followed by `\n` from a fresh parser emits `text` then `linefeed` and returns to the initial state |
| AnsiProperties.CsiParamRun | src/main/tty/receiver/ansiParser.cjs:115-126 | parameter bytes leave `params` equal to the committed `;`-fields and `currentParam` equal to the last field |
| AnsiProperties.SplitCommitted | src/main/tty/receiver/ansiParser.cjs:117-123 | a `;` commits exactly the field before it |
| AnsiProperties.Introducer | src/main/tty/receiver/ansiParser.cjs:82-104 | `ESC` followed by `[`, `]` or `P` flushes the pending text and enters the corresponding state |
| AnsiProperties.FinalByte | src/main/tty/receiver/ansiParser.cjs:129-135 | a final byte commits a non-empty pending parameter, emits the sequence and returns to NORMAL |
| AnsiProperties.CsiRun | src/main/tty/receiver/ansiParser.cjs:115-140 | `ESC [ body f` emits the pending text and then exactly one sequence, whose params are those read from `body`, and leaves the parser in NORMAL |
| AnsiProperties.CsiIntroducerAndBody | src/main/tty/receiver/ansiParser.cjs:93-126 | `ESC [ body` leaves the parser in CSI with the fields of `body` read |
| AnsiProperties.QuestionMarkParam | src/main/tty/receiver/ansiParser.cjs:116-131 | the parameter string `?1049` is read as the single parameter NaN |
| AnsiProperties.AlternateScreenRequest | src/main/tty/receiver/ansiParser.cjs:115-140 | `ESC [ ? 1049 h` emits one sequence with params `[NaN]` and no intermediates |
| AnsiProperties.AlternateScreenInfo | src/main/tty/receiver/ansiParser.cjs:284-288 | that sequence is a non-private set-mode request |
| AnsiProperties.SequenceNeverPrivate | src/main/tty/receiver/ansiParser.cjs:284-293 | without `?` among the intermediates a mode request is not private |
| AnsiProperties.StepNeverPrivate | src/main/tty/receiver/ansiParser.cjs:115-140 | no single step emits a private mode request |
| AnsiProperties.NeverPrivate | src/main/tty/receiver/ansiParser.cjs:287 | no input ever produces a sequence with `private` true, because `?` is a parameter byte and never an intermediate |
| AnsiProperties.StepNeverGuarded | src/main/tty/receiver/ansiParser.cjs:105-108 | no single step emits `reset`, `saveCursor`, `restoreCursor` or `applicationKeypad` |
| AnsiProperties.GuardedEscapesNeverEmitted | src/main/tty/receiver/ansiParser.cjs:204-218 | no input ever emits those four events: their characters lie outside the 0x40–0x5F range passed to `handleSingleEscape` |
| AnsiProperties.ParseIntOfParamChars | src/main/tty/receiver/ansiParser.cjs:119 | `parseInt` of parameter bytes is NaN or non-negative |
| AnsiProperties.StepSane | src/main/tty/receiver/ansiParser.cjs:115-140 | each step keeps every parameter NaN or non-negative |
| AnsiProperties.RunSane | src/main/tty/receiver/ansiParser.cjs:50-80 | every emitted sequence has parameters that are NaN or non-negative integers |
| AnsiProperties.StringBody | src/main/tty/receiver/ansiParser.cjs:142-161 | inside OSC or DCS, characters other than BEL and ESC are collected and emit nothing |
| AnsiProperties.OscRun | src/main/tty/receiver/ansiParser.cjs:142-152 | `ESC ] body BEL` emits the pending text, then the events of the OSC body, and leaves the parser in NORMAL |
| AnsiProperties.OscIntroducerAndBody | src/main/tty/receiver/ansiParser.cjs:99-101 | `ESC ] body` leaves the parser in OSC with exactly `body` collected |
| AnsiProperties.TitleBody | src/main/tty/receiver/ansiParser.cjs:312-319 | the bodies `0;t` and `2;t` emit exactly the title `t` |
| AnsiProperties.TitleRequest | src/main/tty/receiver/ansiParser.cjs:311-327 | OSC 0 and OSC 2 set the title to everything after the first `;` |
| AnsiProperties.HyperlinkBody | src/main/tty/receiver/ansiParser.cjs:320-322 | the body `8;params;url` emits one hyperlink with those two fields |
| AnsiProperties.HyperlinkCommand | src/main/tty/receiver/ansiParser.cjs:313-322 | command 8 with two `;`-free fields emits the hyperlink with them |
| AnsiProperties.HyperlinkOfPair | src/main/tty/receiver/ansiParser.cjs:321 | destructuring `params;url` gives both fields |
| AnsiProperties.HyperlinkRequest | src/main/tty/receiver/ansiParser.cjs:311-327 | `ESC ] 8;params;url BEL` emits the pending text, then that hyperlink |
| AnsiProperties.StTerminatedStringBecomesText | src/main/tty/receiver/ansiParser.cjs:146-148 | a string ended by `ESC \` instead of BEL is not dispatched, and its body followed by `\` comes out as ordinary text at `end()` |
| Screen.Blank | src/main/tty/receiver/outputProcessor.cjs:53-59 | `createBuffer` gives `rows` blank lines, or none when `rows` is not positive |
| Screen.LineText | src/main/tty/receiver/outputProcessor.cjs:129-131 | the rebuilt text is never longer than the cells: holes vanish, erased cells become spaces |
| Screen.SetCell | src/main/tty/receiver/outputProcessor.cjs:115-118 | `cells[x] = v` on a JavaScript array: past the end it lengthens the array with holes, and any other cell keeps its value |
| Screen.ClearCells | src/main/tty/receiver/outputProcessor.cjs:145-148 | the erase loops keep the line's length |
| Screen.BelowCleared | src/main/tty/receiver/outputProcessor.cjs:141-154 | the mode-0 loop keeps the buffer's length |
| Screen.AboveCleared | src/main/tty/receiver/outputProcessor.cjs:155-167 | the mode-1 loop keeps the buffer's length |
| Screen.RowsBlanked | src/main/tty/receiver/outputProcessor.cjs:168-174 | the mode-2 loop keeps the buffer's length |
| Screen.BlankBuffer | src/main/tty/receiver/outputProcessor.cjs:53-59 | the loop of `createBuffer` builds exactly `Blank(rows)` |
| Screen.EraseCells | src/main/tty/receiver/outputProcessor.cjs:145-148 | the `for` loop that nulls the written cells in `[lo, hi)` gives `ClearCells` |
| Screen.TerminalState.constructor | src/main/tty/receiver/outputProcessor.cjs:9-51 | a new state has blank main and alternate buffers, the cursor at the origin, the plain style, the default modes and no title |
| Screen.TerminalState.CreateBuffer | src/main/tty/receiver/outputProcessor.cjs:53-59 | returns `rows` blank lines |
| Screen.TerminalState.SetActiveBuffer | src/main/tty/receiver/outputProcessor.cjs:68-70 | only the active buffer, main or alternate as the mode says, is replaced |
| Screen.TerminalState.SwitchToAlternateScreen | src/main/tty/receiver/outputProcessor.cjs:72-80 | when not already there, saves the cursor, turns the mode on and homes the cursor; the alternate buffer keeps its contents |
| Screen.TerminalState.SwitchToMainScreen | src/main/tty/receiver/outputProcessor.cjs:82-89 | when on the alternate screen, turns the mode off and restores the saved cursor |
| Screen.TerminalState.PutCell | src/main/tty/receiver/outputProcessor.cjs:115-118 | writes one cell of one line of the active buffer and nothing else |
| Screen.TerminalState.WriteText | src/main/tty/receiver/outputProcessor.cjs:91-127 | the new state is `Written(old state, text)` |
| Screen.TerminalState.WriteOne | src/main/tty/receiver/outputProcessor.cjs:97-120 | one iteration of `writeText`'s loop is `WriteChar` on the state and the captured line |
| Screen.TerminalState.WrapOrClamp | src/main/tty/receiver/outputProcessor.cjs:99-112 | at the margin the cursor wraps to the next row (scrolling at the bottom) with autowrap, and is clamped to `cols - 1` without it |
| Screen.TerminalState.UpdateLineText | src/main/tty/receiver/outputProcessor.cjs:129-131 | only the chosen line's text is rebuilt from its cells |
| Screen.TerminalState.Scroll | src/main/tty/receiver/outputProcessor.cjs:133-137 | the new state is `Scrolled(old state)` |
| Screen.TerminalState.ClearScreen | src/main/tty/receiver/outputProcessor.cjs:139-177 | the new state is `ScreenCleared(old state, mode)` |
| Screen.TerminalState.ClearFromCursor | src/main/tty/receiver/outputProcessor.cjs:141-154 | the mode-0 loop returns `BelowCleared` of the buffer it is given |
| Screen.TerminalState.ClearToCursor | src/main/tty/receiver/outputProcessor.cjs:155-167 | the mode-1 loop returns `AboveCleared` of the buffer it is given |
| Screen.TerminalState.ClearAllRows | src/main/tty/receiver/outputProcessor.cjs:168-174 | the mode-2 loop returns the buffer it is given with every row blanked |
| Screen.TerminalState.ClearLine | src/main/tty/receiver/outputProcessor.cjs:179-205 | the new state is `LineCleared(old state, mode)` |
| ScreenProperties.NewTermValid | src/main/tty/receiver/outputProcessor.cjs:9-51 | a fresh state of positive size satisfies the screen invariant, and its active buffer is blank |
| ScreenProperties.ScrollShiftsLines | src/main/tty/receiver/outputProcessor.cjs:133-137 | `scroll` drops the first line, moves the others up one row, appends a blank line, and touches only the active buffer |
| ScreenProperties.AdvanceValid | src/main/tty/receiver/outputProcessor.cjs:99-112 | before a character is written, the cursor column is inside the line and the invariant holds |
| ScreenProperties.WriteCharValid | src/main/tty/receiver/outputProcessor.cjs:97-120 | one character of `writeText` keeps the invariant and the settings |
| ScreenProperties.WriteCharsValid | src/main/tty/receiver/outputProcessor.cjs:97-120 | any text keeps the invariant and the settings, and the captured line index never grows |
| ScreenProperties.WrittenValid | src/main/tty/receiver/outputProcessor.cjs:91-127 | after `writeText` the cursor row is on the screen, the column is at most `cols`, and the settings are unchanged |
| ScreenProperties.CursorReachesCols | src/main/tty/receiver/outputProcessor.cjs:117-119 | writing the last column leaves the cursor at `cols`, past the last column |
| ScreenProperties.WriteCharsAppend | src/main/tty/receiver/outputProcessor.cjs:97-120 | writing `a + [c]` is writing `a` and then `c` |
| ScreenProperties.ClampedWrites | src/main/tty/receiver/outputProcessor.cjs:108-111 | with autowrap off the cursor stays on its row and ends at `min(x + n, cols)` |
| ScreenProperties.ClampedLastCell | src/main/tty/receiver/outputProcessor.cjs:108-118 | with autowrap off, the last character written is in the column just left of the cursor |
| ScreenProperties.WrittenCell | src/main/tty/receiver/outputProcessor.cjs:113-119 | a character not preceded by a scroll lands just left of the cursor, with the current style |
| ScreenProperties.ClampedLastChar | src/main/tty/receiver/outputProcessor.cjs:91-127 | with autowrap off, `writeText` never leaves the cursor row, and the last character of the text occupies the cell left of the cursor |
| ScreenProperties.WrapKeepsWritingCapturedLine | src/main/tty/receiver/outputProcessor.cjs:93-118 | after an autowrap the next character goes into column 0 of the original row, while the cursor moves to the next row, which is unchanged |
| ScreenProperties.DefaultedParam | src/main/tty/receiver/ansiParser.cjs:235 | `params[i] \|\| d` for parser-made parameters is non-negative, and positive when `d` is |
| ScreenProperties.CursorMovedValid | src/main/tty/receiver/outputProcessor.cjs:303-326 | cursor sequences clamp the cursor into the screen and leave the buffers alone |
| ScreenProperties.EraseValid | src/main/tty/receiver/outputProcessor.cjs:328-335 | erase sequences keep the invariant and the cursor position |
| ScreenProperties.ModeSetValid | src/main/tty/receiver/outputProcessor.cjs:379-404 | mode sequences keep the invariant, and a non-private one changes nothing |
| ScreenProperties.InfoCounts | src/main/tty/receiver/ansiParser.cjs:230-305 | the counts and positions of cursor sequences from the parser are never negative |
| ScreenProperties.SequenceHandledValid | src/main/tty/receiver/outputProcessor.cjs:286-301 | `handleSequence` keeps the invariant, and a non-private sequence changes neither the modes, nor the saved cursor, nor the inactive buffer |
| ScreenProperties.TabStop | src/main/tty/receiver/outputProcessor.cjs:244-249 | `Math.ceil((x + 1) / 8) * 8` is the first multiple of 8 to the right of `x` |
| ScreenProperties.HandleValid | src/main/tty/receiver/outputProcessor.cjs:220-275 | every handler keeps the invariant; those other than private modes and the four guarded escapes leave the modes, the saved cursor and the inactive buffer unchanged |
| ScreenProperties.LineFeedScrolls | src/main/tty/receiver/outputProcessor.cjs:277-284 | a line feed on the bottom row scrolls and keeps the cursor there; elsewhere it moves the cursor one row down |
| ScreenProperties.HandleAllValid | src/main/tty/receiver/outputProcessor.cjs:220-275 | any sequence of parser events keeps the invariant, and ordinary events keep the settings |
| ScreenProperties.ProcessedOutputKeepsModes | src/main/tty/receiver/outputProcessor.cjs:406-408 | whatever `process` is fed, the screen stays valid and the modes, saved cursor and inactive buffer never change |
| ScreenProperties.AlternateScreenRoundTrip | src/main/tty/receiver/outputProcessor.cjs:72-89 | entering the alternate screen, handling ordinary events and leaving it restores the main buffer and the cursor |
| ScreenProperties.StyledAllAppend | src/main/tty/receiver/outputProcessor.cjs:337-377 | applying two style lists in turn is applying their concatenation |
| ScreenProperties.ResetForgets | src/main/tty/receiver/outputProcessor.cjs:341-343 | a `reset` entry discards every style before it |
| ScreenProperties.StyledAllFromTheEnd | src/main/tty/receiver/outputProcessor.cjs:337-377 | the style after a list is given field by field: the flags set since the last reset, and the last colour of each kind not followed by a reset |
| ScreenProperties.LineTextAppend | src/main/tty/receiver/outputProcessor.cjs:129-131 | the text of two concatenated cell runs is the concatenation of their texts |
| ScreenProperties.LineTextWithoutHoles | src/main/tty/receiver/outputProcessor.cjs:129-131 | a line without holes shows one character per cell: the cell's own, or a space for an erased one |
| ScreenProperties.SameHolesSameWidth | src/main/tty/receiver/outputProcessor.cjs:129-131 | lines with holes in the same places have texts of the same length |
| ScreenProperties.ErasingKeepsWidth | src/main/tty/receiver/outputProcessor.cjs:183-198 | erasing cells never changes the width of a line's text |
| ScreenProperties.LineClearedText | src/main/tty/receiver/outputProcessor.cjs:179-205 | `clearLine` erases from the cursor (0), up to and including it (1), or empties the line (2), and rebuilds its text |
| ScreenProperties.ClearScreenKeepsCursorLineText | src/main/tty/receiver/outputProcessor.cjs:141-167 | `clearScreen(0)` and `clearScreen(1)` erase the cursor line's cells but leave its text as it was |
| ScreenProperties.ClearScreenAll | src/main/tty/receiver/outputProcessor.cjs:168-174 | `clearScreen(2)` blanks every row of the active buffer |
| ScreenProperties.ClearScreenNeverThrows | src/main/tty/receiver/outputProcessor.cjs:139-167 | on a screen of at least one row and column, with the cursor on it, the row `clearScreen` reads under the cursor always exists, so it never throws |
| ScreenProperties.ClearScreenWithoutRows | src/main/tty/receiver/outputProcessor.cjs:139-167 | on a screen of no rows `clearScreen(1)` reads the missing row 0, and after a line feed `clearScreen(0)` reads row -1; both throw in the program, while the model leaves the screen unchanged |
| ScreenProperties.ScreenViewSize | src/main/tty/receiver/outputProcessor.cjs:410-421 | `getScreen` shows one line per row, each the text of that row |
| Output.FeedCons | src/main/tty/receiver/outputProcessor.cjs:220-275 | handling a non-empty list of events is handling the first one, then the rest |
| Output.HandleOneStep | src/main/tty/receiver/outputProcessor.cjs:220-275 | handling one more event keeps the remaining work equal |
| Output.OutputProcessor.constructor | src/main/tty/receiver/outputProcessor.cjs:210-218 | a missing, zero or NaN size defaults to 80 × 24; the state is fresh and the parser is initial |
| Output.OutputProcessor.HandleEvent | src/main/tty/receiver/outputProcessor.cjs:220-275 | each registered listener changes the state as `Handle` says and emits its update notice |
| Output.OutputProcessor.HandleLineFeed | src/main/tty/receiver/outputProcessor.cjs:277-284 | the cursor moves down one row and scrolls at the bottom; a cursor update is emitted |
| Output.OutputProcessor.HandleSequence | src/main/tty/receiver/outputProcessor.cjs:286-301 | dispatch on the sequence's type; `unknown` sequences change nothing |
| Output.OutputProcessor.HandleCursorSequence | src/main/tty/receiver/outputProcessor.cjs:303-326 | the cursor moves as `CursorMoved` says, clamped to the screen |
| Output.OutputProcessor.HandleEraseSequence | src/main/tty/receiver/outputProcessor.cjs:328-335 | erase-display goes to `clearScreen`, erase-line to `clearLine` |
| Output.OutputProcessor.HandleStyleSequence | src/main/tty/receiver/outputProcessor.cjs:337-377 | only the current style changes: the styles are applied left to right |
| Output.OutputProcessor.HandleModeSequence | src/main/tty/receiver/outputProcessor.cjs:379-404 | only private modes 1049, 25, 1000 and 2004 change anything |
| Output.OutputProcessor.Process | src/main/tty/receiver/outputProcessor.cjs:406-408 | the parser advances as `Run` says, and the screen is every emitted event handled in order |
| Output.OutputProcessor.GetScreen | src/main/tty/receiver/outputProcessor.cjs:410-421 | the view is the text of every line of the active buffer, the cursor and the title |
| Output.OutputProcessor.Resize | src/main/tty/receiver/outputProcessor.cjs:423-428 | the new size is recorded and a fresh state of that size replaces the old one |
| Output.OutputProcessor.Reset | src/main/tty/receiver/outputProcessor.cjs:430-434 | a fresh state of the current size, and the parser back in its initial state |
| Binary.SequenceLength | src/main/tty/receiver/binaryDecoder.cjs:158-164 | the length a lead byte announces is at most 4 |
| Binary.LeadLength | src/main/tty/receiver/binaryDecoder.cjs:158-164 | the lengths by byte range are at most 4 |
| Binary.SequenceLengthByRange | src/main/tty/receiver/binaryDecoder.cjs:158-164 | the bit masks select exactly: 1 for 0x00–0x7F, 2 for 0xC0–0xDF, 3 for 0xE0–0xEF, 4 for 0xF0–0xF7, 0 otherwise |
| Binary.First | src/main/tty/receiver/binaryDecoder.cjs:95-151 | a turn of the loop that does not stop consumes between 1 byte and what is left |
| Binary.ScanAt | src/main/tty/receiver/binaryDecoder.cjs:95-151 | the scan from index `i` is one turn followed by the scan from where it stops, or the kept bytes when it cuts |
| Binary.ScanFromIsScan | src/main/tty/receiver/binaryDecoder.cjs:95-151 | walking the buffer by index from `i`, as the loop does, gives the same result and kept bytes as scanning the bytes left from `i` |
| Binary.ScanFromStart | src/main/tty/receiver/binaryDecoder.cjs:95-151 | the index walk from the first byte gives exactly the scan of the whole buffer |
| Binary.CombineNothing | src/main/tty/receiver/binaryDecoder.cjs:86-93 | appending the empty result on either side changes nothing |
| Binary.ThenAssociative | src/main/tty/receiver/binaryDecoder.cjs:86-151 | appending pieces to the result is associative |
| Binary.BinaryBytes | src/main/tty/receiver/binaryDecoder.cjs:67-71 | `Buffer.from(s, 'binary')` gives one byte per character |
| Binary.Scan | src/main/tty/receiver/binaryDecoder.cjs:95-151 | the bytes kept for the next chunk are a non-empty tail of the bytes scanned |
| Binary.IsBase64 | src/main/tty/receiver/binaryDecoder.cjs:176-179 | a string it accepts has a length divisible by 4 and only alphabet characters, except `=` in the last two places |
| Binary.MatchesBase64Chars | src/main/tty/receiver/binaryDecoder.cjs:178 | a string the pattern matches has alphabet characters only, except `=` in the last two places |
| Binary.FromIpc | src/main/tty/receiver/binaryDecoder.cjs:25-47 | a produced result is emitted as `decoded`; a call that produces nothing keeps the kept bytes; the outcome is unsupported exactly for data that is neither bytes nor a string |
| Binary.BinaryDecoder.constructor | src/main/tty/receiver/binaryDecoder.cjs:16-22 | the mode defaults to `utf8` and the buffer size to 65536; nothing is kept |
| Binary.BinaryDecoder.ProcessBuffer | src/main/tty/receiver/binaryDecoder.cjs:79-155 | the result is the scan of the kept bytes followed by the new ones, the new cut-off sequence is kept, and the result is emitted |
| Binary.BinaryDecoder.ScanAll | src/main/tty/receiver/binaryDecoder.cjs:95-151 | the `while` loop returns exactly `Scan`'s result and kept bytes |
| Binary.BinaryDecoder.ScanByte | src/main/tty/receiver/binaryDecoder.cjs:97-150 | one turn (control byte, ASCII byte, complete or cut-off multi-byte sequence, or binary byte) moves `i` forward, at most to the end of the buffer, and is exactly one step of the index walk; a cut keeps every byte from `i` |
| Binary.BinaryDecoder.DecodeBytes | src/main/tty/receiver/binaryDecoder.cjs:50-53 | `decodeUint8Array` and `decodeBuffer` are `processBuffer` of the bytes |
| Binary.BinaryDecoder.DecodeString | src/main/tty/receiver/binaryDecoder.cjs:67-71 | `decodeString` is `processBuffer` of each character's low byte |
| Binary.BinaryDecoder.DecodeBase64 | src/main/tty/receiver/binaryDecoder.cjs:56-64 | a failed base64 decode emits `error` and gives `null` with the kept bytes untouched; otherwise the decoded bytes are processed |
| Binary.BinaryDecoder.DecodeFromIpc | src/main/tty/receiver/binaryDecoder.cjs:25-47 | the outcome, the kept incomplete bytes and the events appended to `emitted` are those of `Binary.FromIpc`: bytes are scanned after the kept bytes; a base64-looking string whose decode fails returns `null`, keeps the kept bytes and emits only `error`; other strings are decoded as base64 or as binary; anything else is unsupported and changes nothing |
| Binary.BinaryDecoder.Reset | src/main/tty/receiver/binaryDecoder.cjs:244-247 | the kept sequence and the buffer are dropped |
| Binary.ElectronTTYReceiver.constructor | src/main/tty/receiver/binaryDecoder.cjs:251-256 | a fresh UTF-8 decoder with the default buffer size, nothing kept, an empty buffer and nothing emitted, and no chunks |
| Binary.ElectronTTYReceiver.ReceiveChunk | src/main/tty/receiver/binaryDecoder.cjs:258-271 | binary, text and base64 chunks go to their decoder, with the same outcome, kept bytes and emitted events as a direct call; other types give `undefined` and change nothing; the chunk list, mode and buffer are untouched |
| Binary.ElectronTTYReceiver.End | src/main/tty/receiver/binaryDecoder.cjs:274-277 | the decoder is reset as `reset` does: nothing kept and an empty buffer, with its mode, buffer size and emitted events unchanged; the chunk list is emptied |
| BinaryProperties.ScanUnfold | src/main/tty/receiver/binaryDecoder.cjs:95-151 | the scan of non-empty bytes is one turn, then the scan of the rest |
| BinaryProperties.ScanDecodes | src/main/tty/receiver/binaryDecoder.cjs:95-151 | the text and kept bytes of the scan do not depend on where in the buffer the bytes sit |
| BinaryProperties.FirstOfLonger | src/main/tty/receiver/binaryDecoder.cjs:116-142 | a turn that fits in the bytes does the same when more bytes follow |
| BinaryProperties.DecodeSplit | src/main/tty/receiver/binaryDecoder.cjs:79-155 | decoding `a + b` equals decoding `a` and then `b` after what `a` kept |
| BinaryProperties.ChunkSplit | src/main/tty/receiver/binaryDecoder.cjs:79-155 | splitting the input into two chunks gives the same text and the same kept bytes as decoding it at once |
| BinaryProperties.TwoChunks | src/main/tty/receiver/binaryDecoder.cjs:79-155 | two `processBuffer` calls on a fresh decoder give the text of one call on the concatenation |
| BinaryProperties.KeptTail | src/main/tty/receiver/binaryDecoder.cjs:120-124 | the kept bytes are a 1–3 byte suffix of the input, starting with a lead byte 0xC0–0xF7 that announces more bytes than are left |
| BinaryProperties.DecodeKeepsTail | src/main/tty/receiver/binaryDecoder.cjs:120-124 | the same for the position-free decoding |
| BinaryProperties.AsciiText | src/main/tty/receiver/binaryDecoder.cjs:110-114 | ASCII bytes give one character each |
| BinaryProperties.AsciiScan | src/main/tty/receiver/binaryDecoder.cjs:110-114 | ASCII input decodes to the same characters, with no binary entries, no errors and nothing kept |
| BinaryProperties.TurnControl | src/main/tty/receiver/binaryDecoder.cjs:98-107 | the control entry a turn records is the byte at its position |
| BinaryProperties.ControlsShift | src/main/tty/receiver/binaryDecoder.cjs:98-107 | entries recorded for a later part of the buffer are recorded for the whole |
| BinaryProperties.ControlsRecorded | src/main/tty/receiver/binaryDecoder.cjs:98-107 | every entry of `control` names a control byte of the input at its recorded position |
| BinaryProperties.DecodeAsciiString | src/main/tty/receiver/binaryDecoder.cjs:67-71 | `decodeString` on a decoder with nothing kept gives back an ASCII string unchanged |
| BinaryProperties.MatchesBase64Iff | src/main/tty/receiver/binaryDecoder.cjs:176-179 | the pattern accepts exactly base64 characters followed by at most two `=` |
| BinaryProperties.Base64Examples | src/main/tty/receiver/binaryDecoder.cjs:176-179 | `""`, `abcd`, `ab==` and `abc=` count as base64; `abc`, `a=bc` and `a===` do not |
| BinaryProperties.EscapeAppend | src/main/tty/receiver/binaryDecoder.cjs:182-205 | escaping distributes over concatenation |
| BinaryProperties.ControlEscapeShape | src/main/tty/receiver/binaryDecoder.cjs:183-204 | each escape is a backslash and a letter, or `\x` and two hex digits, and contains no control character |
| BinaryProperties.EscapedHasNoControls | src/main/tty/receiver/binaryDecoder.cjs:182-205 | the displayed text never contains a control character |
| BinaryProperties.EscapeKeepsPlainText | src/main/tty/receiver/binaryDecoder.cjs:182-205 | text without control characters is displayed unchanged |
| BinaryProperties.EscapeIsNotInjective | src/main/tty/receiver/binaryDecoder.cjs:182-205 | a newline and a backslash followed by `n` display alike |
| Encoding.FirstLetter | src/main/tty/sender/inputEncoder.cjs:98-99 | the index of the first match of `[A-Za-z~]`, or none when there is no match |
| Encoding.WithModifiers | src/main/tty/sender/inputEncoder.cjs:88-105 | with no modifier, or a base that is not a CSI sequence, the base is returned as it is; a CSI base stays a CSI sequence |
| Encoding.EncodeCtrl | src/main/tty/sender/inputEncoder.cjs:131-140 | the result is `null` or one control character whose code plus 64 is the upper-cased first character, and it counts as a special sequence |
| Encoding.EncodeAlt | src/main/tty/sender/inputEncoder.cjs:143-145 | one character longer than the text, a special sequence, and the text follows the ESC unchanged |
| Encoding.EncodeX10Mouse | src/main/tty/sender/inputEncoder.cjs:148-157 | six characters starting with `ESC [ M`, a special sequence |
| Encoding.EncodeSgrMouse | src/main/tty/sender/inputEncoder.cjs:160-163 | starts with `ESC [ <` and ends with `M` for a press, `m` for a release |
| Encoding.InputEncoder.constructor | src/main/tty/sender/inputEncoder.cjs:181-186 | an empty or missing platform becomes the host platform; the three flags are as given |
| Encoding.InputEncoder.EncodeText | src/main/tty/sender/inputEncoder.cjs:203-207 | text without a line feed is unchanged; on Windows, dropping the carriage returns from the result gives back text that had none |
| Encoding.InputEncoder.EncodeKey | src/main/tty/sender/inputEncoder.cjs:209-231 | a key found in the tables, in the order the source tries them, gives a special sequence |
| Encoding.InputEncoder.EncodePaste | src/main/tty/sender/inputEncoder.cjs:233-238 | in bracketed mode the text sits unchanged between `ESC [200~` and `ESC [201~`; otherwise text without a line feed is unchanged |
| Encoding.InputEncoder.EncodeMouse | src/main/tty/sender/inputEncoder.cjs:240-249 | empty exactly when mouse tracking is off, and a special sequence when it is on |
| Encoding.InputEncoder.Encode | src/main/tty/sender/inputEncoder.cjs:188-201 | only keys can give `null`; an unknown request type passes its input through; a mouse request gives the empty string exactly when tracking is off |
| Encoding.InputEncoder.SetApplicationMode | src/main/tty/sender/inputEncoder.cjs:251-253 | only the application-mode flag changes |
| Encoding.InputEncoder.SetMouseTracking | src/main/tty/sender/inputEncoder.cjs:255-257 | only the mouse-tracking flag changes |
| Encoding.InputEncoder.SetBracketedPaste | src/main/tty/sender/inputEncoder.cjs:259-261 | only the bracketed-paste flag changes |
| Encoding.ModifierBits | src/main/tty/sender/inputEncoder.cjs:89-92 | the modifier parameter minus one encodes shift, alt and ctrl in its three bits |
| Encoding.ModifiedCsiKey | src/main/tty/sender/inputEncoder.cjs:94-101 | a modified CSI key gets the modifier between its prefix and its letter |
| Encoding.FirstLetterAfter | src/main/tty/sender/inputEncoder.cjs:98-99 | the first letter of a prefix without letters followed by a letter is that letter |
| Encoding.UnmodifiedKey | src/main/tty/sender/inputEncoder.cjs:94-104 | without a modifier, or for a key that is not a CSI sequence, the key is unchanged |
| Encoding.ModifiedKeyWithoutLetter | src/main/tty/sender/inputEncoder.cjs:98-101 | a CSI base with no letter ends in the text `undefined` |
| Encoding.ReplaceAbsent | src/main/tty/sender/inputEncoder.cjs:206 | replacing a character the text lacks changes nothing |
| Encoding.ReplaceBySelf | src/main/tty/sender/inputEncoder.cjs:206 | replacing a character by itself changes nothing |
| Encoding.EncodeTextOffWindows | src/main/tty/sender/inputEncoder.cjs:203-207 | off Windows `encodeText` sends the text unchanged |
| Encoding.Without | src/main/tty/sender/inputEncoder.cjs:203-207 | removing a character leaves none of it |
| Encoding.WindowsNewlinesRoundTrip | src/main/tty/sender/inputEncoder.cjs:114-123 | on Windows each `\n` becomes `\r\n`, and removing the `\r`s gives the original back |
| Encoding.CarriageReturnsRemoved | src/main/tty/sender/inputEncoder.cjs:114-123 | removing the `\r`s from the Windows form of a text without `\r` gives the text back |
| Encoding.NewlineGivesCarriageReturn | src/main/tty/sender/inputEncoder.cjs:114-123 | a text with a `\n` has a `\r` in its Windows form |
| Encoding.WithoutAppend | src/main/tty/sender/inputEncoder.cjs:203-207 | removal distributes over concatenation |
| Encoding.BracketedPasteFraming | src/main/tty/sender/inputEncoder.cjs:126-128 | the paste lies between the 6-character markers and the whole is an escape sequence |
| Encoding.CtrlKeys | src/main/tty/sender/inputEncoder.cjs:131-140 | `Ctrl+c` is defined exactly for `@`, letters and `[ \ ] ^ _`, gives one control character, and adding 64 gives back the upper-case key |
| Encoding.CtrlIgnoresCase | src/main/tty/sender/inputEncoder.cjs:131-136 | a letter and its capital give the same control code |
| Encoding.KeyCodesAreSpecial | src/main/tty/sender/inputEncoder.cjs:7-41 | every named key is sent as an escape sequence or a control character |
| Encoding.ArrowKeysAreSpecial | src/main/tty/sender/inputEncoder.cjs:44-55 | every arrow key is an escape sequence |
| Encoding.FunctionKeysAreSpecial | src/main/tty/sender/inputEncoder.cjs:58-71 | every function key is an escape sequence |
| Encoding.EditKeysAreSpecial | src/main/tty/sender/inputEncoder.cjs:74-85 | every editing key is an escape sequence |
| Encoding.DirectionsAreNotKeyCodes | src/main/tty/sender/inputEncoder.cjs:7-41 | no direction is also a named control key, so the arrow table is reached |
| Encoding.ArrowKeyModes | src/main/tty/sender/inputEncoder.cjs:212-216 | arrows are `ESC [` in normal mode and `ESC O` in application mode, then the direction's letter |
| Encoding.ApplicationArrowNameIsUndefined | src/main/tty/sender/inputEncoder.cjs:212-216 | the key `APP_UP` in application mode looks up `APP_APP_UP` and gives `undefined` |
| Encoding.PlainKey | src/main/tty/sender/inputEncoder.cjs:209-231 | a key in no table and without `Ctrl+` or `Alt+` is sent as it is |
| Encoding.X10MouseDecodes | src/main/tty/sender/inputEncoder.cjs:148-157 | the X10 report is `ESC [ M` and three characters whose coordinates decode to the position clamped to 0–222, and whose button byte carries +3 on release |
| Encoding.SgrMouseDecodes | src/main/tty/sender/inputEncoder.cjs:160-163 | the SGR report splits back into the button and the 1-based coordinates, ending in `M` on press and `m` on release |
| Encoding.SgrFieldsParse | src/main/tty/sender/inputEncoder.cjs:160-163 | each field of the SGR report parses back as the number written |
| Encoding.NumberHasNoSemicolon | src/main/tty/sender/inputEncoder.cjs:162 | a written number contains no `;` |
| Encoding.SplitThree | src/main/tty/sender/inputEncoder.cjs:162 | three `;`-free fields joined by `;` split back into the three |
| Encoding.MouseNeedsTracking | src/main/tty/sender/inputEncoder.cjs:240-249 | mouse events give nothing unless tracking is on, and an escape sequence when it is |
| Encoding.PasteModes | src/main/tty/sender/inputEncoder.cjs:233-238 | a paste is bracketed exactly when bracketed paste is on, and otherwise is encoded as text |
| Encoding.NewlinesReplaced | src/main/tty/sender/inputEncoder.cjs:114-124 | replacing line feeds by the platform's newline leaves text without line feeds unchanged; on Windows, dropping the carriage returns from the result gives back text that had none |
| Encoding.TablesAreSpecial | src/main/tty/sender/inputEncoder.cjs:7-85 | every sequence found by the table lookups of `encodeKey` is a special sequence |
| Encoding.NotInTables | src/main/tty/sender/inputEncoder.cjs:7-85 | a key whose second character is a lower-case letter, such as `Ctrl+…` or `Alt+…`, is in none of the four tables |
| Encoding.CtrlPrefixedKey | src/main/tty/sender/inputEncoder.cjs:221-224 | `Ctrl+` followed by any text is encoded as `encodeCtrl` of that text |
| Encoding.AltPrefixedKey | src/main/tty/sender/inputEncoder.cjs:225-228 | `Alt+` followed by any text is ESC then that text, and dropping the ESC gives the text back |
| Encoding.EncodeRequests | src/main/tty/sender/inputEncoder.cjs:188-201 | `encode` routes each request type to its encoder: other types pass through, keys are looked up, pastes are bracketed or encoded as text, text off Windows is unchanged, and mouse events are empty exactly when tracking is off |
| Controls.Nums | src/main/tty/sender/controlSequences.cjs:10-14 | the numbers of a sequence as parser values, one per number |
| Controls.Cursor | src/main/tty/sender/controlSequences.cjs:8-33 | every cursor builder starts with ESC and is at least two characters long |
| Controls.Screen | src/main/tty/sender/controlSequences.cjs:36-54 | every screen builder starts with `ESC [` |
| Controls.Text | src/main/tty/sender/controlSequences.cjs:57-93 | every text builder is a CSI sequence ending in `m` |
| Controls.Mode | src/main/tty/sender/controlSequences.cjs:96-135 | every mode builder starts with ESC |
| Controls.Title | src/main/tty/sender/controlSequences.cjs:141-145 | `ESC ] n ;`, then the title unchanged, then BEL |
| Controls.HyperlinkStart | src/main/tty/sender/controlSequences.cjs:149 | starts with `ESC ]8;`, ends with the URL unchanged and BEL |
| Controls.HyperlinkEnd | src/main/tty/sender/controlSequences.cjs:150 | the same as the start of a link with an empty URL and no id |
| Controls.Compose | src/main/tty/sender/controlSequences.cjs:154 | the length is the sum of the parts' lengths, and one part is returned as it is |
| Controls.JoinLength | src/main/tty/sender/controlSequences.cjs:154 | joining with the empty separator neither adds nor drops characters |
| Controls.NumberParam | src/main/tty/receiver/ansiParser.cjs:115-126 | a written non-negative number is parameter bytes without `;` and reads back as itself |
| Controls.CsiParamsCons | src/main/tty/receiver/ansiParser.cjs:117-123 | a leading field followed by `;` commits that field |
| Controls.FieldsParams | src/main/tty/sender/controlSequences.cjs:10-14 | a `;`-separated list of non-negative numbers reads back as exactly those numbers |
| Controls.SequenceDispatches | src/main/tty/receiver/ansiParser.cjs:115-140 | `ESC [ body f` dispatches one sequence with the parameters read from `body` |
| Controls.NumbersDispatch | src/main/tty/sender/controlSequences.cjs:10-14 | a numeric CSI sequence dispatches one sequence with those numbers |
| Controls.SilentEscape | src/main/tty/receiver/ansiParser.cjs:105-112 | an escape whose character lies outside 0x40–0x5F dispatches nothing |
| Controls.PrivateModeDispatches | src/main/tty/sender/controlSequences.cjs:96-116 | `ESC [ ? n h` or `l` reads back as a non-private set or reset request |
| Controls.DecModeInfo | src/main/tty/receiver/ansiParser.cjs:284-293 | a `[NaN]` sequence with final `h` or `l` is a non-private set or reset |
| Controls.QuestionMarkBody | src/main/tty/receiver/ansiParser.cjs:116-131 | a parameter string that starts with `?` reads as a single NaN |
| Controls.DispatchAppend | src/main/tty/sender/controlSequences.cjs:154 | one dispatching string after another dispatches both, in order |
| Controls.DispatchedParserIsNormal | src/main/tty/receiver/ansiParser.cjs:135 | after a dispatch the parser is in NORMAL with nothing pending |
| Controls.CursorReadsBack | src/main/tty/sender/controlSequences.cjs:8-33 | each cursor call reads back as its meaning: moves, position, column and home as cursor requests, save and restore as nothing, next and previous line as `unknown` |
| Controls.NoParams | src/main/tty/sender/controlSequences.cjs:25 | `ESC [ f` dispatches one sequence with no parameters |
| Controls.OneNumber | src/main/tty/sender/controlSequences.cjs:11-14 | `ESC [ n f` dispatches one sequence with that one number |
| Controls.ScreenReadsBack | src/main/tty/sender/controlSequences.cjs:36-54 | each screen call reads back as its erase or scroll request; the scroll-region calls read back as `unknown` |
| Controls.EraseThenHome | src/main/tty/sender/controlSequences.cjs:38 | `clear()` reads back as an erase of the display, then the cursor home |
| Controls.SgrCodeReadsBack | src/main/tty/sender/controlSequences.cjs:59-92 | a single SGR parameter reads back as the styles the parser derives from it |
| Controls.SgrCodeMeaning | src/main/tty/sender/controlSequences.cjs:59-92 | the styles of each single-parameter text call: its flag or colour, and nothing for the `no…` and default-colour calls |
| Controls.TextReadsBack | src/main/tty/sender/controlSequences.cjs:57-93 | each text call reads back as one SGR sequence whose style list is its meaning |
| Controls.Color256 | src/main/tty/sender/controlSequences.cjs:83-84 | `38;5;n` and `48;5;n` read back as one 256-colour index |
| Controls.ColorRgb | src/main/tty/sender/controlSequences.cjs:87-88 | `38;2;r;g;b` and `48;2;r;g;b` read back as one true colour |
| Controls.ModeReadsBack | src/main/tty/sender/controlSequences.cjs:96-135 | each mode call reads back as a non-private set or reset, and the keypad escapes as nothing |
| Controls.RawModeReadsBack | src/main/tty/sender/controlSequences.cjs:118-134 | `setRawMode(b)` reads back as its four requests, in order |
| Controls.RawModeParts | src/main/tty/sender/controlSequences.cjs:118-134 | `setRawMode` is the join of four `?`-mode requests: 1049 and 1000 with the requested final byte, 25 and 2004 with the opposite one |
| Controls.RawModeRun | src/main/tty/sender/controlSequences.cjs:118-134 | the four `?`-mode requests read back with the finals given |
| Controls.DecModeInfos | src/main/tty/sender/controlSequences.cjs:118-134 | one request per mode, each with its final |
| Controls.DecModesReadBack | src/main/tty/sender/controlSequences.cjs:118-134 | each `?`-mode request of a run reads back in turn |
| Controls.ComposeFour | src/main/tty/sender/controlSequences.cjs:154 | four strings composed are their concatenation |
| Controls.ComposeCons | src/main/tty/sender/controlSequences.cjs:154 | `compose` puts its first argument in front of the composition of the rest |
| Controls.ComposeAppend | src/main/tty/sender/controlSequences.cjs:154 | `compose` of two lists is the concatenation of their compositions |
| Controls.ModeNumberIsLost | src/main/tty/sender/controlSequences.cjs:98-110 | every set-mode builder reads back as the same event, because the mode number becomes NaN |
| Controls.BellReadsBack | src/main/tty/sender/controlSequences.cjs:138 | `bell()` reads back as one bell |
| Controls.TitleReadsBack | src/main/tty/sender/controlSequences.cjs:141-145 | `title.set` and `setWindow` read back as that title, `setTab` as nothing |
| Controls.NumberedTitleReadsBack | src/main/tty/sender/controlSequences.cjs:142-143 | `title.set` and `title.setWindow` parse back as a title event with the same string |
| Controls.NumberedTitleText | src/main/tty/sender/controlSequences.cjs:142-143 | `title.set` and `title.setWindow` are `ESC ]` with the command number 0 or 2, `;`, the title and BEL |
| Controls.TabTitleReadsBack | src/main/tty/sender/controlSequences.cjs:144 | `title.setTab` parses back as nothing |
| Controls.TabTitleIgnored | src/main/tty/receiver/ansiParser.cjs:315-324 | OSC 1 emits nothing |
| Controls.UnknownOscCommand | src/main/tty/receiver/ansiParser.cjs:315-324 | a body whose command number parses as 1 emits nothing, whatever follows |
| Controls.HyperlinkReadsBack | src/main/tty/sender/controlSequences.cjs:148-150 | `hyperlink.start(url, id)` reads back as that link, with `id=` parameters when an id is given |
| Controls.HyperlinkEndReadsBack | src/main/tty/sender/controlSequences.cjs:151 | `hyperlink.end()` reads back as a link with empty parameters and an empty URL |
| Session.StripPrompt | src/main/tty/claudeService.cjs:218-220 | removing a prompt pattern leaves a prefix of the text |
| Session.DetectPrompt | src/main/tty/claudeService.cjs:209-211 | a detected prompt means the text, with trailing whitespace removed, ends in `:` or `>` |
| Session.CleanResponse | src/main/tty/claudeService.cjs:217-221 | the cleaned reply is no longer than the reply and has no whitespace at either end |
| Session.CleanResponseSteps | src/main/tty/claudeService.cjs:217-221 | the cleaning removes the `Human:`, `>` and `Assistant:` patterns once each, in that order, and trims |
| Session.CleanWithIsTrimmed | src/main/tty/claudeService.cjs:217-221 | the cleaned reply neither starts nor ends with white space |
| Session.TrimEndTail | src/main/tty/claudeService.cjs:56-58 | what `trimEnd` removes is white space, and no shorter cut leaves only white space |
| Session.PromptTest | src/main/tty/claudeService.cjs:55-59 | `/P\s*$/` matches exactly when the text ends with `P` once trailing white space is ignored, and only at that position |
| Session.MatchIsAtEnd | src/main/tty/claudeService.cjs:55-59 | a match of a prompt pattern ends exactly where the trailing whitespace starts |
| Session.ReplaceMeaning | src/main/tty/claudeService.cjs:219 | `replace` cuts the text at the match and leaves it alone without one |
| Session.StripAfter | src/main/tty/claudeService.cjs:219 | a prompt followed by white space after a reply is removed, leaving the reply |
| Session.BlankUnderTrim | src/main/tty/claudeService.cjs:215 | a text that trims to nothing is all white space |
| Session.CleanWithOfBlank | src/main/tty/claudeService.cjs:217-221 | white space cleans to nothing |
| Session.BlankResponseIsEmpty | src/main/tty/claudeService.cjs:215-223 | a blank reply gives no message, so the guard before the cleaning changes nothing |
| Session.CleanWithIsSlice | src/main/tty/claudeService.cjs:217-221 | whatever the patterns, the cleaned text is a contiguous piece of the original |
| Session.CleanResponseIsSlice | src/main/tty/claudeService.cjs:214-239 | the assistant message is a contiguous piece of what the program printed |
| Session.HumanPromptIsStripped | src/main/tty/claudeService.cjs:214-239 | a reply followed by `Human:` becomes the trimmed reply |
| Session.StripThenKeep | src/main/tty/claudeService.cjs:218-220 | the first pattern is stripped after the reply, and the other two find nothing |
| Session.ShellPromptIsStripped | src/main/tty/claudeService.cjs:214-239 | a reply followed by `>` becomes the trimmed reply |
| Session.TrimEndOfPadded | src/main/tty/claudeService.cjs:221 | trailing white space after a visible character is exactly what `trimEnd` removes |
| Session.DoubledPromptSurvives | src/main/tty/claudeService.cjs:218-220 | each pattern is removed once only, so a doubled `Human:` leaves one behind |
| Session.SplitPromptIsMissed | src/main/tty/claudeService.cjs:196 | only the newest chunk is searched for a prompt, so a prompt split over two chunks is missed |
| Session.AngleBracketEndsReply | src/main/tty/claudeService.cjs:209-211 | any chunk whose last visible character is `>` ends the reply |
| Session.AfterResponseMeaning | src/main/tty/claudeService.cjs:214-239 | the history gains an assistant message exactly when the cleaned reply is non-empty |
| Session.ClaudeService.constructor | src/main/tty/claudeService.cjs:24-60 | options given override the defaults of 120 × 40, interactive mode and the host platform; the state is IDLE and the history empty |
| Session.ClaudeService.Initialize | src/main/tty/claudeService.cjs:68-126 | outside IDLE it rejects and changes nothing; from IDLE it creates a UTF-8 decoder and an encoder, spawns `claude` or `claude.cmd` (with `--print` in print mode), and ends READY or, when the spawn fails, ERROR with the error emitted |
| Session.ClaudeService.StartFromIdle | src/main/tty/claudeService.cjs:73-125 | the part of `initialize` after the state check |
| Session.ClaudeService.CreateComponents | src/main/tty/claudeService.cjs:92-107 | a decoder in `utf8` mode and an encoder for the service's platform, with application mode and bracketed paste off |
| Session.ClaudeService.SendMessageAsWritten | src/main/tty/claudeService.cjs:266-311 | outside READY it rejects and changes nothing; from READY it records the user message and starts waiting, then fails on `encodeNewline` and ends in ERROR without writing anything |
| Session.ClaudeService.SendAsWrittenWhenReady | src/main/tty/claudeService.cjs:271-310 | the part of `sendMessage` as written after the state check |
| Session.ClaudeService.SendMessage | src/main/tty/claudeService.cjs:266-311 | outside READY it rejects and changes nothing; from READY it records the message, waits for a reply, writes the encoded text and the platform's newline and, in print mode, Ctrl+Z or Ctrl+D, and ends in PROCESSING |
| Session.ClaudeService.SendWhenReady | src/main/tty/claudeService.cjs:271-304 | the part of `sendMessage` after the state check |
| Session.ClaudeService.Keystrokes | src/main/tty/claudeService.cjs:289-302 | the writes are the encoded text with the newline, then the end-of-input character in print mode |
| Session.ClaudeService.HandleRawData | src/main/tty/claudeService.cjs:183-206 | the decoder's outcome, kept bytes and emitted events are those of `Binary.FromIpc` for the data, case by case as in `decodeFromIPC`; the decoded text goes to the output processor; while waiting it extends the reply, a prompt in the chunk ends the reply, and `stream` and `rawData` are emitted; a falsy decode stops at once |
| Session.ClaudeService.HandleText | src/main/tty/claudeService.cjs:189-205 | the part of `handleRawData` after a truthy decode |
| Session.ClaudeService.CollectReply | src/main/tty/claudeService.cjs:193-198 | the reply grows by the chunk, and a prompt in the chunk processes it |
| Session.ClaudeService.ProcessResponse | src/main/tty/claudeService.cjs:214-239 | the cleaned reply joins the history when non-empty, the reply is cleared, waiting stops and the state is READY |
| Session.ClaudeService.HandleExit | src/main/tty/claudeService.cjs:364-373 | TERMINATED with the exit emitted, except that a reply pending in print mode is then processed, which leaves READY |
| Session.ClaudeService.HandleError | src/main/tty/claudeService.cjs:376-380 | always ERROR, with the error emitted |
| Session.ClaudeService.Stop | src/main/tty/claudeService.cjs:383-395 | the program is killed when it was started; always TERMINATED with `stopped` emitted |
| Session.ClaudeService.SendKey | src/main/tty/claudeService.cjs:314-321 | when the program is not running it rejects and changes nothing; otherwise the encoder's value for the key is written, and nothing else changes |
| Session.ClaudeService.Resize | src/main/tty/claudeService.cjs:324-337 | the new size is recorded and passed on to the PTY and the output processor when they exist |
| Session.ClaudeService.ClearBuffer | src/main/tty/claudeService.cjs:353-361 | the PTY buffer and the screen are reset when they exist, and the pending reply is dropped |
| Session.ClaudePrintService.constructor | src/main/tty/claudeService.cjs:421-427 | a service in print mode, whatever mode was asked for |
| Session.ClaudePrintService.SendMessageAsWritten | src/main/tty/claudeService.cjs:429-438 | `initialize` first, so only an IDLE service gets as far as spawning; the inherited send then records the user message and rejects with the missing-method error, leaving the service in ERROR with nothing written after the spawn |
| Session.ClaudePrintService.SendMessage | src/main/tty/claudeService.cjs:429-438 | the corrected send: after `initialize`, an IDLE service spawns, records the user message, writes the encoded message and its line ending, and is PROCESSING |
| Js.At | src/main/tty/receiver/ansiParser.cjs:235 | `arr[i]` is a value exactly for an index inside the array, and is that element |
| Js.OrDefault | src/main/tty/receiver/ansiParser.cjs:235 | `x \|\| d` is `x` when it is a non-zero number, and `d` otherwise |
| Js.ParseIntOfIntToString | src/main/tty/receiver/ansiParser.cjs:119 | `parseInt(String(n))` is `n` for every integer, with numbers taken as exact integers (see "Left out") |
| Js.JoinSplit | src/main/tty/receiver/ansiParser.cjs:312-318 | `s.split(c).join(c)` is `s` |

## Left out

- The PTY manager, the IPC bridge, the Electron `webContents`, timers and `Date` are
  not part of this model. The service records the calls it makes to the PTY manager
  and to the output processor as logs (`pty`, `screen`), and its emitted events as a log.
- Session.ClaudeService.Initialize: `waitForPrompt` always resolves, after a prompt or
  after 5 seconds, so the model folds it into the spawn outcome. The buffering and
  prompt detection of `waitForPrompt`, and `waitForExit` in the print service, are left out.
- The forwarding of the output processor's `update` and `title` events as
  `terminalUpdate` and `title` is left out. The model logs the `process` calls instead.
- `generateSessionId`, message timestamps and the `cwd`, `env`, `useIPC` and `webContents`
  options are left out: they are the clock, randomness and host environment.
- `getScreen`, `getHistory`, `isRunning`, `getState` and `getInfo` of the service are
  left out. They are field reads, or forward to components the service only logs.
- Session.ClaudeService.SendKey: the PTY manager's `isRunning` is a parameter.
- Binary.BinaryDecoder: `decodeUTF8Sequence` (`bytes.toString('utf8')`) and base64 decoding
  (`Buffer.from(s, 'base64')`) are parameters of the decoder. Node's `toString('utf8')`
  never throws and puts U+FFFD in place of a malformed sequence, so with the real decoder
  the `Utf8` parameter always gives a non-empty string: the `BadSequence` turn and its
  `invalid_utf8` error cannot be reached. The model keeps that branch of
  `processBuffer` for a general parameter. `bufferSize` is stored but never used by the
  source either.
- `toSafeFormat` and `encodeForIPC` of the binary decoder, and the module-level
  `encodeText` of the input encoder, are left out. They are format conversions through
  Node buffers that no modelled operation calls.
- `wrapText` of the control-sequence builders is left out. It calls `text.reset()` on a
  string, which always throws.
- The parser's `handleOther` is left out. The states SOS, PM and APC are never entered,
  so it cannot run.
- Strings are modelled with one Dafny character per JavaScript UTF-16 code unit.
  Characters outside the Basic Multilingual Plane count as one character, not two.
  `String.fromCharCode` of a lone surrogate gives U+FFFD.
- Encoding.EncodeCtrl: only ASCII upper-casing is modelled. JavaScript's `toUpperCase`
  also maps a few other characters into 64–95 (`ß` to `SS`, `ı` to `I`, `ſ` to `S`).
- Encoding.InputEncoder.EncodeKey: a key name that is an inherited object property
  (`constructor`, `toString`) is found in the source's tables but not in the model's maps.
- ScreenProperties.NewTermValid and the other screen invariants assume a size of at
  least 1 × 1. The operations accept any size, and they agree with the program at
  every size except in the `clearScreen` case below.
- Screen.TerminalState.ClearScreen, Screen.TerminalState.ClearFromCursor and
  Screen.TerminalState.ClearToCursor: the program's `clearScreen(0)` and `clearScreen(1)`
  read `buffer[cursorY].cells` without checking that the line exists
  (outputProcessor.cjs:147 and :159), so they throw a TypeError when the cursor row is
  outside the active buffer (`Screen.ClearScreenThrows`). That happens only on a
  screen of no rows, such as one resized to 0 rows or given a negative row count
  (`ScreenProperties.ClearScreenWithoutRows`). The
  exception would escape `process` and `handleRawData` and stop the events after it.
  The model skips the missing row and leaves the screen unchanged, and carries on with
  the later events. On a screen of at least 1 × 1 the row always exists
  (`ScreenProperties.ClearScreenNeverThrows`).
- Js.ParseInt and Js.IntToString: JavaScript numbers are doubles, and the model takes
  them as exact unbounded integers. `parseInt` of a parameter of more than about 16
  digits rounds (`parseInt("99999999999999999999")` is 1e20), and from about 309 digits
  it gives Infinity. A template literal writes numbers of 1e21 and above in exponent
  form (`1e+21`), which changes the text of the control-sequence builders and of
  `encodeSgrMouse` for such arguments. `Js.ParseIntOfIntToString` holds for the program
  only below 1e21, and the parser's parameters are exact only up to 2^53.
- The scroll-region fields of the terminal state are left out, because no operation
  reads or writes them.
- Session.ClaudeService.Initialize, Session.ClaudeService.StartFromIdle and
  Session.ClaudeService.Stop run as one atomic step. In the source they set their final
  state after an `await` (the spawn and `waitForPrompt` at claudeService.cjs:113-115, the
  kill at :385-392). While they wait, `handleExit`, `handleError` and `handleRawData` can
  run, and their state is then overwritten: an exit during `waitForPrompt` is followed
  by READY, an error during the kill by TERMINATED. Those interleavings are not modelled.
- Controls.Cursor and Controls.Screen: the default arguments of the builders
  (`moveUp(n = 1)` and the others at controlSequences.cjs:11-29 and 48-49) are explicit
  integer parameters. The call without an argument is the call with 1.

## Findings

| source | as written | input that shows it | evidently intended | confidence | as-written member | corrected member |
|---|---|---|---|---|---|---|
| src/main/tty/claudeService.cjs:290 | `sendMessage` calls `this.inputEncoder.encodeNewline(platform)`, but `InputEncoder` has no such method, so the call throws a TypeError after the user message is recorded and waiting has started. The service ends in ERROR and nothing is written to the program. | any `sendMessage("hi")` on a READY service | the module-level `encodeNewline(platform)` gives the line ending, and the encoded message plus that ending is written, followed in print mode by the end-of-input character | not executed | Session.ClaudeService.SendMessageAsWritten | Session.ClaudeService.SendMessage |
| src/main/tty/claudeService.cjs:432 | the print service's `sendMessage` spawns a fresh program with `initialize` and then awaits the inherited `sendMessage`, which throws at the same missing `encodeNewline` call, so every print-mode message rejects after the spawn with the service in ERROR | any `sendMessage("hi")` on an IDLE print service whose spawn succeeds | the message and its line ending are written to the new program, followed by the end-of-input character | not executed | Session.ClaudePrintService.SendMessageAsWritten | Session.ClaudePrintService.SendMessage |
