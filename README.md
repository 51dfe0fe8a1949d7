# live-code-editor, the terminal session engine and its two smaller companions, in Dafny

This project models the logic of the browser code editor's three stateful parts.

**The simulated terminal** (`TerminalComponent`) has three pieces:
- a line editor with a command history, driven by key events;
- an interpreter for a small fixed set of shell-like commands (`help`, `clear`, `npm`, `ls`, `pwd`, `echo`, `installed-packages`);
- an `npm install` simulation that finishes later, by adding a `name@version` record to a package registry.

**The file explorer** (`FileManager`) has three operations:
- folding and unfolding folders in a two-level tree;
- adding an entry from the "new file" form;
- choosing each entry's icon.

**The application shell** (`App`) keeps four pieces of state:
- a de-duplicating package list;
- an append-only console log;
- the code currently in the editor;
- a focus flag that follows two keyboard shortcuts.

Modules, one per file:
- `Wrappers` holds `Option`.
- `Text` holds JavaScript's `trim`, `split` and `join` on a one-character separator, and `toLowerCase`, over `seq<char>`.
- `Packages` holds the `{ name, version }` records and the three-digit versions.
- `Commands` holds the interpreter. It is a function from a committed line and the registry to the display calls and the install it starts.
- `LineEditor` holds `KeyStep`, the key handler as a function of the editor state and one key, and `Run`, its iteration over a sequence of keys.
- `Session` holds `Terminal`, a class whose fields are the editor's variables, the registry, the waiting installs and the display. Its methods update those fields in place. Each key method is proved to move the state exactly as `KeyStep` says, and `CompleteInstall` states the completion's new state outright.
- `FileManager` and `App` hold those components' handlers, as functions from the old state to the new one.

Display calls are values: `Write(s)`, `WriteLine(s)` and `Clear`. Each handler returns them, or appends them to the terminal's `display` field, in the order the component makes them.

## Model

| member | source | states |
|---|---|---|
| Text.Trim | src/components/TerminalComponent.jsx:72 | `trim()` gives a slice of the input that starts after its leading whitespace and has no whitespace at either end; it is empty exactly when the input is all whitespace |
| Text.TrimDropsOnlyWhitespace | src/components/TerminalComponent.jsx:72 | the input is whitespace, then the trimmed text, then whitespace: trimming removes whitespace at both ends and nothing else |
| Text.TrimIdempotent | src/components/TerminalComponent.jsx:121 | trimming an already trimmed line changes nothing |
| Text.TrimUnchanged | src/components/TerminalComponent.jsx:121 | a line with no whitespace at either end trims to itself |
| Text.Split | src/components/TerminalComponent.jsx:121 | `split(" ")` never gives an empty list |
| Text.SplitPiecesOmitSeparator | src/components/TerminalComponent.jsx:121 | no piece of a split holds the separator |
| Text.JoinSplit | src/components/TerminalComponent.jsx:141 | joining the pieces of a split with the same separator gives the text back, so `echo` keeps runs of spaces |
| Text.SplitJoin | src/components/TerminalComponent.jsx:121 | splitting the join of separator-free pieces gives back the pieces |
| Text.SplitAfterPiece | src/components/TerminalComponent.jsx:121 | separator-free text followed by a separator becomes exactly the first piece |
| Text.SplitSingle | src/components/FileManager.jsx:79 | text without the separator is a single piece |
| Text.SplitFirst | src/components/TerminalComponent.jsx:121 | there are two pieces or more exactly when the separator occurs, and then the text is the first piece, one separator, and the rest rejoined |
| Text.SplitLastPiece | src/components/FileManager.jsx:79 | text ending in a separator and separator-free text splits into at least two pieces, and the last one is that text |
| Text.ToLower | src/components/TerminalComponent.jsx:122 | `toLowerCase()` keeps the length and lowers each character on its own |
| Text.ToLowerUnchanged | src/components/TerminalComponent.jsx:122 | text with no upper-case letter lowers to itself |
| Text.ToLowerIdempotent | src/components/FileManager.jsx:79 | lowering twice is the same as lowering once |
| Packages.DigitChar | src/components/TerminalComponent.jsx:203 | each version component is a single decimal character that reads back as the digit |
| Packages.Version | src/components/TerminalComponent.jsx:203 | the version splits on `.` into exactly three one-digit pieces, in order |
| Packages.VersionInjective | src/components/TerminalComponent.jsx:203 | different digits give different versions |
| Commands.Args | src/components/TerminalComponent.jsx:121 | a line always has a first word, possibly empty |
| Commands.PackageLines | src/components/TerminalComponent.jsx:174-176 | one `  name@version` line per record, in registry order |
| Commands.InstalledPackages | src/components/TerminalComponent.jsx:167-177 | an empty registry gives exactly "No packages installed yet."; otherwise a header, then one line per record, in order |
| Commands.ListingAfterAppend | src/components/TerminalComponent.jsx:167-177 | after a record is appended, the listing is the old one with one more line, for the new record, at the end |
| Commands.Npm | src/components/TerminalComponent.jsx:179-193 | usage text for fewer than two words; an install of the third word exactly when the lowercased second word is `install` and there are three words or more; otherwise `Unsupported npm command:` with the lowercased subcommand |
| Commands.BareNpmInstallUnsupported | src/components/TerminalComponent.jsx:187-192 | `npm install` with no package is reported as an unsupported subcommand and starts nothing |
| Commands.ProcessCommand | src/components/TerminalComponent.jsx:120-150 | every command ends with a prompt. Only `npm install <pkg>` starts an install, of the third word. `help`, `clear`, `npm`, `ls`, `pwd` and `installed-packages` write their own output. An unknown name writes exactly `Command not found: <lowercased name>` |
| Commands.ArgsOfWords | src/components/TerminalComponent.jsx:121 | the words of a line without blank ends are exactly the pieces that join back to it |
| Commands.EchoWritesRestOfLine | src/components/TerminalComponent.jsx:140-142 | `echo` writes one line: the trimmed input after its first word and one space, or nothing when the word stands alone; then a prompt |
| Commands.EchoKeepsDoubleSpace | src/components/TerminalComponent.jsx:140-142 | `echo a  b` writes `a  b`, keeping both spaces |
| Commands.StartsInstall | src/components/TerminalComponent.jsx:187-189 | words `npm`, `install` and a third start an install of the third word |
| Commands.DoubleSpaceInstallsEmptyName | src/components/TerminalComponent.jsx:121 | `npm install  left-pad` has an empty third word, so it installs the empty name |
| LineEditor.KeyStep | src/components/TerminalComponent.jsx:66-109 | the history cursor stays in [-1, history length] and is -1 only while the history is empty. The history changes only on Enter with a non-blank line, which is pushed untrimmed. Only that case can start an install |
| LineEditor.OtherKey | src/components/TerminalComponent.jsx:105-108 | a key with no Alt, Ctrl or Meta appends exactly its text and echoes it, with history and cursor unchanged; with a modifier it changes nothing |
| LineEditor.BackspaceDropsLast | src/components/TerminalComponent.jsx:80-84 | on a non-empty buffer, Backspace removes exactly the last character and writes the erase sequence; on an empty one it does nothing |
| LineEditor.EnterCommits | src/components/TerminalComponent.jsx:70-79 | Enter on a non-blank line runs it, appends it untrimmed as one new entry, sets the cursor to the new history length and empties the buffer. On a blank line it writes a prompt, keeps history and cursor, and empties the buffer |
| LineEditor.UpRecalls | src/components/TerminalComponent.jsx:85-92 | Up acts only when the cursor is above 0: it moves back one and loads that entry |
| LineEditor.DownRecalls | src/components/TerminalComponent.jsx:93-104 | below the newest entry, Down moves forward and loads the entry. From the newest entry it moves past the end and empties the buffer. At the end it does nothing |
| LineEditor.Run | src/components/TerminalComponent.jsx:66-112 | over any key sequence the cursor stays in range and the history only grows, at its end |
| LineEditor.TypingAppends | src/components/TerminalComponent.jsx:105-108 | typing a text appends it to the buffer and echoes it one character at a time, leaving history and cursor alone |
| LineEditor.RunKeepsHistoryNonBlank | src/components/TerminalComponent.jsx:71-74 | no blank line ever enters the history |
| LineEditor.UpRecallsLastCommand | src/components/TerminalComponent.jsx:74-75 | Up right after a command brings back that command as it was typed |
| LineEditor.UpStopsAtOldest | src/components/TerminalComponent.jsx:85-92 | repeated Up walks back one entry per press, newest first, and stops at the oldest |
| LineEditor.DownReachesEmptyEnd | src/components/TerminalComponent.jsx:93-104 | enough presses of Down leave the cursor past the newest entry with an empty buffer, and further presses keep it there |
| LineEditor.DownWithEmptyHistoryClearsInput | src/components/TerminalComponent.jsx:64-104 | with no history the cursor -1 counts as "on the newest entry", so Down empties the buffer and moves the cursor to 0 |
| Session.Terminal.constructor | src/components/TerminalComponent.jsx:36-39 | the terminal opens with the banner and a prompt written, an empty buffer, no history, cursor -1 and an empty registry |
| Session.Terminal.HandleKey | src/components/TerminalComponent.jsx:66-109 | the fields move exactly as `KeyStep` says, its display calls follow the earlier ones, a started install joins the waiting ones, and the registry is untouched |
| Session.Terminal.EnterLine | src/components/TerminalComponent.jsx:70-79 | the Enter branch, with the history pushed in place |
| Session.Terminal.EraseLast | src/components/TerminalComponent.jsx:80-84 | the Backspace branch |
| Session.Terminal.HistoryBack | src/components/TerminalComponent.jsx:85-92 | the Up branch |
| Session.Terminal.HistoryForward | src/components/TerminalComponent.jsx:93-104 | the Down branch |
| Session.Terminal.TypeKey | src/components/TerminalComponent.jsx:105-108 | the branch for every other key |
| Session.Terminal.CompleteInstall | src/components/TerminalComponent.jsx:201-211 | completion appends exactly one record, with no name check, and leaves earlier records unchanged. The version is three dot-separated digits. It writes `+ name@version`, then `Added name@version`, then a prompt, and leaves the editor alone |
| FileManager.ToggleFolder | src/components/FileManager.jsx:22-35 | one result entry per input entry, in order; a top-level entry with the id has only `expanded` negated, and every other top-level entry keeps its flag |
| FileManager.ToggleChildren | src/components/FileManager.jsx:29-31 | one result child per child, flipped exactly when its id matches |
| FileManager.ToggleKeepsShape | src/components/FileManager.jsx:22-35 | toggling keeps the number and order of entries, and every entry's and child's id, name, type and number of children |
| FileManager.ToggleTopLevel | src/components/FileManager.jsx:24-34 | a matching top-level entry has only `expanded` negated, its children untouched. A non-matching one with children keeps its flag and flips exactly the matching children. A non-matching one without children is unchanged |
| FileManager.ToggleTwice | src/components/FileManager.jsx:22-35 | toggling the same id twice restores the tree |
| FileManager.NewEntry | src/components/FileManager.jsx:40-46 | a new entry keeps the untrimmed name and is a file exactly when the name holds a dot; a folder starts folded with no children, and a file is not expanded and has no children list |
| FileManager.AddNewFile | src/components/FileManager.jsx:38-52 | a blank name changes nothing, not even the open form. Any other name appends exactly one entry at the end, leaves the earlier ones unchanged, empties the name and closes the form |
| FileManager.LastPiece | src/components/FileManager.jsx:79 | the popped piece holds no dot |
| FileManager.LastPieceWithoutDot | src/components/FileManager.jsx:79 | a name without a dot is its own extension |
| FileManager.LastPieceOfDotted | src/components/FileManager.jsx:79 | for a name with a dot, the extension is the text after the last dot |
| FileManager.GetFileIcon | src/components/FileManager.jsx:78-93 | the memo icon exactly for `md`, the picture exactly for `ico`, and the page for every other lowercased extension |
| FileManager.IconDependsOnlyOnExtension | src/components/FileManager.jsx:79-92 | the icon depends only on the lowercased text after the last dot |
| FileManager.MarkdownIcon | src/components/FileManager.jsx:87 | any `*.md` name gets the memo icon |
| FileManager.TableLookup | src/components/FileManager.jsx:81-92 | reading the icon table finds an own key exactly for the eight written keys, and an inherited property exactly for `constructor` and `__proto__` |
| FileManager.GetFileIconAsWritten | src/components/FileManager.jsx:92 | the code as written returns an own icon or an inherited property, never nothing |
| FileManager.AsWrittenAgreesAwayFromPrototypeKeys | src/components/FileManager.jsx:78-93 | away from `constructor` and `__proto__` the code as written returns the corrected icon; with them it returns an inherited property |
| FileManager.ProtoExtensionIsNotAnIcon | src/components/FileManager.jsx:92 | any name ending in `.__proto__` gets `Object.prototype` in place of an icon |
| FileManager.EntryIcon | src/components/FileManager.jsx:55-57 | a folder shows the open-folder icon exactly when it is expanded and the closed one otherwise. A file's icon comes from its name, and away from the extensions `constructor` and `__proto__` it is what `getFileIcon` as written returns |
| FileManager.ShownChildren | src/components/FileManager.jsx:69-73 | children are drawn only under an expanded folder, and then all of them; an entry without a children list draws none |
| App.HandlePackageInstall | src/App.jsx:14-30 | a new name is appended with its version and logged as installed. A listed name leaves the list as it is and gets a warning. Exactly one console entry is appended either way, and the name is listed afterwards |
| App.InstallKeepsNamesUnique | src/App.jsx:16-17 | if the names were distinct before an install, they are distinct after it |
| App.InstallTwiceWarns | src/App.jsx:16-28 | a second install of the same name changes the list no further and only adds the warning |
| App.HandleCodeUpdate | src/App.jsx:33-40 | the code is replaced and one log entry, "Code updated with AI suggestions", is appended |
| App.ErrorText | src/App.jsx:46 | a non-empty message is used, otherwise the value's string form; `null` and `undefined` give no text, exactly |
| App.HandleError | src/App.jsx:43-48 | for any value other than `null` and `undefined`, exactly one error entry, `Error: ` followed by the error's text, is appended; for those two the state is unchanged |
| App.FocusOnKey | src/App.jsx:52-63 | Ctrl with the backquote focuses the terminal, Escape always leaves the editor focused, and any other key keeps the focus |
| App.Apply | src/App.jsx:14-63 | every handler other than a key press appends exactly one console entry and keeps the earlier ones, except an error handler given `null` or `undefined`, which leaves the console as it was. A key press changes only the focus. The package list only grows, at its end |
| App.RunIsAppendOnly | src/App.jsx:14-48 | over any run of events, the console grows at its end by one entry per event that logs. The package list grows only at its end, and its names stay distinct |
| App.RunFromStart | src/App.jsx:8-11 | from the first render's empty state, any run of events leaves exactly one console entry per event that logs, and a package list without repeated names |

## Left out

- Terminal construction, theme, fit add-on, `open`, `fit`, the resize listener and `dispose` are display-library plumbing. Only the banner and first prompt are kept, as the constructor's initial display.
- Terminal rendering is not modelled. ANSI escape sequences inside output strings are opaque characters.
- The two-second `setTimeout` and `Math.random` are not modelled. A completion is an explicit later event, `CompleteInstall`, which carries the three digits. Waiting installs complete in the order they started, since every timer has the same delay.
- React state mechanics are not modelled. In the component, `handleKeyEvent` is registered once and keeps the first render's empty `installedPackages`. The completion callback also appends to a stale snapshot. The model keeps the registry as explicit state that each completion extends and each command reads.
- The `npmInstalling` spinner flag is pure UI indication.
- `GeminiGuide.jsx` (an HTTP call and JSX) and `CodeEditor.jsx` (a wrapper over an external widget) are not part of this model. Neither are styles and markup.
- Text.ToLower: lowers ASCII letters only. JavaScript's `toLowerCase` also maps other Unicode letters, such as the Kelvin sign to `k`.
- LineEditor.KeyStep: strings are sequences of Unicode characters, not UTF-16 code units. Backspace drops one whole character, where `substring(0, length - 1)` drops one code unit and so splits a character outside the Basic Multilingual Plane. The same holds for `Session.Terminal.EraseLast`.
- FileManager.ToggleFolder: treats a missing `expanded` flag as false. In JavaScript, toggling a file entry turns `undefined` into `true`, and only a second toggle gives `false`. So toggling twice restores the tree only for entries that carry the flag.
- FileManager.AddNewFile: `Date.now()` is supplied as the parameter `now`.
- App.ErrorText: a thrown value other than `null` or `undefined` is reduced to an optional string message and its string form. Truthy non-string messages are not modelled.
- App.HandleError: for `null` or `undefined`, reading `error.message` throws a `TypeError` inside the state updater, so no entry is added. The model keeps the state unchanged, and what React then does with the exception is not modelled.
- FileManager.EntryIcon: a file's icon comes from the corrected `GetFileIcon` of the Findings row. For a file whose lowercased extension is `constructor` or `__proto__`, `renderFile` as written receives the inherited property, as `GetFileIconAsWritten` shows, where the model shows the page icon.

## Findings

| source | as written | input that shows it | evidently intended | confidence | as-written member | corrected member |
|---|---|---|---|---|---|---|
| src/components/FileManager.jsx:92 | `fileIcons[extension]` reads a plain object, so inherited `Object.prototype` properties count as hits; the result is truthy, so it is returned in place of an icon | a file named `notes.__proto__` (or `x.constructor`) | only the table's own keys are icons; every other extension gets the page icon | not executed | FileManager.GetFileIconAsWritten, FileManager.ProtoExtensionIsNotAnIcon | FileManager.GetFileIcon |
