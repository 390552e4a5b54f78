# Terminal portfolio: command interpreter and session model

This project models, in Dafny, the core of a portfolio site that looks like a command-line terminal. The core is the `TerminalPortfolio` component (`src/components/TerminalPortfolio.tsx`).

A visitor types a line, for example `help`, `about`, `cat resume` or `clear`. The component does three things with it:

- It resolves the line against a fixed table of nine commands.
- It appends the result to an on-screen transcript, or clears the transcript for `clear`.
- It keeps every submitted line for recall with ArrowUp and ArrowDown.

The model has four modules:

- **`Strings`** (`strings.dfy`): the three JavaScript string operations the resolver uses.
  - `trim` removes the ECMAScript WhiteSpace and LineTerminator characters.
  - `toLowerCase` is modelled as a character mapping.
  - `split(' ')` is modelled together with its inverse, `join(' ')`.
- **`Commands`** (`commands.dfy`): the output type and the `commands` table (`Registry`). The table is built from a `Content` value that holds each producer's fixed prose. This module also holds `handleCatCommand` and `processCommand`. The error messages are reproduced character for character.
- **`Session`** (`session.dfy`): the session state as a value, with fields `history`, `currentInput`, `historyIndex` and `commandHistory`. Each handler is a function on that value, and the lemmas state what each handler promises.
- **`Terminal`** (`terminal.dfy`): the component as a class with those four fields.
  - Each handler is a method that assigns the fields as the React state setters do.
  - Each method's postcondition equates the new fields with the matching `Session` function applied to the old fields.
  - The class invariant `Valid` is the cursor bound `-1 <= historyIndex <= |commandHistory| - 1`. It keeps the recall read `commandHistory[length - 1 - newIndex]` inside the list.

In `handleSubmit`, the null check on the output (line 299) never returns, because `processCommand` returns nothing only for a blank line, and line 295 has already returned on those (`Session.SubmitNonBlank`). `Session.Submit` keeps both checks. The method `HandleSubmit` keeps only the blank-line check, since the other branch cannot be reached.

Editing (line 506) replaces the input line and does not reset the recall cursor.

## Model

| member | source | states |
|---|---|---|
| `Strings.Trim` | src/components/TerminalPortfolio.tsx:271 | the result has no whitespace at either end, the input is the result with whitespace padded around it, and the result is empty exactly when the input is all whitespace |
| `Strings.TrimOfPadded` | src/components/TerminalPortfolio.tsx:271 | uniqueness: whitespace padded around a string with non-white ends is exactly what trimming removes |
| `Strings.TrimIgnoresPadding` | src/components/TerminalPortfolio.tsx:271 | extra leading or trailing whitespace never changes the trimmed line |
| `Strings.TrimIdempotent` | src/components/TerminalPortfolio.tsx:271 | trimming twice equals trimming once |
| `Strings.ToLower` | src/components/TerminalPortfolio.tsx:271 | lower-casing keeps the length and maps each character on its own |
| `Strings.LowerChar` | src/components/TerminalPortfolio.tsx:271 | lower-casing a character keeps whether it is whitespace, keeps the space, and leaves no capital behind |
| `Strings.TrimToLowerCommute` | src/components/TerminalPortfolio.tsx:271 | lower-casing and trimming commute |
| `Strings.Split` | src/components/TerminalPortfolio.tsx:272 | splitting on `' '` gives at least one piece, no piece contains a space, and joining the pieces with single spaces gives the input back |
| `Strings.SplitJoin` | src/components/TerminalPortfolio.tsx:272 | splitting a join of space-free pieces gives the pieces back |
| `Commands.Registry` | src/components/TerminalPortfolio.tsx:47-247 | the table has exactly the nine names, only `clear` produces the clear signal, and no producer returns an error |
| `Commands.HandleCatCommand` | src/components/TerminalPortfolio.tsx:250-268 | a missing or empty first argument gives the missing-operand error; the result is an error exactly when the first argument is not a displayable section (every name but `clear` and `ls`); otherwise the result is that section's output; it never clears the screen; the missing-operand error is `MissingOperand` (`cat: missing operand\nTry 'help' for more information.`, line 255), character for character; the no-such-file text `NoSuchFile` (`cat: <s>: No such file or directory`, line 266) is stated by `DispatchNoSuchFile` |
| `Commands.Tokens` | src/components/TerminalPortfolio.tsx:271-272 | the normalised (trimmed, lower-cased) line splits into at least one word, no word contains a space, joining the words with single spaces gives the normalised line back, and the first word is empty exactly when the line is blank |
| `Commands.Dispatch` | src/components/TerminalPortfolio.tsx:274-288 | there is no output exactly when the command word is empty; the `Dispatch…` lemmas below give each branch; an unknown word gives `NotFound` (`Command not found: <word>\nType 'help' for available commands.`, line 287) |
| `Commands.DispatchKnown` | src/components/TerminalPortfolio.tsx:280-283 | a registered name other than `cat` runs its producer, whatever the arguments |
| `Commands.DispatchUnknown` | src/components/TerminalPortfolio.tsx:280-288 | a non-empty word that is neither registered nor `cat` gives the `NotFound` error for that word |
| `Commands.DispatchEmptyOperand` | src/components/TerminalPortfolio.tsx:252-257 | `cat` whose first argument is the empty word gives the missing-operand error |
| `Commands.DispatchCat` | src/components/TerminalPortfolio.tsx:259-262 | `cat <s>` for a displayable section runs that section's producer |
| `Commands.DispatchNoSuchFile` | src/components/TerminalPortfolio.tsx:259-267 | `cat <s>` for a non-empty word that is not a displayable section gives the no-such-file error for that word |
| `Commands.DispatchClears` | src/components/TerminalPortfolio.tsx:276-283 | dispatch gives the clear signal exactly when the command word is `clear` |
| `Commands.ProcessCommand` | src/components/TerminalPortfolio.tsx:270-289 | there is no output exactly when the line is blank or whitespace-only |
| `Commands.ResolveNormalised` | src/components/TerminalPortfolio.tsx:270-272 | every line resolves as its `trim().toLowerCase()` form does |
| `Commands.ResolveIgnoresCase` | src/components/TerminalPortfolio.tsx:271 | two lines that lower-case to the same string resolve alike |
| `Commands.ResolveIgnoresPadding` | src/components/TerminalPortfolio.tsx:271 | whitespace around a line does not change its resolution |
| `Commands.KnownCommand` | src/components/TerminalPortfolio.tsx:280-283 | a registered name in any letter case, followed by any words, runs that name's producer |
| `Commands.UnknownCommand` | src/components/TerminalPortfolio.tsx:285-288 | on a line of whitespace-free words separated by single spaces, an unregistered first word other than `cat`, in any letter case, gives the error `Command not found: <word>\nType 'help' for available commands.`, where `<word>` is the lower-cased word |
| `Commands.UnknownFirstWord` | src/components/TerminalPortfolio.tsx:276-288 | for any line, however spaced, a non-empty first word that is neither registered nor `cat` gives `Command not found: <word>\nType 'help' for available commands.` with that word |
| `Commands.CatWithoutOperand` | src/components/TerminalPortfolio.tsx:250-257 | `cat` alone gives `cat: missing operand\nTry 'help' for more information.` |
| `Commands.CatEmptyOperand` | src/components/TerminalPortfolio.tsx:250-257 | `cat  <word>` (two spaces) gives the same missing-operand error, because its operand is the empty word |
| `Commands.CatShowsSection` | src/components/TerminalPortfolio.tsx:259-262 | `cat <s>` resolves exactly as `<s>` alone for every section other than `clear` and `ls` |
| `Commands.CatNoSuchFile` | src/components/TerminalPortfolio.tsx:259-267 | `cat clear`, `cat ls` and `cat` of an unknown name give `cat: <s>: No such file or directory` |
| `Commands.OnlyClearClears` | src/components/TerminalPortfolio.tsx:276-283 | a line produces the clear signal exactly when its first word is `clear` (so `cat clear` does not) |
| `Session.Initial` | src/components/TerminalPortfolio.tsx:39-42 | the initial state satisfies the cursor bound |
| `Session.MountEffect` | src/components/TerminalPortfolio.tsx:350-359 | the mount effect keeps the cursor bound |
| `Session.Mounted` | src/components/TerminalPortfolio.tsx:350-359 | after mounting, the transcript is the single `help` entry, the recall list is empty, the cursor is -1 and the input is empty |
| `Session.Submit` | src/components/TerminalPortfolio.tsx:291-319 | keeps the cursor bound; the recall list is unchanged or gains the typed line; the transcript is unchanged, emptied, or extended by one entry for the typed line with earlier entries untouched |
| `Session.Record` | src/components/TerminalPortfolio.tsx:303-317 | once a line has produced an output, the recall list gains the line, the transcript is emptied for the clear signal and otherwise gains one entry (the line as typed and its output), and the cursor and input reset |
| `Session.SubmitNonBlank` | src/components/TerminalPortfolio.tsx:295-317 | a line that is not blank always has an output, so submitting it records that output |
| `Session.SubmitBlank` | src/components/TerminalPortfolio.tsx:295 | a blank or whitespace-only line changes nothing: transcript, recall list, input and cursor |
| `Session.SubmitClear` | src/components/TerminalPortfolio.tsx:301-317 | a line whose command is `clear` empties the transcript, is still appended to the recall list, and resets the input to empty and the cursor to -1 |
| `Session.SubmitAppends` | src/components/TerminalPortfolio.tsx:301-317 | any other non-blank line appends exactly one entry (the line as typed and its output) after the unchanged earlier entries; it appends the line to the recall list and resets the input to empty and the cursor to -1 |
| `Session.SubmitClearWord` | src/components/TerminalPortfolio.tsx:308-317 | typing `clear` in any letter case empties the transcript and keeps the line for recall |
| `Session.ArrowUp` | src/components/TerminalPortfolio.tsx:322-328 | keeps the cursor bound (so the read `commandHistory[length - 1 - newIndex]` is in range), moves the cursor up by at most one, and changes neither the transcript nor the recall list |
| `Session.ArrowDown` | src/components/TerminalPortfolio.tsx:329-339 | keeps the cursor bound and moves the cursor down by one, or changes nothing when the cursor is -1 |
| `Session.RecallKey` | src/components/TerminalPortfolio.tsx:321-340 | every key keeps the cursor bound and changes neither the transcript nor the recall list |
| `Session.Edit` | src/components/TerminalPortfolio.tsx:506 | editing sets the input to the typed text and changes nothing else: the cursor is not reset, and the transcript and recall list are kept |
| `Session.KeyDown` | src/components/TerminalPortfolio.tsx:507-513 | Enter, the arrow keys and every other key keep the cursor bound; the recall list is kept or gains the current line |
| `Session.Step` | src/components/TerminalPortfolio.tsx:506-513 | every user event keeps the cursor bound and only ever extends the recall list at its end |
| `Session.Run` | src/components/TerminalPortfolio.tsx:506-513 | over any sequence of events, the cursor bound holds and the recall list only grows at its end |
| `Session.ReachableCursorInRange` | src/components/TerminalPortfolio.tsx:324-338 | every state reachable from the mounted state has the cursor between -1 and the recall-list length minus one |
| `Session.StepTranscript` | src/components/TerminalPortfolio.tsx:308-315 | an event either leaves the transcript unchanged, clears it, or appends one entry for the typed line at the end; the recall list is never cut |
| `Session.RecallOlder` | src/components/TerminalPortfolio.tsx:322-328 | starting from a fresh line (cursor -1), the k-th ArrowUp (k at most the list length) shows the k-th most recent line and puts the cursor at k - 1 |
| `Session.ArrowUpAtOldest` | src/components/TerminalPortfolio.tsx:324 | ArrowUp at the oldest line does nothing |
| `Session.RecallSaturates` | src/components/TerminalPortfolio.tsx:322-328 | pressing ArrowUp more times than there are lines stays on the oldest line |
| `Session.ArrowDownFromNewest` | src/components/TerminalPortfolio.tsx:335-338 | ArrowDown from cursor 0 sets the cursor to -1 and the input to empty |
| `Session.ArrowDownAtRest` | src/components/TerminalPortfolio.tsx:329-339 | ArrowDown at cursor -1 does nothing |
| `Session.RecallNewerRetraces` | src/components/TerminalPortfolio.tsx:321-340 | starting from a fresh line (cursor -1), with k at most the list length, j < k presses of ArrowDown after k presses of ArrowUp give exactly the state that k - j presses of ArrowUp give |
| `Session.RecallRoundTrip` | src/components/TerminalPortfolio.tsx:321-340 | starting from a fresh line with at least one submitted line, k >= 1 presses of ArrowUp and then k of ArrowDown end at cursor -1 with an empty input and nothing else changed, for every k, including k beyond the list length |
| `Session.DownPastRest` | src/components/TerminalPortfolio.tsx:329-339 | from the oldest recalled line, any k at least the list length presses of ArrowDown end on the empty line at cursor -1 |
| `Terminal.TerminalPortfolio.constructor` | src/components/TerminalPortfolio.tsx:39-42 | the four fields take their initial values: empty transcript, empty input, cursor -1, empty recall list |
| `Terminal.TerminalPortfolio.Mount` | src/components/TerminalPortfolio.tsx:350-359 | the transcript becomes the single `help` entry and the other fields keep their values |
| `Terminal.TerminalPortfolio.HandleSubmit` | src/components/TerminalPortfolio.tsx:291-319 | the fields end as `Session.Submit` gives, and the cursor bound is kept |
| `Terminal.TerminalPortfolio.RecordOutput` | src/components/TerminalPortfolio.tsx:303-317 | the four state setters leave the fields as `Session.Record` gives |
| `Terminal.TerminalPortfolio.HandleKeyDown` | src/components/TerminalPortfolio.tsx:321-340 | the fields end as `Session.RecallKey` gives, and the cursor bound is kept, so every recall read is in range |
| `Terminal.TerminalPortfolio.OnChange` | src/components/TerminalPortfolio.tsx:506 | only the input changes |
| `Terminal.TerminalPortfolio.OnKeyDown` | src/components/TerminalPortfolio.tsx:507-513 | Enter goes to the submit handler and every other key to the recall handler, and the cursor bound is kept |
| `Terminal.Open` | src/components/TerminalPortfolio.tsx:350-359 | a freshly created and mounted component holds `Session.Mounted` |

## Left out

- Rendering (`renderOutput` and the markup, lines 373-404 and 431-542) is presentation only.
- The star and particle background (lines 407-429 and 453-463) uses `Math.random` and floating point, and is decorative.
- Auto-scroll and input focus (lines 343-347 and 362-371) act on the page, not on the session state. `preventDefault` on the key events is left out for the same reason.
- The `timestamp` of each transcript entry (`new Date()`, lines 305 and 356) is a clock read and is not modelled.
- The wording of the help, about, resume and other texts is fixed data. It is the `Content` parameter, so every property holds for any wording. The kind of each producer's output (text, formatted or clear) follows the source.
- `commands[name]` is a plain JavaScript object lookup, so inherited keys are found too. The line is lower-cased first (line 271), so only the all-lower-case inherited keys can be reached: `constructor` and `__proto__`. With `constructor`, the lookup finds `Object`, and calling it appends an entry that holds an empty object. With `__proto__`, the lookup finds `Object.prototype`, which cannot be called, so the key handler throws a `TypeError`. The registry is modelled as a map of exactly the nine own keys, so the model reports both words as unknown commands. Through `cat`, `cat constructor` passes the check at line 260 and appends an entry holding an empty object, and `cat __proto__` throws at line 261. The model gives `cat: <word>: No such file or directory` for both.
- `Strings.ToLower`, `Strings.LowerChar`: only ASCII A-Z and the Latin-1 capitals U+00C0..U+00DE (except U+00D7) are lowered. The rest of the Unicode case mapping of `toLowerCase` is not modelled, including mappings that change length, such as U+0130.
- `Strings.LowerChar`: Greek capitals such as U+0391, the KELVIN SIGN U+212A and every other capital outside ASCII and Latin-1 are kept unchanged, where `toLowerCase` lowers them. A line that names a command in such letters is therefore an unknown command in the model.
- Strings are sequences of Unicode scalar values, whereas JavaScript strings are UTF-16 code units. Every character that trimming, splitting or the modelled lowering (`Strings.LowerChar`) looks at lies in the Basic Multilingual Plane. Within the model, resolution is therefore the same either way.
- React schedules state updates asynchronously. Each handler's setters are modelled as assignments made in order, which matches the handlers: `handleSubmit` reads `currentInput` before it resets it, and the list updates append to the previous value.
- `src/app/layout.tsx` holds only page metadata, fonts and the root layout, and is not part of this model.
