# Airport-code guessing game: a verified model of its game engine

The game is a daily puzzle. The player has six attempts to guess a three-letter
airport code, and only codes from the catalog are accepted as guesses.
Each submitted row shows per-letter feedback: correct, present or absent.
The on-screen keyboard colours every letter it has seen.
Progress is kept in browser storage under today's date, so a reload restores it.
A countdown shows the time until the next puzzle.

The whole program is one React component, `App.jsx`.
This project models the engine under its rendering:

- `Text`: the JavaScript string operations the engine relies on.
  - `trim`, with JavaScript's full set of white-space characters.
  - ASCII `toUpperCase`.
  - `split(/\r?\n/)`.
- `Catalog`: turning the text of the code list into the catalog.
- `Daily`: the day index since 2025-01-01 UTC and the choice of today's code.
  It follows JavaScript's truncating `%`, and models `undefined` as `None`.
- `Feedback`: `tileState` and `getKeyColor`.
  `GetKeyColor` is a method with the source's nested loop and early return.
  It is proved equal to a definition that has no scan in it (`KeyColorOf`).
  That proof shows the scan order never affects the colour.
  The reason: every overwrite in the loop writes the same value, which depends only on whether the solution contains the letter.
- `Board`: the six grid rows.
- `Countdown`: the start of the next UTC day, and the split of the remaining milliseconds into hours, minutes and seconds.
- `Game`: the component's state and its three handlers.
  - The state is a ghost-free value `State`.
  - The pure step functions are `Restored`, `Submitted`, `KeyPressed` and `Run`.
  - `Game.AirportWordle` is a class whose methods update the fields as the handlers do.
    Each method is specified by the step function.
  - The status invariant is the key result: the status always equals the restore rule applied to the current guesses (`Consistent`).
    From it follow three facts: a playing game has attempts left, a finished game is frozen, and a reload on the day of a guess restores exactly the saved guesses.
    The reload is guaranteed to restore the status too only when the page was loaded that same day.
    A page left open past UTC midnight scores a guess against the previous day's solution but saves it under the new date, so a reload scores the guesses again against the new solution (`Game.MidnightReloadRescores`).
- `Arith`: helper lemmas about division.

Dates are day numbers: milliseconds divided by 86400000.
Every UTC day has exactly that many milliseconds in JavaScript time.
So for the years 0000 to 9999 a day number corresponds one to one to the `YYYY-MM-DD` text that `toISOString().slice(0, 10)` gives, and storage holds the day number in place of that text.
The browser clock comes in as a parameter in milliseconds.
So do the text of the code list and the storage contents at page open.

In these cases the code does something a reader might not expect, and the model follows the code:

- An empty catalog is not rejected. The solution becomes `undefined` (None), and every guess is then refused as unknown.
- A clock before 2025-01-01 gives a negative remainder, which is also `undefined`.
  One exception: a whole negative number of cycles gives `-0`, and that selects the first entry.
- Guesses that are ignored (wrong length, or the game is over) produce no error signal.
- Stored guesses are trusted as they are. Storage with more than six guesses restores as lost or won, and the game then stays over.

## Model

| member | source | states |
|---|---|---|
| `Text.Trim` | App.jsx:22 | The trimmed text neither starts nor ends with JavaScript white space and is no longer than the line. |
| `Text.TrimIsSlice` | App.jsx:22 | The trimmed text is a contiguous slice of the line, and only white space lies before and after it. |
| `Text.ToUpperIdempotent` | App.jsx:22 | Upper-casing leaves no lower-case ASCII letter, and upper-casing again changes nothing. |
| `Text.SplitOnNewline` | App.jsx:21 | Splitting yields one piece more than there are line feeds, and no piece contains a line feed. |
| `Text.SplitJoin` | App.jsx:21 | Joining the pieces with line feeds gives the original text back. |
| `Text.DropCR` | App.jsx:21 | A piece that ends in a carriage return loses exactly that one character; any other piece is kept whole. |
| `Text.SplitLines` | App.jsx:21 | `split(/\r?\n/)`: there is one line more than there are line feeds, and no line contains one. Each piece before a line feed loses exactly its trailing carriage return if it has one, and the last piece is kept whole. |
| `Catalog.FilterCodes` | App.jsx:22-23 | The map step `NormalizeAll` (trim, upper-case), then the filter step `KeepCodes`: every output is a three-letter code, and there are no more outputs than lines. |
| `Catalog.ParseCatalog` | App.jsx:20-23 | Every catalog entry is three letters A to Z, and there are at most as many entries as lines. |
| `Catalog.FilterCodesAppend` | App.jsx:20-23 | The filter works line by line: concatenated inputs give concatenated outputs, so input order is kept. |
| `Catalog.FilterCodesSubsequence` | App.jsx:20-23 | The catalog is a subsequence of the normalized lines. Its index positions strictly increase and are exactly the lines whose trimmed, upper-cased form is a code, and entry j is the normal form of the line at the j-th one. |
| `Catalog.FilterCodesMember` | App.jsx:20-23 | A string is in the catalog if and only if it is a code and some line normalizes to it. |
| `Catalog.FilterCodesKeepsCodes` | App.jsx:20-23 | Lines that are already codes all survive, in order and duplicates included: there is no deduplication. |
| `Catalog.KeepCodesOfJunk` | App.jsx:23 | The filter step drops a list with no codes entirely. |
| `Catalog.FilterExample` | App.jsx:20-23 | Padded, lower-case and duplicate lines are kept upper-cased, and junk lines are dropped. |
| `Daily.DayNumber` | App.jsx:32 | The number of the UTC day a moment falls in: that day starts at or before the moment and the next day starts after it. |
| `Daily.DayIndex` | App.jsx:26-28 | `Math.floor((today - epoch) / 86400000)`: the whole days since 2025-01-01 UTC, rounded down. |
| `Daily.DayIndexOfDate` | App.jsx:26-32 | The day index is today's date minus the epoch's date, counted in days. |
| `Daily.TodaySolution` | App.jsx:26-29 | The solution at a moment, when there is one, is a catalog entry. From the epoch on, with a non-empty catalog, it is entry `dayIndex % length`. |
| `Daily.JsRem` | App.jsx:29 | JavaScript's `%`: the result is in (-n, n), is the ordinary remainder for a non-negative dividend, and for a negative one is minus the remainder of its absolute value, so it is non-positive and zero exactly on multiples. |
| `Daily.SelectSolution` | App.jsx:29 | A solution exists if and only if the list is non-empty and the index is non-negative or a multiple of the length. It is always a catalog entry, and whenever it exists it is `list[dayIndex % length]`: a negative multiple of the length (`-0`) selects the first entry. |
| `Daily.SameDateSameSolution` | App.jsx:26-32 | Any two moments with the same UTC date select the same solution. |
| `Daily.SolutionPeriodic` | App.jsx:29 | Non-negative day indices that differ by a whole number of catalog lengths select the same code. |
| `Daily.SolutionCycles` | App.jsx:26-29 | Starting at 2025-01-01, day i selects catalog entry i, for every i below the catalog length. |
| `Daily.DailyExample` | App.jsx:26-29 | With catalog AAA, BBB, CCC: Jan 1 gives AAA, Jan 2 gives BBB and Jan 4 gives AAA. One millisecond before the epoch gives `undefined`, three days before gives AAA, and an empty list gives `undefined`. |
| `Feedback.TileState` | App.jsx:105-110 | A tile is blank iff there is no guess. Otherwise it is correct iff the solution has the letter at that position, present iff it does not but the solution contains the letter, and absent iff the solution lacks the letter. |
| `Feedback.RowTiles` | App.jsx:178-184 | A submitted row has three tiles, none blank, each being `tileState` of its letter and position. For a three-letter solution, all three are correct iff the guess is the solution. |
| `Feedback.TileExamples` | App.jsx:105-110 | With solution SFO: FSO gives present, present, correct, and SEA gives correct, absent, absent. SSS gives correct, present, present, so one S is counted more than once. |
| `Feedback.GetKeyColor` | App.jsx:116-130 | The nested scan returns exactly the colour value `Hex(KeyColorOf(...))`. That is green iff a guess has the letter at one of its first three positions where the solution has it too. Otherwise it is yellow or grey if the letter was typed at such a position (yellow iff the solution contains it), and `#888` otherwise. |
| `Feedback.UnusedIffNeverGuessed` | App.jsx:116-130 | For three-letter guesses, the default colour appears iff no guess contains the letter. |
| `Feedback.GreenIffCorrectTile` | App.jsx:116-130 | For three-letter guesses, a key is green iff some submitted row shows that letter as a correct tile. |
| `Feedback.YellowIffInSolution` | App.jsx:123-124 | A key that is neither green nor unused is yellow iff the solution contains the letter, and grey iff it does not. |
| `Board.PadEnd` | App.jsx:113 | `padEnd`: the text keeps its characters, is filled with spaces, and has at least the requested length. |
| `Board.Rows` | App.jsx:112-114 | There are always `MAX_GUESSES` rows. |
| `Board.RowsShape` | App.jsx:112-114 | For three-letter guesses and at most three typed letters: every row has three characters, and the first rows are the guesses. The next row is the typed text padded with spaces, and all rows after it are blank. |
| `Countdown.NextMidnight` | App.jsx:84-93 | The next UTC midnight is a whole number of days, strictly after now and at most one day later (outside the years 0 to 99, see Left out). |
| `Countdown.Split` | App.jsx:93-98 | Nothing for a non-positive difference. Otherwise minutes and seconds are below 60, and h·3600000 + m·60000 + s·1000 ≤ diff < that + 1000. |
| `Countdown.SplitInverse` | App.jsx:95-97 | Splitting a time written as hours, minutes, seconds and milliseconds gives those hours, minutes and seconds back. |
| `Countdown.CountdownAtMost24h` | App.jsx:84-98 | The countdown is always shown and is at most 24 hours. It is exactly 24 hours only at a UTC midnight. This holds for the modelled clock, which leaves out the years 0 to 99. |
| `Game.Restored` | App.jsx:34-41 | With a stored date other than today nothing changes. Otherwise the guesses become the stored ones (none for a missing entry), and the status becomes the won or lost status they stand for; a playing status is kept as it was. |
| `Game.Classify` | App.jsx:46-49 | A guess is accepted iff the game is playing, the upper-cased text has three characters and it is in the catalog. It is refused as unknown, the alert, iff the first two hold and it is not in the catalog. |
| `Game.Submitted` | App.jsx:45-61 | A finished game is unchanged. Guesses grow by at most one, only by a catalog code and only at the end. The input is kept or cleared, and a new guess is written to storage with today's date. |
| `Game.IsLetterKey` | App.jsx:69 | A key accepted by `/^[A-Z]$/` is one character A to Z, and upper-casing leaves it as it is. |
| `Game.DropLast` | App.jsx:67 | `slice(0, -1)`: empty text stays empty; otherwise the result with the last character put back is the original text. |
| `Game.KeyPressed` | App.jsx:63-72 | A finished game is unchanged. Guesses grow by at most one, only by a catalog code, and typed text of at most three characters stays at most three. |
| `Game.KeyEffects` | App.jsx:65-69 | While playing: BACKSPACE changes only the typed text, by removing its last character. A letter key changes only the typed text, appending that letter iff fewer than three are typed. Any key other than ENTER, BACKSPACE or a letter changes nothing. |
| `Game.Run` | App.jsx:74-80 | A sequence of key events, one handler call each, never removes guesses. |
| `Game.SubmitIgnored` | App.jsx:46-47 | If the upper-cased text is not three characters, or the game is over, submitting changes nothing: not guesses, input, status or storage. |
| `Game.SubmitUnknown` | App.jsx:48-51 | A code outside the catalog clears the input and changes nothing else, so no attempt is used. |
| `Game.SubmitAccepted` | App.jsx:53-60 | A known code is appended as it is and the input is cleared. Storage then holds today and the new list. The game is won iff the guess is the solution; otherwise it is lost iff six guesses are used, and it stays playing if not. |
| `Game.PlayingHasAttemptsLeft` | App.jsx:59-60 | In a consistent state, a game still playing has fewer than six guesses and none of them is the solution. |
| `Game.RestoredConsistent` | App.jsx:34-41 | After the restore at load, on any storage contents, the status is the one the restored guesses stand for. |
| `Game.SubmitPreserves` | App.jsx:45-61 | Submitting keeps the status consistent with the guesses, and never takes a list of at most six guesses above six. |
| `Game.KeyPreserves` | App.jsx:63-72 | The same holds for any key press. |
| `Game.RunPreserves` | App.jsx:45-72 | Along any sequence of key events the status stays consistent, and at most six guesses stay at most six. |
| `Game.FinishedIsFinal` | App.jsx:65 | Once won or lost, no sequence of key events changes any part of the state, so the status never leaves won or lost. |
| `Game.CurrentStaysShort` | App.jsx:67-69 | Key input alone keeps the typed text at three characters or fewer. |
| `Game.GuessesOnlyGrowByCodes` | App.jsx:48-54 | Along key events the guesses are only appended to, and every appended guess is a catalog code. |
| `Game.ReloadRestoresGuesses` | App.jsx:33-58 | Reloading at any time on the day of an accepted guess restores exactly the guesses that guess left. |
| `Game.ReloadRestores` | App.jsx:27-58 | If the page was loaded on the day of the accepted guess, so the guess was scored against the reload's solution, a reload that day restores the guesses and the status that guess left. |
| `Game.MidnightReloadRescores` | App.jsx:27-60 | Worked case with catalog AAA, BBB. The page is loaded on Jan 1 (solution AAA) and BBB is submitted on Jan 2: the game stays playing, the guess is saved under Jan 2, and a reload that day restores it as won. |
| `Game.SessionInvariant` | App.jsx:33-72 | After load and any key events the status matches the guesses. With at most six stored guesses there are never more than six, and a playing game has fewer. |
| `Game.AirportWordle.constructor` | App.jsx:7-11 | The first render: no catalog and an empty solution, with no guesses and no input, the game playing, and storage as given. |
| `Game.AirportWordle.Load` | App.jsx:19-41 | The catalog is parsed from the text and the solution is selected for the load time. The state is restored from storage when the stored date is today. |
| `Game.AirportWordle.SubmitGuess` | App.jsx:45-61 | The new state is `Submitted` of the old one, the outcome (the alert) is `Classify` of it, and the catalog and solution are unchanged. |
| `Game.AirportWordle.HandleKey` | App.jsx:63-72 | The new state is `KeyPressed` of the old one, and the catalog and solution are unchanged. |

## Left out

- Fetching the code list (App.jsx:17-19) is I/O. The model takes the text of the list as a parameter, and a failing fetch is not modelled.
- Browser storage and JSON (App.jsx:33-37, 57-58) are modelled as two fields.
  - The date field holds a day number.
  - The guesses field holds a list of strings, and a missing entry is None.
  - A stored text that `JSON.parse` rejects, which throws in the source, is not modelled.
- Time and dates: `new Date()` becomes a parameter in milliseconds.
  - `toISOString().slice(0, 10)` becomes the day number.
  - `Date.UTC(year, month, date + 1)` becomes the next multiple of 86400000. That is exact for every year except 0 to 99, which the next line covers.
  - The text form of a date is not modelled.
- Countdown.NextMidnight and Countdown.CountdownAtMost24h: `Date.UTC`'s rule that reads a year from 0 to 99 as 1900 to 1999 is not modelled. For a clock from 0000-01-01 up to 0100-01-01 UTC (-62167219200000 up to -59011459200000 ms), the source's next midnight falls about 1900 years later, and the countdown shows millions of hours. The 24-hour bound holds only outside those years.
- Floating point: the division in the day index (App.jsx:28) happens on doubles in the source and is exact integer division here. The two agree for all times below 2^53 ms.
- Text.ToUpper: models only the ASCII letters. JavaScript's `toUpperCase` also maps other characters, for example U+0131 to `I` and `ß` to `SS`. So the model differs for lines, typed text and key names that contain such characters.
- Storage dates outside the years 0000 to 9999 are not modelled. There `toISOString` writes the expanded form `±YYYYYY`, so `slice(0, 10)` keeps only the year and month, and every day of a month shares one key.
- String lengths count characters here. JavaScript counts UTF-16 code units, so the two differ only for characters outside the Basic Multilingual Plane.
- `alert`'s message text (App.jsx:49) is left out. The model keeps only the `UnknownCode` outcome of `SubmitGuess`.
- Feedback.TileState and Feedback.GetKeyColor: both take the solution as a string. In the source, rendering with an `undefined` solution (an empty catalog, or a clock before 2025) throws on `solution[pos]`; that crash is not modelled.
- `navigator.userAgent` detection (App.jsx:14), the `keydown` listener wiring (App.jsx:74-80) and the one-second timer (App.jsx:100-102) are event plumbing.
- All JSX and styling (App.jsx:132-308) are rendering. That includes the tile and key colours chosen in JSX, the countdown's `${h}h ${m}m ${s}s` text, and the end-of-game message.
- The mobile text input (App.jsx:222-233) is left out.
  - Its `onChange` sets the typed text to any upper-cased value, which bypasses the letter and length checks of `handleKey`.
  - Its own Enter and Backspace handler does not check the status.
  - `Game.CurrentStaysShort` and `Game.FinishedIsFinal` are therefore stated for key input only.
- React's batching and stale closures of `useCallback` are not modelled. Each handler is one atomic update of the state.
