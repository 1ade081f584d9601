# Writer: the typing loop and the service configuration, in Dafny

Writer is a small auto-typer. `simulate_typing` in write.py types a text into the focused window with key-injection calls:
- a newline becomes an Enter press and a tab becomes a Tab press;
- a whitespace-delimited word that holds a character outside ASCII is pasted whole through the clipboard;
- every other character is written on its own.

After each single-character write it sleeps for the chosen interval (a uniform draw between two bounds when randomizing, otherwise the minimum); after a paste it sleeps that interval times the word's length; after Enter or Tab it does not sleep. The Windows service in write_service.py reads its settings from `service_config.txt` with `WriterService.load_config`. The file has `key=value` lines over six defaults, and the key `text_file` replaces the path of the text to type.

This project models those two operations and proves what they promise.

- **Typing** (`typing_plan.dfy`, `typing_pace.dfy`, `typing.dfy`). The key-injection calls become `Action` values (`Enter`, `Tab`, `Paste(word)`, `Write(chars)`, `Sleep(seconds)`), and a run is the sequence of actions it performs.
  - `TypingPlan.Plan` is a word-level reference for what is done with a text. `TypingPace.Emit` adds the pauses and the fallback used when no clipboard helper exists.
  - `Typing.SimulateTyping` is the source's loop, with its outer index `i` and its word scan `j`. It is proved to perform exactly `Emit(Plan(text))` after the initial wait.
  - The properties of the reference are proved as lemmas: the text read back, whole-word pastes, single-character writes, one Enter per newline, and the pause bounds.
- **Service configuration** (`service_config.dfy`, `writer_service.dfy`).
  - `ServiceConfig` gives the meaning of each line (`Classify`) and of a whole file (`Load`), and proves properties of that meaning: stripping, splitting at the first `=`, key dispatch, boolean spellings, last line wins, abort keeps earlier settings, and defaults.
  - `WriterServiceModel.WriterService` is the service object. Its `LoadConfig` method is the source's loop, which updates the configuration and the `textFile` field. It is proved to agree with `Load`.
- Shared pieces: `CharClass` (Python's `str.isspace`, ASCII tests, the word scan), `SeqFacts` (three sequence identities) and `Wrappers` (`Option`, `Result`).

Randomness is a parameter. `draws: nat -> real` gives the successive values of `random.random()`, which must lie in `[0, 1]`. `random.uniform(a, b)` is `a + (b - a) * u`. Python's `float()` is a parameter `parseFloat: string -> Option<real>`, with None where it raises. The contents of the configuration file are a parameter `Option<seq<string>>`: its lines, or None when the file does not exist or cannot be opened.

A negative `initial_delay` is an error in the model (`NegativeDelay`). The code passes it straight to `time.sleep`, which raises ValueError before anything is typed. Only KeyboardInterrupt is caught there. On the paste path the code falls back to writing the word only on RuntimeError. That covers the stub helper, which raises it when no clipboard library could be loaded, and `pyperclip`, whose exception is a RuntimeError.

## Model

| member | source | states |
|---|---|---|
| Typing.SimulateTyping | write.py:50-129 | Its timing parameters default to 5.0, 0.01, 0.10 and true, as in the source. Fails with InvalidInterval exactly when a bound is negative or min > max. Otherwise fails with NegativeDelay exactly when the initial delay is negative. Otherwise the run is the initial sleep followed by the paced plan of the text. That run reads back as the text exactly, and its pauses fit the bounds. |
| Typing.DefaultText | write.py:48 | The `TEXT` constant, character for character. Characterized by DefaultTextPastesSwedishWords. |
| Typing.DefaultTextPastesSwedishWords | write.py:48 | The two Swedish words of the default text are each pasted whole, at offsets 82 and 86. |
| Typing.SwedishWordsAreWhole | write.py:48 | The default text holds the two Swedish words at offsets 82 and 86, each a whole word with characters outside ASCII. |
| Typing.ScanWord | write.py:91-98 | From a non-space character at `i`, returns the end `j > i` of its word (first whitespace or end of text, no whitespace in between) and whether the word holds a character with `ord > 127`. |
| Typing.RunDelivers | write.py:66-126 | The initial sleep followed by the paced plan reads back as exactly the text, and after the sleep every press, write and paste has the prescribed pause. |
| Typing.PressAdvance | write.py:71-78 | At a newline or tab the run continues with one Enter or Tab and no pause, and the position moves by one. |
| Typing.WriteAdvance | write.py:115-126 | At whitespace other than a newline or tab, or inside an ASCII-only word, the run continues with `Write(ch)` followed by the chosen interval, and the position moves by one. |
| Typing.PasteAdvance | write.py:100-113 | At a word holding a non-ASCII character the run continues with the word pasted whole (written whole without a clipboard helper), then a pause of interval times its length, and the position jumps to the word's end. |
| Typing.ScanStep | write.py:95-98 | Extending the scanned span by one character keeps it free of whitespace, and makes it hold a non-ASCII character, exactly as that character does. |
| CharClass.IsSpace | write.py:91-95 | `str.isspace` for one character, over CPython's whitespace table; also the whitespace `strip()` removes at write_service.py:73-78. Characterized by SpaceBasics (newline, tab, space and carriage return are whitespace; `=`, `#` and `a` are not), WordLen, WordLenUnique and ServiceConfig.StripShape. |
| CharClass.IsNonAscii | write.py:96 | `ord(ch) > 127`. Characterized by SnocScan and Typing.ScanWord, whose flag is exactly whether the word holds such a character. |
| CharClass.WordLen | write.py:93-98 | The word at the front of a text ends at its first whitespace or at its end, and holds no whitespace. |
| CharClass.WordLenUnique | write.py:93-98 | Any prefix length with those two properties is the word length. |
| CharClass.SnocScan | write.py:95-98 | Appending a character to a word: no whitespace and some non-ASCII character are updated exactly as that character says. |
| TypingPlan.Plan | write.py:67-126 | The word-level reference for what is typed: the decision at the front of the text, then the plan of the rest. Characterized by PlanReadsBack, PastesAreWholeWords, NonAsciiWordsPasted, WritesAreSingleCharacters, KeysMatchText and PlanHasNoSleep, and performed by `Typing.SimulateTyping`. |
| TypingPlan.NextChunk | write.py:71-126 | The decision at the front of a text consumes between 1 and all of its characters, and its actions read back as exactly those characters. |
| TypingPlan.Spell | write.py:115-117 | A word written one character at a time: one `Write` per character, in order, reading back as the word. |
| TypingPlan.PlanReadsBack | write.py:67-126 | The actions of the plan, read back as text, rebuild the text exactly and in order. |
| TypingPlan.PastesAreWholeWords | write.py:86-112 | Every paste reads back as the text found where it happens. That text is a non-empty word holding a non-ASCII character, with no whitespace, starting at the text's start or after whitespace and ending at whitespace or the text's end, so a word is never split. |
| TypingPlan.NonAsciiWordsPasted | write.py:86-112 | Conversely, every non-empty whole word of the text holding a non-ASCII character is pasted at once, by an action at the word's own offset. |
| TypingPlan.FirstChunkBefore | write.py:91-113 | The first decision consumes no character of a whole word that does not start the text. |
| TypingPlan.WritesAreSingleCharacters | write.py:91-126 | Every write reads back as the single character found where it happens, never a newline or tab. A non-space character is written alone only inside a whole word made only of ASCII. |
| TypingPlan.AsciiCharsWritten | write.py:91-126 | Conversely, every whitespace character other than a newline or tab, and every character of a whole word made only of ASCII, is written on its own as `Write(ch)` by an action at the character's own offset. |
| TypingPlan.KeysMatchText | write.py:71-78 | The number of Enters equals the number of newlines, and the number of Tabs equals the number of tabs. |
| TypingPlan.PlanHasNoSleep | write.py:67-126 | The plan itself holds no pause. Pauses are added only by the pacing. |
| TypingPlan.ChunkPaste | write.py:100-104 | A paste occurs only as the sole action for a whole non-ASCII word at the front of the text. |
| TypingPlan.ChunkWrite | write.py:115-117 | A write at the front of the text reads back as one character found there, never a newline or tab, and inside a word only when the word is ASCII. |
| TypingPlan.ChunkKeys | write.py:71-78 | The Enters and Tabs of one chunk match the newlines and tabs it consumes. |
| TypingPlan.AsciiWordStep | write.py:91-117 | Inside an ASCII-only word the typer writes the current character and continues with the plan of the rest. Re-scanning the word from each position leads to the same plan. |
| TypingPlan.PlanOfWord | write.py:91-113 | A text that starts with a word begins with that word pasted whole when it holds a non-ASCII character, and spelled out otherwise. |
| TypingPlan.PlanOfSpace | write.py:71-78 | A text that starts with whitespace begins with Enter for a newline, Tab for a tab, and otherwise a write of that character. |
| TypingPace.Emit | write.py:71-126 | The plan with its pauses and the fallback without a clipboard helper. Characterized by EmitText, EmitWellPaced and PacedText. |
| TypingPace.Interval | write.py:80-84 | The chosen interval lies between the bounds, and is the minimum unless randomizing over a non-empty range. |
| TypingPace.UniformBetween | write.py:82 | `random.uniform(lo, hi)` with a draw in `[0, 1]` lies in `[lo, hi]`. |
| TypingPace.PastePause | write.py:109-111 | The pause after a paste lies between the bounds times `max(1, len(word))`, and is the minimum times it unless randomizing. |
| TypingPace.WritePause | write.py:125 | The pause after a single character lies between the bounds, and is the minimum unless randomizing. |
| TypingPace.EmitText | write.py:100-125 | Pacing changes nothing in the text read back, and without a clipboard helper nothing is pasted: the word is written whole instead. |
| TypingPace.Paced | write.py:100-125 | One planned action with its pause: none after an Enter or Tab, the interval times `max(1, len(word))` after a paste, the interval after a single character, and a whole-word write in place of a paste without a clipboard helper. Characterized by PacedText, EmitWellPaced, PastePause and WritePause. |
| TypingPace.PacedText | write.py:100-125 | One paced action reads back as the text of the planned action, and without a clipboard helper it is not a paste. |
| TypingPace.EmitWellPaced | write.py:71-126 | Every Enter and Tab has no pause after it. Every write and paste is followed by one pause that fits the bounds scaled by its length. |
| TypingPace.PlanIsKeystrokes | write.py:67-126 | The plan holds no pause, and every write in it is a single character. |
| ServiceConfig.TrimStartShape | write_service.py:73 | Stripping the front removes only a whitespace prefix, and what remains does not start with whitespace. |
| ServiceConfig.TrimEndShape | write_service.py:73 | Stripping the end removes only a whitespace suffix, and what remains does not end with whitespace. |
| ServiceConfig.StripFixedPoints | write_service.py:73-78 | `strip()` leaves a string unchanged exactly when it is empty or has non-space characters at both ends. Its result is such a string, so stripping twice is stripping once. |
| ServiceConfig.StripShape | write_service.py:73-78 | `strip()` returns the slice between the first and the last non-space character, with only whitespace before and after it. |
| ServiceConfig.StripOfStripped | write_service.py:73-78 | A string with non-space characters at both ends, or an empty one, is its own strip. |
| ServiceConfig.Strip | write_service.py:73-78 | `str.strip()`. Characterized by StripShape (the slice between the first and the last non-space character, with only whitespace around it), StripFixedPoints, StripOfStripped and StripTrimEnd. |
| ServiceConfig.TrimStartAppend | write_service.py:73 | Stripping the front of `k + r`, where `r` starts with a non-space character, strips only `k`. |
| ServiceConfig.TrimEndAfter | write_service.py:73 | Stripping the end of `l + r`, where `l` ends with a non-space character, strips only `r`. |
| ServiceConfig.TrimCommute | write_service.py:73 | Stripping the front and stripping the end commute. |
| ServiceConfig.StripTrimEnd | write_service.py:78 | Stripping a value whose end is already stripped gives the strip of the value. |
| ServiceConfig.IndexOfAt | write_service.py:76 | The split point is the `=` at `i` when no `=` comes before it. |
| ServiceConfig.IndexOf | write_service.py:76 | The split point is the first `=` of the line. |
| ServiceConfig.TruthyIgnoresCase | write_service.py:86-89 | Spellings that differ only in letter case are both true or both false. "TRUE", "Yes" and "1" are true. "false", "on" and "0" are not. |
| ServiceConfig.IsTruthy | write_service.py:87-89 | `value.lower() in ('true', '1', 'yes')`. Characterized by TruthyIgnoresCase. |
| ServiceConfig.Interpret | write_service.py:80-93 | The key dispatch on a stripped key and value. Characterized by InterpretMeaning, and implemented by `WriterService.Dispatch`. |
| ServiceConfig.Classify | write_service.py:73-93 | The effect of one line: strip it, ignore it when blank, a comment or without `=`, and otherwise split it at the first `=` and dispatch on the stripped halves. Characterized by SplitTrims, ConfigLineRoundTrip and IgnoredLines, and implemented by `WriterService.ReadLine`. |
| ServiceConfig.SplitTrims | write_service.py:73-93 | Any line `k=v` with no `=` in `k`, whose stripped key does not start with `#`, has the effect the dispatch gives the stripped key and the stripped value, however much whitespace surrounds them. |
| ServiceConfig.InterpretMeaning | write_service.py:80-93 | Unknown keys are ignored, and only they are. A line aborts exactly when a numeric key's value is rejected by `float()`. Otherwise the key given is the one assigned: a number from `float()`, a flag from the boolean spelling, or `text_file` as the path. |
| ServiceConfig.IgnoredLines | write_service.py:73-75 | A line with no `=`, a blank line, or a line whose first non-space character is `#` has no effect. |
| ServiceConfig.NoEqualsIgnored | write_service.py:75 | A line with no `=` has no effect. |
| ServiceConfig.BlankIgnored | write_service.py:74 | A line of whitespace only has no effect. |
| ServiceConfig.CommentIgnored | write_service.py:74 | A line whose first non-space character is `#` has no effect. |
| ServiceConfig.ConfigLineRoundTrip | write_service.py:72-93 | A line `key=value` is split back into exactly that key and value, even when the value holds `=`, and has the effect the dispatch gives them. The same line commented out with `#` has no effect, and neither has an empty line. |
| ServiceConfig.LoadAppend | write_service.py:72-93 | The file is read line after line, in order. When no line of `xs` has a value `float()` rejects, reading `xs + ys` is reading `ys` from where reading `xs` left off. |
| ServiceConfig.Load | write_service.py:60-97 | `load_config` as a value: the defaults and the old path, then the effects of the lines in order, up to the first rejected value. Characterized by LoadAppend, AbortKeepsPrefix, LastWins, KeptUnlessSet, DefaultsWithoutSettings and DefaultsUnlessSet, and implemented by `WriterService.LoadConfig`. |
| ServiceConfig.Run | write_service.py:72-95 | The effects applied in order, stopping at the first Abort. Characterized by RunAppend, AbortKeepsPrefix, KeptUnlessSet, LastWins and RunOfSkips. |
| ServiceConfig.ApplySetting | write_service.py:80-93 | One assignment `config[key] = value`, or `self.text_file = Path(value)` for `text_file`. Characterized by ApplySettingFrame. |
| ServiceConfig.ApplySettingFrame | write_service.py:80-93 | An assignment sets its own key and leaves every other key, and the text file path, as it was. |
| ServiceConfig.AbortKeepsPrefix | write_service.py:70-95 | A value `float()` rejects ends the reading. Later lines have no effect, and what earlier lines set is kept. |
| ServiceConfig.RunAppend | write_service.py:72-93 | Without a rejected value, reading two runs of lines is reading one after the other. |
| ServiceConfig.KeptUnlessSet | write_service.py:72-93 | A key no line assigns keeps its value. |
| ServiceConfig.LastWins | write_service.py:72-93 | The last line that assigns a key decides its value, provided no line before it aborts. |
| ServiceConfig.RunOfSkips | write_service.py:72-93 | Lines that assign nothing leave everything as it was. |
| ServiceConfig.DefaultsWithoutSettings | write_service.py:60-97 | With no file, or a file whose every line is ignored, the result is the defaults (delay 5.0, min_interval 0.02, max_interval 0.12, randomize true, restart_on_completion true, restart_delay 10.0), and the text file path is unchanged. |
| ServiceConfig.DefaultsUnlessSet | write_service.py:60-97 | A key the file does not assign keeps its default. With no file, every key does. |
| ServiceConfig.AbortLine | write_service.py:94-95 | Once a line aborts, the state reached is the final one. |
| WriterServiceModel.WriterService.constructor | write_service.py:34-36 | The text file and the configuration file are looked for next to the script. |
| WriterServiceModel.WriterService.LoadConfig | write_service.py:58-97 | The configuration returned and the new text file path are those `Load` gives from the defaults and the old path. |
| WriterServiceModel.WriterService.ReadLine | write_service.py:73-93 | One line: it stops exactly when the line aborts; it changes nothing when the line is ignored; otherwise it applies the line's assignment to the configuration or to the text file path. |
| WriterServiceModel.WriterService.Dispatch | write_service.py:80-93 | The key dispatch on a stripped key and value, with the effect `Interpret` gives them. |

## Left out

- The key-injection and clipboard libraries (pyautogui, pyperclip, tkinter) are not modelled. Their calls are the `Action` values a run returns. Whether a clipboard helper exists is the parameter `clipboard`.
- Typing.SimulateTyping: `clipboard` is fixed for the whole run. A clipboard helper that fails on every paste (the stub, or a `pyperclip` that cannot reach a clipboard) is `clipboard == false`. A helper that fails on only some pastes is not modelled.
- Typing.SimulateTyping: exceptions that propagate out of the loop are not modelled. These are `tkinter`'s TclError while pasting and pyautogui's exceptions, including its fail-safe abort.
- TypingPace.Emit: a `Write(w)` is taken to type every character of `w`, so reading a run back means reading what its actions were asked to type. Without a clipboard helper a non-ASCII word goes to `pyautogui.write` (write.py:107), which on some keyboard layouts cannot type such characters (write.py:19-20); whether the window then receives the word is not modelled.
- Typing.SimulateTyping: the fallback when `pyautogui.write` of one character raises (write.py:116-124) is not modelled. The model assumes the write succeeds.
- Typing.SimulateTyping: a KeyboardInterrupt during typing, which ends the run early, is not modelled. The model describes the complete run.
- The progress and error messages printed by `simulate_typing` are not modelled.
- Real time is not modelled. `time.sleep` is a `Sleep` action.
- Floating point is not modelled: delays and intervals are reals, so rounding, NaN and infinities are not captured.
- Characters are Unicode scalar values, so a Python string holding a lone surrogate cannot be expressed.
- `str.isspace` is written out as CPython's whitespace table.
- TypingPace.Interval: the draws are indexed by the number of intervals chosen so far, one per written character or pasted word, as in the source. A draw is also counted when not randomizing, where `random.uniform` is not called. This changes only which draw value goes unused.
- `parse_args`, `main` and reading the text from a file or the command line (write.py:131-171) are not part of this model.
- Of write_service.py, only `load_config` and the two paths set up in `__init__` are modelled. Not modelled: the service framework, the stop event, the `running` flag, `run_typing_session`, `main`'s retry loop and the event log.
- Opening and reading the configuration file are not modelled. An absent or unopenable file is None. A read error after some lines behaves like an aborting line after them (see `ServiceConfig.AbortKeepsPrefix`), and the error message logged is not modelled.
- `Path` is not modelled. The paths are strings, the `text_file` value is stored as written, and the separator is fixed to a backslash.
- ServiceConfig.TruthyIgnoresCase: `str.lower` is modelled as ASCII lower-casing. For the membership test in `("true", "1", "yes")` this is exact, because no non-ASCII character lowers to the letters of those words.
