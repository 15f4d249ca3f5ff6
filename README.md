# Interactive calculator and greeter: a Dafny model

This project models the logic of two small interactive command-line
scripts.

**The calculator (`calculator.py`).** It reads lines from standard input:
- a first number;
- a menu choice: the digits `1` to `6` select `+ - * / % **`, `h` shows the history, `q` quits;
- a second number.

It then calls `calculate`, appends a record to the session history and
asks whether to go on. On quit it prints a summary:
- the total number of calculations;
- how many succeeded and how many failed;
- the most used operation among the successful ones.

**The greeter (`hello_world.py`).** It asks for a name until the user
types one that is not blank. It title-cases the name and looks it up in
a table of three special users. Everyone else gets a default pair of
messages built around their name.

The model is split into five modules.

- `Wrappers`: `Option`.
- `Text`: the ASCII behaviour of Python's `str.strip()`, `str.lower()` and `str.title()`, with each one's defining property proved. `str.title` is modelled as CPython's single scan that remembers whether the previous character was cased. The module proves:
  - `Title` yields a titled string and is idempotent;
  - two strings title-case alike exactly when they are equal ignoring case.
- `Calculator`:
  - the choice mapping of `get_operation` and the quit sentinel of `get_number`, one line at a time;
  - the dispatcher `calculate`;
  - the history list as a `History` class that `Add` appends to in place;
  - the statistics of `print_session_summary`.
- `Session`: `main`'s loop, in two forms.
  - **State machine.** A specification over the typed lines: `Step` consumes one line and `Run` folds `Step` over the lines.
  - **Implementation.** `RunSession` is written as the source is written: a `while true` loop over retrying prompts, appending to a `History` object. It is proved to produce exactly the history and the ending that `Run` gives. The lemmas about `Run` give the session's properties:
    - "q" at any prompt ends the session;
    - the history only grows, in order;
    - it has one record per calculation;
    - every stored record is `calculate`'s verdict on its own operands;
    - failures are only zero divisors or a power that raised.
- `Greeter`:
  - the stripping, blank-refusal and title-casing of `get_user_name`;
  - the table lookup with default of `get_special_message`.

The model's parameters stand in for what it does not model:
- **Input.** The user's input is a finite sequence of lines. Running out of lines is the end of input. At the calculator's prompts, that makes `input()` raise, which the source catches at the top of `main` and turns into exit status 1 with no summary. `RunSession` reports it as `quit == false`.
- **Float parsing.** `float()` is a parameter `parse: string -> Option<real>`. It is applied, as in the source, to the stripped and lower-cased line.
- **Powers.** `**` is a parameter `pow: (real, real) -> Value`. A `Message(reason)` result stands for "the operation raised an exception whose `str()` is `reason`". `calculate` turns that into `"Error: " + reason` through its catch-all handler.
- **Other operators.** The remaining operators work on exact reals. `%` is Python's floored remainder: the result has the sign of the divisor, which `IsFlooredRemainder` states. Like the source, `/` and `%` guard a zero divisor before dividing.

Three details of the code that the model keeps:
- **Menu choices 7 and 8.** The menu lists eight entries and the prompt says "1-8", but only `1` to `6`, `h` and `q` are accepted; `7` and `8` are rejected and the prompt repeats (`DecodeChoiceCases`).
- **Exceptions from `**`.** `calculate` also catches an exception raised by `**` and returns it as a failed result, so a session can hold failed records other than the two zero divisors (`Calculate`, `FailuresExplained`).
- **End of input.** End of input at a calculator prompt makes `input()` raise, and `main`'s handler exits with status 1 without printing the summary.

## Model

| member | source | states |
|---|---|---|
| Text.Strip | calculator.py:59 | `str.strip()` never lengthens a string and leaves no whitespace at either edge; `StripSpec` pins it down exactly |
| Text.StripSpec | hello_world.py:33 | `strip()` returns a contiguous middle slice of its argument with no whitespace at either edge, and only whitespace is cut on either side |
| Text.StripNoEdgeSpace | hello_world.py:33 | stripping a string without edge whitespace returns it unchanged |
| Text.StripIdempotent | calculator.py:59 | stripping twice is stripping once |
| Text.Lower | calculator.py:59 | `str.lower()` keeps the length; `LowerIdempotent`, `LowerIsSingle` and `TitleEqualIffLowerEqual` give the rest |
| Text.LowerIdempotent | calculator.py:78 | lower-casing leaves no upper-case letter, so lower-casing twice is lower-casing once |
| Text.Title | hello_world.py:37 | `str.title()` keeps the length and upper-cases the first character; `TitleAt`, `TitleIsTitled` and `TitleIdempotent` give the rest |
| Text.TitleFrom | hello_world.py:37 | the title-casing scan keeps the length, and each character is upper-cased unless the previous one is a letter, in which case it is lower-cased |
| Text.TitleAt | hello_world.py:37 | title-casing keeps every non-letter, keeps letterness and whitespace at every position, and changes letters only in case |
| Text.TitleIsTitled | hello_world.py:37 | a title-cased string has an upper-case letter at the start of every run of letters and lower-case letters elsewhere |
| Text.TitledIsFixed | hello_world.py:37 | a string that is already titled is its own title-case |
| Text.TitleIdempotent | hello_world.py:37 | title-casing twice is title-casing once |
| Text.TitleKeepsNoEdgeSpace | hello_world.py:33-37 | title-casing a stripped string leaves it stripped |
| Text.TitleEqualIffLowerEqual | hello_world.py:37 | two strings have the same title-case if and only if they have the same lower-case |
| Text.LowerIsSingle | calculator.py:59-61 | a string lower-cases to a one-letter string exactly when it is that letter in either case |
| Text.LowerIsSingleCaseless | calculator.py:78 | a string lower-cases to a single non-letter exactly when it is that character |
| Calculator.ReadNumber | calculator.py:59-65 | a number answer is exactly what `float()` gives on the stripped, lower-cased line; an invalid answer is a line `float()` refuses |
| Calculator.ReadNumberQuitIff | calculator.py:59-62 | `get_number` reports quitting exactly for the lines that strip to "q" or "Q" |
| Calculator.DecodeChoice | calculator.py:78-91 | an accepted operation is one of the six operator symbols |
| Calculator.DecodeChoiceCases | calculator.py:78-93 | in both directions: "q"/"Q" quits, "h"/"H" asks for history, the digits 1-6 select the operator the table maps them to, and every other stripped line, 7 and 8 included, is rejected |
| Calculator.FlooredMod | calculator.py:115 | the result is a floored remainder: the quotient `(a - r) / b` is whole and `r` lies between 0 and `b`, on the side of `b`'s sign |
| Calculator.FlooredRemainderUnique | calculator.py:115 | at most one value is a floored remainder of `a` by `b`, so the contract of `%` determines its result |
| Calculator.Calculate | calculator.py:99-124 | success iff the result is a number; failure iff a zero divisor for / or %, an unknown operator, or a raising power; the exact sum, difference and product; a quotient that multiplies back to the dividend; a floored remainder; exactly the two zero-divisor messages, the unknown-operator message and the catch-all message |
| Calculator.ErrorTextsDistinct | calculator.py:110-119 | the division and modulo messages differ from each other and from every unknown-operator message |
| Calculator.History.constructor | calculator.py:223 | a session starts with an empty history |
| Calculator.History.Add | calculator.py:126-136 | the history becomes the old history with exactly one new record appended, holding the given fields; earlier records are unchanged |
| Calculator.Filter | calculator.py:183-184 | the list comprehension keeps exactly the records with the wanted success flag |
| Calculator.FilterPartition | calculator.py:183-191 | successful and failed records split the history as a multiset, so their counts add up to the total |
| Calculator.OperationsOf | calculator.py:195 | one operation per record, position by position |
| Calculator.Occurrences | calculator.py:196 | `ops.count(o)` is at most the length of the list and is zero exactly when `o` is not in it |
| Calculator.MostFrequentOf | calculator.py:196 | the chosen candidate is among the candidates and is counted at least as often as every one of them |
| Calculator.MostUsed | calculator.py:196 | `max(set(ops), key=ops.count)` returns an operation of the list that occurs at least as often as any string |
| Calculator.SuccessfulWitness | calculator.py:193-195 | the successful list is non-empty exactly when some record succeeded, and each of its operations comes from a successful record |
| Calculator.Summary | calculator.py:177-199 | nothing for an empty history; otherwise the total, successful and failed counts (adding up to the total), and a most-used operation exactly when some calculation succeeded, which belongs to a successful record and is maximal in count |
| Session.Run | calculator.py:230-266 | the session state after the whole input stream, one `Step` per line; `RunHistoryBound`, `QuitEndsSession`, `HistoryPrefix`, `HistoryCountsCalculations` and `RunConsistent` state its properties |
| Session.RunHistoryBound | calculator.py:252-256 | a session never holds more records than lines typed |
| Session.Step | calculator.py:230-266 | a line adds exactly one record when it is a number at the second-number prompt and otherwise leaves the history alone; "q" at any prompt finishes with the history kept; a finished session ignores input; "h" at the operation prompt goes back to the first prompt |
| Session.RunIdle | calculator.py:56-68 | lines a prompt rejects leave the session where it was |
| Session.RunFinished | calculator.py:235-263 | after a `break`, later input changes nothing |
| Session.QuitEndsSession | calculator.py:234-263 | typing "q" at whichever prompt the session waits at ends it with the history accumulated so far, whatever follows |
| Session.HistoryPrefix | calculator.py:256 | the history of every earlier point of the session is a prefix of the final history: records are kept in insertion order |
| Session.HistoryCountsCalculations | calculator.py:247-256 | the history holds exactly one record per call of `calculate` |
| Session.RunConsistent | calculator.py:239-256 | every stored record has one of the six operators and equals `calculate`'s verdict on its own operands |
| Session.FailuresExplained | calculator.py:108-124 | a failed record is a division or modulo by zero with its fixed message, or a power that raised with the catch-all message |
| Session.FailureMessageNamesCause | calculator.py:108-124 | among failed records other than a power, the division message comes only from "/" and the modulo message only from "%"; a failed record with neither message is a power that raised |
| Session.DivisionByZeroSession | calculator.py:230-263 | the lines 10, 4, 0, q end the session normally with one failed record carrying the division-by-zero message |
| Session.ExampleLines | calculator.py:59-91 | the lines "10", "4", "0" and "q" read as the number 10, the division choice, the number 0 and the quit sentinel |
| Session.GetNumber | calculator.py:54-71 | `get_number` returns the first line that is "q" or a number, and every line it skipped was invalid; running out of input is reported |
| Session.GetOperation | calculator.py:73-97 | `get_operation` returns the first accepted line, and every line it skipped was rejected; running out of input is reported |
| Session.AfterNumberPrompt | calculator.py:234-249 | after a number prompt, the session is where it was (end of input), finished ("q"), waiting at the operation prompt with the first number, or waiting to continue with one record appended |
| Session.AfterOperationPrompt | calculator.py:239-244 | after the operation prompt, the session is finished ("q"), back at the first prompt ("h") or waiting for the second number with the operator chosen |
| Session.AfterContinuePrompt | calculator.py:259-266 | the "continue?" line finishes the session on "q" and otherwise goes back to the first prompt, keeping the history |
| Session.Settled | calculator.py:230-272 | once the loop has read to the end of input or broken out, the state reached is the state of the whole stream |
| Session.LoopPass | calculator.py:231-266 | one pass of the loop body ends back at the first prompt having consumed input, or finished, or out of input before finishing, in step with `Run` and with the `History` object holding its history |
| Session.OperationPrompt | calculator.py:239-244 | the operation prompt and what follows it keep the object's history equal to `Run`'s |
| Session.SecondNumberPrompt | calculator.py:247-256 | reading the second number, calculating and appending the record keep the object's history equal to `Run`'s |
| Session.ContinuePrompt | calculator.py:259-266 | the "continue?" prompt reads exactly one line and does not retry; it ends the session exactly when that line reads "q", and runs out of input only when no line is left |
| Session.RunSession | calculator.py:220-272 | the loop's final history is exactly the history of the whole input stream, and it ends by quitting exactly when `Run` finishes |
| Greeter.NormaliseName | hello_world.py:33-37 | a blank line is refused exactly when it strips to nothing; an accepted name is non-empty, stripped and titled, and equals the stripped input ignoring case |
| Greeter.NormaliseIdempotent | hello_world.py:37 | normalising an accepted name again gives the same name |
| Greeter.GetUserName | hello_world.py:28-37 | the name is the normalisation of the first line that is not blank, all earlier lines being blank; there is none exactly when every line is blank |
| Greeter.DefaultMessages | hello_world.py:62-65 | the default welcome and greeting both mention the name |
| Greeter.SpecialMessage | hello_world.py:45-65 | a special user gets their table entry; every other name gets the default pair, whose two messages both contain the name |
| Greeter.SpecialNamesTitled | hello_world.py:47-60 | every key of the special-user table `SpecialUsers` (the three entries, colour codes aside) is its own normalisation, so typed input can reach it |
| Greeter.ReachesSpecialUser | hello_world.py:33-62 | a typed line reaches a special user's entry exactly when, stripped, it spells that name ignoring case |
| Greeter.LowerCaseMusa | hello_world.py:62 | "musa" typed in lower case still gets the special entry for "Musa" |

## Left out

- Terminal output: ANSI colour codes, headers, the menu listing, `print_result`, `print_history`, `clear_screen` and every other printing function. Colour codes are also removed from the special users' messages.
- The greeter's session banner: the current date and time, the Python version and the program's closing messages.
- The timestamp that `add_to_history` stores in each record. It comes from the wall clock, and no property depends on it.
- Keyboard interrupts and the `sys.exit` calls they trigger, and process exit codes. The calculator's end-of-input exit is reported by `RunSession`'s `quit == false`.
- IEEE arithmetic. Operands are exact reals, so the model has no infinities, no NaN, no rounding and no overflow. `float()` and `**` are the caller-supplied `parse` and `pow`, so a power that in Python yields a complex number falls outside the model.
- Calculator.Calculate: only `**` can take the catch-all exception path. In CPython, float `+ - * / %` do not raise once the zero divisors are ruled out.
- Unicode: whitespace, letters and case mappings are modelled over ASCII only. Other characters are never whitespace or cased and are never changed by a case mapping.
- Calculator.MostUsed: when several operations tie for most used, the model picks the earliest in history order. The source's pick depends on set iteration order. The contract promises only what both share: a most-frequent operation of the successful list.
- Greeter.GetUserName: at end of input the source's loop catches the resulting exception and asks again forever. The model returns `None` when every available line is blank.
- Session.FailureMessageNamesCause: says nothing about power failures beyond their operator, because the caller-supplied `pow` may raise with any text, the two zero-divisor messages included.
