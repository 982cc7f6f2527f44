# PremiumCalculator input state machine, in Dafny

This project models the input handling of the browser calculator `PremiumCalculator`
(calculator/calculator-script.js). The calculator is an object with a handful of fields:

- the entry being typed (`currentValue`);
- the left operand snapshot (`previousValue`);
- the pending operator (`operation`);
- the flag that makes the next digit start a new entry (`shouldResetDisplay`);
- the memory register;
- the history of completed calculations, most recent first and at most 50 of them;
- the theme flag.

Each button or key runs a handler that updates these fields in place.

The model has two layers:

- `Calculator.PremiumCalculator` is a class with the same fields and one `modifies this`
  method per handler. Each method performs the steps of its JavaScript counterpart.
- `Engine` states the same handlers as functions on a `Machine` value. Each method is proved
  to leave exactly the state its Engine function computes from the state before.

The lemmas about the calculator are stated on that function layer:

- `Invariants`: what every handler keeps true of the state.
- `Scenarios`: whole input sequences from a fresh calculator.
- `Events`: one input per button or key, and the keyboard dispatch.
- `Text`: the JavaScript string built-ins the handlers use (`includes`, `slice(0, -1)`,
  `split('=')[1]`, `trim()`, string `<=`).

JavaScript numbers stay abstract. A `Numerics<N>` value supplies the following over an
arbitrary type `N`:

- `parseFloat` and `String`;
- the five operators;
- `roundResult`;
- the test `=== 0`;
- the constant 0.

Results are therefore stated in terms of those operations: for example, `2 + 3 * 4 =` yields
`String(round(parseFloat(sum) * parseFloat("4")))` where
`sum = String(round(parseFloat("2") + parseFloat("3")))`.

The invariant `Invariants.Valid` has six parts:

- the entry is never empty;
- the entry holds at most one decimal point;
- the entry holds no `=`;
- the operand and operator hold no `=`;
- an operand is only kept while an operator is pending;
- the history holds at most 50 records, each of the form `a op b = result`, from which the
  history click handler recovers `result`.

Under the assumption that `String(n)` of any number is such a printable entry, every number
input of one digit or ".", every operator without "=", and every other button, key, click
and error timeout keeps `Valid`.

The operator path for `"."` (calculator/calculator-script.js:76-82) appends the point to the
entry without looking at `shouldResetDisplay`. Right after an operator, the point therefore
goes onto the entry that the next digit replaces. `Scenarios.PointAfterOperatorIsDiscarded`
shows the effect: `5 + . 3` leaves the entry `3`. The model follows the code here, not a
delegation to `appendNumber`.

## Model

| member | source | states |
|---|---|---|
| Calculator.PremiumCalculator.constructor | calculator/calculator-script.js:10-16 | The fields start as entry "0", no operand, no operator, flag false, memory 0, empty history and dark theme, and this state is valid |
| Calculator.PremiumCalculator.AppendNumber | calculator/calculator-script.js:59-73 | After a reset the entry becomes exactly `num` and the flag clears. An entry "0" is replaced by a digit. A second "." leaves every field unchanged. Otherwise `num` is appended. The operand and operator are untouched, and a digit or "." keeps the invariant (at most one point, never empty) |
| Calculator.PremiumCalculator.HandleOperator | calculator/calculator-script.js:75-93 | With "." only the entry changes, gaining a point when it had none. Otherwise the pending calculation is resolved first exactly when one is pending and the flag is false. The operand becomes the resulting entry, the operator becomes `op` and the flag is set. The error shown is that of the resolved calculation. The invariant is kept for an operator without "=" |
| Calculator.PremiumCalculator.Compute | calculator/calculator-script.js:106-124 | The operator `switch`: one of the five operations, the division-by-zero throw, or the fall-through for an unknown operator, exactly as `Engine.Apply` |
| Calculator.PremiumCalculator.Calculate | calculator/calculator-script.js:96-139 | With no operator or with the flag set, nothing changes and there is no error. When an error is reported nothing changes at all: no field and no history record. On success the record `a op b = result` is pushed onto the history, the entry becomes the rounded result, the operand and operator are cleared and the flag is set. The invariant is kept |
| Calculator.PremiumCalculator.Clear | calculator/calculator-script.js:141-144 | Only the entry changes, to "0". The operand, operator, flag and history stay |
| Calculator.PremiumCalculator.ClearAll | calculator/calculator-script.js:146-152 | Entry "0", no operand, no operator, flag false. Memory, history and theme stay |
| Calculator.PremiumCalculator.Delete | calculator/calculator-script.js:154-161 | An entry longer than one character loses exactly its last character, and otherwise becomes "0". The entry is never empty afterwards and the invariant is kept |
| Calculator.PremiumCalculator.MemoryClear | calculator/calculator-script.js:163-167 | The memory becomes 0 and nothing else changes |
| Calculator.PremiumCalculator.MemoryRecall | calculator/calculator-script.js:169-173 | The entry becomes the printed memory and the flag is set |
| Calculator.PremiumCalculator.MemoryAdd | calculator/calculator-script.js:175-180 | The memory becomes memory + parsed entry. The entry stays and the flag is set |
| Calculator.PremiumCalculator.MemorySubtract | calculator/calculator-script.js:182-187 | The memory becomes memory - parsed entry. The entry stays and the flag is set |
| Calculator.PremiumCalculator.AddToHistory | calculator/calculator-script.js:205-212 | The expression is at index 0. Below 50 records the whole old list follows; at 50 the old list minus its last record follows. Nothing else changes |
| Calculator.PremiumCalculator.ClearHistory | calculator/calculator-script.js:214-218 | The history becomes empty and nothing else changes |
| Calculator.PremiumCalculator.SelectHistoryEntry | calculator/calculator-script.js:234-240 | Clicking a record puts the text after its `=`, trimmed, into the entry and sets the flag. The invariant is kept |
| Calculator.PremiumCalculator.RecoverFromError | calculator/calculator-script.js:296-299 | The deferred error callback sets the entry to "0" and changes nothing else |
| Calculator.PremiumCalculator.ToggleTheme | calculator/calculator-script.js:303-308 | The theme flag flips and nothing else changes |
| Calculator.PremiumCalculator.HandleKeyboard | calculator/calculator-script.js:269-291 | A key performs exactly the handler `Events.KeyEvent` assigns it, with that handler's error. A key the keyboard can deliver keeps the invariant |
| Engine.Apply | calculator/calculator-script.js:106-124 | Division by zero is reported exactly for "/" with a zero right operand. An unknown operator is reported exactly for a symbol outside + - * / % |
| Engine.AddToHistory | calculator/calculator-script.js:205-212 | The new expression is first. The length grows by one below 50 and stays 50 at the cap. Every later record is the previous one shifted down by one place |
| Events.KeyEvent | calculator/calculator-script.js:269-291 | Every single digit key appends that digit, and every operator key gives one of the five operator symbols |
| Text.DigitKeyRange | calculator/calculator-script.js:270 | `key >= '0' && key <= '9'` on strings holds exactly for keys whose first character is a digit below 9, and for "9" itself |
| Text.DotCountZero | calculator/calculator-script.js:66 | `includes('.')` is false exactly when the entry has no decimal point |
| Text.DotCountConcat | calculator/calculator-script.js:69 | Appending text adds the decimal points of both parts |
| Text.DotCountDropLast | calculator/calculator-script.js:156 | `slice(0, -1)` never adds a decimal point |
| Text.IndexOfFindsFirst | calculator/calculator-script.js:236 | The search behind `split` finds the first separator, and reports none exactly when there is none |
| Text.SplitSecondIsField | calculator/calculator-script.js:236 | `split('=')[1]` exists exactly when the text has an `=`, and contains no `=` |
| Text.SplitSecondAt | calculator/calculator-script.js:236 | In `a = b` with no other `=`, `split('=')[1]` is exactly `b` |
| Text.TrimStartDropsPrefix | calculator/calculator-script.js:236 | Trimming the start removes exactly the longest all-white-space prefix |
| Text.TrimEndDropsSuffix | calculator/calculator-script.js:236 | Trimming the end removes exactly the longest all-white-space suffix |
| Text.TrimPadded | calculator/calculator-script.js:236 | `trim()` of padded text whose content neither starts nor ends with white space gives back that content |
| Invariants.InitialIsValid | calculator/calculator-script.js:10-16 | The constructor's state satisfies the invariant |
| Invariants.ItemPadding | calculator/calculator-script.js:228-230 | Both paddings of the template around a record, the indent before it and the outdent after it, are white space and hold no `=` |
| Invariants.SelectedResultOfExpression | calculator/calculator-script.js:228-237 | Clicking the rendered record `a op b = result` of a calculation puts exactly its printed result back into the entry: the record format `calculate` writes and the click handler are inverse |
| Invariants.SelectedRecordIsEntry | calculator/calculator-script.js:236-237 | Clicking any well-formed record yields a non-empty entry with at most one point |
| Invariants.SingleKeyIsEntry | calculator/calculator-script.js:59-61 | A digit or "." is a valid entry on its own, and a digit holds no point |
| Invariants.AppendNumberKeepsValid | calculator/calculator-script.js:59-73 | `appendNumber` of a digit or "." keeps the invariant, in particular at most one decimal point |
| Invariants.AddToHistoryKeepsRecords | calculator/calculator-script.js:205-212 | Pushing a well-formed record onto a list of well-formed records gives only well-formed records |
| Invariants.CalculateKeepsValid | calculator/calculator-script.js:96-139 | `calculate` keeps the invariant, including the cap of 50 and the record format |
| Invariants.HandleOperatorKeepsValid | calculator/calculator-script.js:75-93 | `handleOperator` with an operator without "=" keeps the invariant, including at most one point on the "." path |
| Invariants.DeleteKeepsValid | calculator/calculator-script.js:154-161 | `delete` keeps the invariant: the entry stays non-empty with at most one point |
| Invariants.SelectHistoryEntryKeepsValid | calculator/calculator-script.js:234-240 | A click on any record keeps the invariant |
| Invariants.StepKeepsValid | calculator/calculator-script.js:24-57 | Every number input of one digit or ".", every operator without "=", and every other button, key, click and error timeout keeps the invariant |
| Invariants.RunKeepsValid | calculator/calculator-script.js:24-57 | Any sequence of inputs keeps the invariant, when each number input is one digit or "." and each operator has no "=" |
| Invariants.KeyEventIsValid | calculator/calculator-script.js:269-291 | Every key the keyboard delivers maps to an input that keeps the invariant |
| Invariants.CalculationFailsOnlyOnZeroDivisor | calculator/calculator-script.js:116-117 | `calculate` fails exactly on a pending "/" whose right operand parses to zero, and a failure changes nothing |
| Invariants.EqualsTwiceIsEqualsOnce | calculator/calculator-script.js:97-99 | A second `=` right after a calculation changes nothing |
| Invariants.CalculateRecordsOne | calculator/calculator-script.js:126-129 | A successful `=` adds exactly one record, `a op b = result`, to the history as one step of the record sequence the RecordAll lemmas describe; any other `=` adds none |
| Invariants.RecordAllLength | calculator/calculator-script.js:205-210 | After any number of records is added the history holds min(old length + new records, 50) |
| Invariants.RecordAllAt | calculator/calculator-script.js:205-210 | Each history position holds the matching new record in reverse order of entry, or the old record shifted down past them |
| Invariants.RecordAllKeepsNewest | calculator/calculator-script.js:205-210 | The history keeps at most 50 records, newest first, with the oldest evicted |
| Invariants.FiftyOneRecordsKeepFifty | calculator/calculator-script.js:205-210 | After 51 records are added to an empty history it holds 50: all but the first, newest first |
| Scenarios.LeadingZeroIsReplaced | calculator/calculator-script.js:64-65 | `0 5` gives "5", not "05", while `0 . 5` gives "0.5" |
| Scenarios.ChainingIsLeftToRight | calculator/calculator-script.js:85-91 | `2 + 3 * 4 =` computes `(2 + 3) * 4` and records both steps, newest first |
| Scenarios.DivisionByZeroChangesNothing | calculator/calculator-script.js:116-117 | `5 / 0 =` reports "Division by zero" and changes no field and no record, and a digit typed before the deferred recovery is discarded: the recovery puts "0" back in the entry and changes nothing else |
| Scenarios.PointAfterOperatorIsDiscarded | calculator/calculator-script.js:76-82 | After `5 +`, the operator path's "." is lost when the next digit replaces the entry, while the number path's "." gives ".3" |

## Left out

- Invariants.StepKeepsValid: it assumes each number button passes one digit or "." and each
  operator button passes a symbol without "=". The buttons pass their `data-number` /
  `data-operator` attributes (calculator/calculator-script.js:27, 32), and the HTML that sets
  them is not part of this model. A longer value such as ".5" could give an entry "1.2.5"
  with two points.
- Invariants.RunKeepsValid: it makes the same assumption about the button values as
  Invariants.StepKeepsValid, for every input of the sequence.
- Rendering is not modelled: the display, the expression preview, the memory indicator
  (`toFixed(2)`), the theme icon and the history list's HTML. The history click handler is
  modelled on the `textContent` the template produces for a record.
- `localStorage` is not modelled. Loading and saving of the memory, the history and the theme
  are left out, so the constructor's state is the one before anything is loaded. A stored
  history longer than 50 records, or one with records of another form, is outside the
  invariant.
- JavaScript number arithmetic is abstract (`Numerics`): `parseFloat`, `String`, the five
  operators, `roundResult`'s rounding to 8 decimals, and `=== 0`, so NaN, Infinity and -0 are
  whatever an instance makes of them. `Invariants.ValidNumerics` assumes `String(n)` is
  non-empty, has at most one point, has no `=` and no surrounding white space.
- Timers are not modelled. `showError`'s display of the message is the error value the
  handlers return. Its deferred callback is the separate input `RecoverFromError` /
  `ErrorTimeout`. The loader's timer is left out.
- Event wiring is a dispatch function (`Events.Step`). `preventDefault` and the display's
  `input` listener are left out.
- The history items' HTML parsing is not modelled: a record is assumed to be its own
  `textContent`, which holds for records made of numbers and operator symbols.
- Calculator.PremiumCalculator.HandleKeyboard: the invariant is stated for keys of one
  character, or keys that do not start with a digit. A multi-character key starting with a
  digit below "9" (which no keyboard delivers) passes the source's string comparison and
  would append more than one character.
