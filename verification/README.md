# Calculator and rock-paper-scissors engines, modelled in Dafny

This project models the logic of two browser toy pages of a TypeScript
teaching repository:

- the **calculator** (`src/ts/calc.ts`): a state machine over `currentInput`,
  `previousInput`, the pending `operation`, the `shouldResetDisplay` flag and
  a `history` of calculations that is append-only until it is cleared, driven by number, operator,
  equals, clear, backspace and clear-history commands from buttons or keys;
- the **rock-paper-scissors game** (`src/ts/janken.ts`): the rule deciding a
  round and the three score counters.

Files:

- `calc_engine.dfy` (module `CalcEngine`): the calculator state as a value,
  one function per command, sessions as folds over commands, and the lemmas
  about them.
- `html_escape.dfy` (module `HtmlEscape`): `escapeHtml`, an inverse for it and
  its laws.
- `calc_keys.dfy` (module `CalcKeys`): the key-to-command mapping of
  `handleKeyboardInput` and keyboard sessions.
- `calculator.dfy` (module `Calc`): the `Calculator` class, whose fields its
  methods update in place; each method is specified by the `CalcEngine`
  function of the same name (`HandleKeyboardInput` by `CalcKeys.HandleKey`)
  and keeps the object invariant.
- `janken.dfy` (module `Janken`): hands, results, `determineWinner`, the
  score, and the `JankenGame` class.

Floating-point arithmetic is abstract. `Arithmetic(compute, isZero)` stands
for the two places where `calculate` uses numbers: `compute(op, prev, cur)` is
the formatted result of `parseFloat(prev) op parseFloat(cur)`, or `None` when
`formatNumber` throws, and `isZero(cur)` is the test
`parseFloat(currentInput) === 0`. Any such pair is allowed. `formatNumber`
throws a `RangeError` when it passes `toFixed` a negative digit count. That
happens for a result with twelve integer digits and a fraction, such as
`99999999999 + 1.5`, and for exactly `10^12`, such as `999999999999 + 1`. The
throw comes before any field is assigned. So `calculate`, and an operator
that chains into it, leave the state as it was and record nothing. The
invariant results need one assumption, `Formats(ar)`: every string that
`formatNumber` returns is non-empty, holds at most one `.`, and
does not start with `0` followed by a character other than `.`. That is true
of what JavaScript's `toString`, `toExponential` and `toFixed` produce,
including `NaN` and `Infinity`. Timestamps are natural numbers that the caller
passes in. The computer's hand in a round is an input.

The source's quirks are reproduced as written:

- `%` by zero is not guarded (`ModuloByZeroRecorded`).
- Two operators in a row compute `x op x` (`OperatorTwice`).
- An operator after a refused division drops that division and makes the
  divisor the new left operand (`OperationAfterDivisionByZero`).
- A `.` typed right after a result gives `"."` (`ResetThenDot`).

Notes on the source's behaviour:

- `clear` leaves the history alone.
- After a refused division the current input keeps the divisor. The
  division-by-zero message is only written to the display element.
- The current input need not be a numeral. It can be `"."`, and it can be
  any string that `formatNumber` returns.

## Model

| member | source | states |
|---|---|---|
| `HtmlEscape.EscapeChar` | src/ts/calc.ts:253-259 | each of `& < > " '` maps to its entity (starting with `&`, ending with `;`); every other character maps to itself; no output holds a raw `< > " '` |
| `HtmlEscape.EscapeHtml` | src/ts/calc.ts:252-261 | the escaped text is at least as long as the input and contains no raw `<`, `>`, `"` or `'` |
| `HtmlEscape.UnescapeEscape` | src/ts/calc.ts:252-261 | escaping loses nothing: decoding the five entities recovers the original text |
| `HtmlEscape.EscapeInjective` | src/ts/calc.ts:252-261 | two different texts never escape to the same string |
| `HtmlEscape.EscapeConcat` | src/ts/calc.ts:260 | escaping works piece by piece: `escape(a + b) == escape(a) + escape(b)`, so each character is replaced in place and in order |
| `HtmlEscape.EscapeSingle` | src/ts/calc.ts:253-260 | a one-character text is replaced by its table entry |
| `HtmlEscape.EscapeIdentity` | src/ts/calc.ts:260 | text is left unchanged if and only if it holds none of the five special characters |
| `CalcEngine.ParseOperation` | src/ts/calc.ts:2 | reads an operator literal back; it is the exact inverse of the `OperationType` literals |
| `CalcEngine.IsValidOperation` | src/ts/calc.ts:370-372 | true exactly for the five operator literals |
| `CalcEngine.OperationSymbol` | src/ts/calc.ts:335-350 | each operator's display sign is one non-space character |
| `CalcEngine.SymbolInjective` | src/ts/calc.ts:335-350 | different operators show different signs |
| `CalcEngine.Initial` | src/ts/calc.ts:24-28 | the initial state keeps the invariant and carries the loaded history |
| `CalcEngine.AppendNumber` | src/ts/calc.ts:104-124 | typing a number key clears the reset flag and leaves the operands, the operator and the history unchanged |
| `CalcEngine.ShowError` | src/ts/calc.ts:327-332 | an error arms the reset flag and changes no other field |
| `CalcEngine.Expression` | src/ts/calc.ts:177 | the recorded expression is the left operand, a space, the operator's sign, a space and the right operand |
| `CalcEngine.AddToHistory` | src/ts/calc.ts:196-200 | the history grows by one, with the new entry last and the earlier entries kept; no other field changes |
| `CalcEngine.ClearHistory` | src/ts/calc.ts:236-240 | the history becomes empty; no other field changes |
| `CalcEngine.Calculate` | src/ts/calc.ts:143-193 | `calculate` either keeps the history or adds exactly one entry after the kept ones, and it either changes nothing or leaves the reset flag set |
| `CalcEngine.HandleOperation` | src/ts/calc.ts:127-140 | an operator adds at most one history entry; unless the input is empty or the chained calculation throws, it sets the operator, makes the shown input the left operand and arms the reset flag |
| `CalcEngine.Backspace` | src/ts/calc.ts:301-308 | the input loses exactly its last character when it has two or more, becomes `"0"` when it has one, and no other field changes |
| `CalcEngine.Step` | src/ts/calc.ts:50-95 | a button command adds at most one history entry and keeps the earlier ones, except clear-history, which empties the history |
| `CalcEngine.Clear` | src/ts/calc.ts:292-298 | clear yields the initial state with the same history |
| `CalcEngine.ResetThenDot` | src/ts/calc.ts:106-120 | after a reset, `.` starts the new numeral as `"."` |
| `CalcEngine.DotTwice` | src/ts/calc.ts:111-114 | a second `.` is ignored: pressing `.` twice equals pressing it once |
| `CalcEngine.ResetStartsFresh` | src/ts/calc.ts:106-109 | with the reset flag set, the shown input is discarded first, so the key starts a fresh numeral (`"8"` then `2` gives `"2"`) |
| `CalcEngine.AppendNumberEdits` | src/ts/calc.ts:116-121 | without a reset, a digit replaces a lone `"0"`; every other key is appended as typed (`"0"` then `.` gives `"0."`); a `.` when one is present changes nothing |
| `CalcEngine.AppendNumberOneDot` | src/ts/calc.ts:106-121 | a numeral never gets a second decimal point |
| `CalcEngine.AppendNumberNoRedundantZero` | src/ts/calc.ts:116-121 | a number key never produces `0` followed by a digit |
| `CalcEngine.AppendNumberKeepsInvariant` | src/ts/calc.ts:104-124 | a digit or `.` keeps the input non-empty, with at most one `.` and no redundant leading zero |
| `CalcEngine.CalculateNotPending` | src/ts/calc.ts:144 | with no left operand or no operator, `=` does nothing |
| `CalcEngine.CalculateDivisionByZero` | src/ts/calc.ts:161-165 | `/` by zero leaves input, operands, operator and history unchanged and only sets the reset flag |
| `CalcEngine.CalculateRecords` | src/ts/calc.ts:175-190 | a completed calculation appends exactly one entry `prev symbol cur` with its result, keeps earlier entries, shows the result and clears the pending operation |
| `CalcEngine.FormatThrowLeavesState` | src/ts/calc.ts:178 | when `formatNumber` throws, `calculate` and a chaining operator leave every field unchanged and record nothing |
| `CalcEngine.ModuloByZeroRecorded` | src/ts/calc.ts:168-169 | `%` by zero is not guarded: it is recorded and shown like any result that formats |
| `CalcEngine.CalculateIdempotent` | src/ts/calc.ts:143-193 | pressing `=` again changes nothing, so it adds no second history entry |
| `CalcEngine.CalculateHistory` | src/ts/calc.ts:143-199 | `calculate` keeps the old history as a prefix and grows it by one exactly when it completes a calculation (pending, not a refused division, and `formatNumber` returns) |
| `CalcEngine.CalculateKeepsInvariant` | src/ts/calc.ts:186-190 | the shown result keeps the input invariant |
| `CalcEngine.OperationOnEmptyInput` | src/ts/calc.ts:128 | an operator on an empty input does nothing |
| `CalcEngine.OperationPends` | src/ts/calc.ts:127-140 | unless the chained calculation throws, an operator sets the operator, makes the shown input the left operand and arms the reset flag; with no pending operand nothing is computed |
| `CalcEngine.OperationChains` | src/ts/calc.ts:130-137 | an operator after a pending operation first completes it and continues from its result |
| `CalcEngine.OperatorTwice` | src/ts/calc.ts:131-136 | two operators in a row record `x op1 x` and continue with its result |
| `CalcEngine.OperationAfterDivisionByZero` | src/ts/calc.ts:131-137 | after a refused division an operator replaces the operator and makes the divisor the left operand, recording nothing |
| `CalcEngine.HandleOperationKeepsInvariant` | src/ts/calc.ts:127-140 | an operator keeps the input invariant |
| `CalcEngine.BackspaceEdits` | src/ts/calc.ts:301-308 | backspace turns one character into `"0"`, otherwise drops exactly the last character, never empties a non-empty input, and changes no other field |
| `CalcEngine.BackspaceKeepsInvariant` | src/ts/calc.ts:301-308 | backspace keeps the input invariant |
| `CalcEngine.ClearResets` | src/ts/calc.ts:292-297 | clear sets `"0"`, `""`, no operator and no reset flag, keeps the history, and the result satisfies the invariant |
| `CalcEngine.StepKeepsInvariant` | src/ts/calc.ts:50-100 | every button command keeps the input invariant |
| `CalcEngine.RunKeepsInvariant` | src/ts/calc.ts:50-100 | in any session of button presses the input is never empty, has at most one `.` and has no redundant leading zero |
| `CalcEngine.RunHistoryAppendOnly` | src/ts/calc.ts:196-200 | until it is cleared, the history is append-only, with at most one entry per command |
| `CalcEngine.FivePlusThree` | src/ts/calc.ts:143-190 | `5 + 3 =` shows the sum and records `"5 + 3"` |
| `CalcEngine.OneDividedByZero` | src/ts/calc.ts:161-165 | `1 / 0 =` keeps `"1"` and `/` pending and records nothing |
| `CalcKeys.KeyCommand` | src/ts/calc.ts:375-419 | a key is ignored exactly when it is not a digit, `.`, an operator literal, `Enter`, `=`, `Escape` or `Backspace`; number keys carry the key itself, operator keys the operator they spell, and no key clears the history |
| `CalcKeys.KeyboardReachesCommand` | src/ts/calc.ts:375-419 | every command except clearing the history can be typed |
| `CalcKeys.EnterIsEquals` | src/ts/calc.ts:400-404 | `Enter` and `=` both calculate |
| `CalcKeys.HandleKey` | src/ts/calc.ts:375-419 | an ignored key changes nothing; no key removes history entries, and a key adds at most one |
| `CalcKeys.RunKeysKeepsInvariant` | src/ts/calc.ts:97-100 | whatever is typed, the input keeps the invariant and the history only grows at its end |
| `Calc.Calculator.constructor` | src/ts/calc.ts:24-28 | a new calculator is in the initial state with the loaded history and satisfies its invariant |
| `Calc.Calculator.AppendNumber` | src/ts/calc.ts:104-124 | the fields become `CalcEngine.AppendNumber` of the old ones; a digit or `.` keeps the invariant |
| `Calc.Calculator.HandleOperation` | src/ts/calc.ts:127-140 | the fields become `CalcEngine.HandleOperation` of the old ones (it stops when the chained `calculate` throws); the invariant is kept |
| `Calc.Calculator.Calculate` | src/ts/calc.ts:143-193 | the fields become `CalcEngine.Calculate` of the old ones; it reports exactly when `formatNumber` threw; the invariant is kept |
| `Calc.Calculator.AddToHistory` | src/ts/calc.ts:196-200 | the entry is pushed at the end of the history; nothing else changes |
| `Calc.Calculator.ClearHistory` | src/ts/calc.ts:236-240 | the history is emptied; nothing else changes |
| `Calc.Calculator.Clear` | src/ts/calc.ts:292-298 | every field but the history returns to its initial value |
| `Calc.Calculator.Backspace` | src/ts/calc.ts:301-308 | the fields become `CalcEngine.Backspace` of the old ones; the invariant is kept |
| `Calc.Calculator.ShowError` | src/ts/calc.ts:327-332 | only the reset flag is set |
| `Calc.Calculator.HandleKeyboardInput` | src/ts/calc.ts:375-419 | an ignored key changes nothing; any other key runs exactly the command `KeyCommand` gives it; the invariant is kept |
| `Calc.TypeFivePlusThree` | src/ts/calc.ts:375-404 | typing `5`, `+`, `3`, `Enter` on a new calculator shows the sum and logs `"5 + 3"` |
| `Janken.DetermineWinner` | src/ts/janken.ts:86-100 | the round is a draw exactly when the two hands are equal |
| `Janken.Beats` | src/ts/janken.ts:91-95 | no hand beats itself |
| `Janken.WinningPairs` | src/ts/janken.ts:91-99 | the player wins exactly when their hand beats the computer's, and loses exactly when the computer's hand beats theirs |
| `Janken.CyclicRule` | src/ts/janken.ts:86-100 | the rules agree with the cyclic order rock, paper, scissors: win at distance 1, lose at distance 2 |
| `Janken.Antisymmetry` | src/ts/janken.ts:86-100 | swapping the hands swaps win and lose |
| `Janken.Balance` | src/ts/janken.ts:86-100 | each hand wins against exactly one hand, loses against exactly one and draws against exactly one |
| `Janken.Tally` | src/ts/janken.ts:137-158 | scoring a round raises the total by one |
| `Janken.TallyOneCounter` | src/ts/janken.ts:137-158 | exactly the counter of the result changes, by one |
| `Janken.TallyAllCounts` | src/ts/janken.ts:137-158 | after a series of rounds each counter has grown by the number of rounds with its result |
| `Janken.JankenGame.constructor` | src/ts/janken.ts:18-20 | a new game starts at zero wins, draws and losses |
| `Janken.JankenGame.Play` | src/ts/janken.ts:64-76 | the result is `determineWinner` of the two hands, its counter moves and the total rises by one |
| `Janken.JankenGame.UpdateScore` | src/ts/janken.ts:137-158 | the scoreboard moves by `Tally` of the result |
| `Janken.JankenGame.ResetGame` | src/ts/janken.ts:161-164 | all three counters become 0 |

## Left out

- DOM work is not modelled: element lookup, event-listener wiring, `updateDisplay`, `updateHistoryDisplay` (which renders the history newest first), `displayResult` and `animateButton` with its timer. Button clicks are the `Command` values. This is presentation only.
- `parseFloat`, IEEE-754 arithmetic and `formatNumber` are left out. They are the abstract `Arithmetic` described above, so the digit budget, exponential formatting and the exact inputs on which `formatNumber` throws are not modelled. The invariant results rest on the `Formats` assumption.
- `saveHistory`, `loadHistory` and `formatTime` are left out because they use `localStorage`, JSON and locale formatting. The constructor takes the loaded history as a parameter, and timestamps are abstract natural numbers.
- `getRandomHand` is left out because it uses `Math.random`. `Play` takes the computer's hand as an input.
- Calc.Calculator.ShowError: the error message text is not kept, because it only reaches the display element.
- Calc.Calculator.AppendNumber: the invariant is promised only for a digit or `.`, which are the strings the number buttons and keys pass. The source accepts any string.
- Janken.JankenGame.UpdateScore: the counters are unbounded naturals. The source's JavaScript numbers would stop growing after 2^53 rounds.
- Strings are sequences of characters. JavaScript's UTF-16 code units are not modelled. This only matters for `length` and `slice` on characters outside the Basic Multilingual Plane, which the calculator input never holds.
- The omikuji widget (`src/ts/omikuji.ts`), the webpack configuration and the console-logging language samples are not part of this model. They contain no logic beyond a random lookup or printing.
