/** The calculator's state and its transitions, as values: the five fields
    of `Calculator` in src/ts/calc.ts and one function per command. The
    class in calculator.dfy updates its fields in place and is specified
    by these functions.

    Floating-point arithmetic and `formatNumber` are not modelled: the
    formatted result of `prev op cur` is `ar.compute(op, prev, cur)`, which
    is `None` when `formatNumber` throws, and the test
    `parseFloat(currentInput) === 0` is `ar.isZero(currentInput)`, for an
    arbitrary `ar: Arithmetic`. */
module CalcEngine {

  datatype Option<T> = None | Some(value: T)

  /** `OperationType`. */
  datatype Op = Add | Sub | Mul | Div | Mod

  /** The string literal of each member of `OperationType`. */
  function OpText(op: Op): string {
    match op
    case Add => "+"
    case Sub => "-"
    case Mul => "*"
    case Div => "/"
    case Mod => "%"
  }

  /** Reads an operator literal back; the inverse of `OpText`. */
  function ParseOperation(s: string): (r: Option<Op>)
    ensures r.Some? ==> OpText(r.value) == s
    ensures forall op: Op :: OpText(op) == s ==> r == Some(op)
  {
    if s == "+" then Some(Add)
    else if s == "-" then Some(Sub)
    else if s == "*" then Some(Mul)
    else if s == "/" then Some(Div)
    else if s == "%" then Some(Mod)
    else None
  }

  /** `isValidOperation`: the string is one of the five operator literals. */
  function IsValidOperation(s: string): (b: bool)
    ensures b <==> ParseOperation(s).Some?
  {
    s in ["+", "-", "*", "/", "%"]
  }

  /** `getOperationSymbol`: the sign shown in the expression of a history
      entry (minus, times and division are the typographic signs). */
  function OperationSymbol(op: Op): (r: string)
    ensures |r| == 1 && r[0] != ' '
  {
    match op
    case Add => "+"
    case Sub => "\U{2212}"
    case Mul => "\U{00D7}"
    case Div => "\U{00F7}"
    case Mod => "%"
  }

  /** Different operators show different signs. */
  lemma SymbolInjective(a: Op, b: Op)
    requires OperationSymbol(a) == OperationSymbol(b)
    ensures a == b
  {
    assert OperationSymbol(a)[0] == OperationSymbol(b)[0];
  }

  /** `HistoryEntry`; the `Date` is an abstract instant. */
  datatype HistoryEntry = HistoryEntry(expression: string, result: string, timestamp: nat)

  /** The state fields of `Calculator`. */
  datatype CalcState = CalcState(
    currentInput: string,
    previousInput: string,
    operation: Option<Op>,
    shouldResetDisplay: bool,
    history: seq<HistoryEntry>)

  /** The two floating-point steps of `calculate`, left abstract: the
      formatted result of an operation, and whether a numeral parses to 0.
      `compute` gives `None` where `formatNumber` throws: `toFixed` rejects
      the negative digit count it is given for a result of twelve integer
      digits with a fraction, or of exactly 10^12 (a `RangeError`). */
  datatype Arithmetic = Arithmetic(compute: (Op, string, string) -> Option<string>, isZero: string -> bool)

  /** No `0` followed by another character other than the decimal point. */
  predicate NoRedundantZero(c: string) {
    |c| >= 2 && c[0] == '0' ==> c[1] == '.'
  }

  /** The shape of what the calculator displays as its current input:
      never empty, at most one decimal point, no redundant leading zero. */
  predicate DisplayShape(c: string) {
    c != [] && multiset(c)['.'] <= 1 && NoRedundantZero(c)
  }

  /** What is assumed of `formatNumber`: its output when it returns (a
      JavaScript number's `toString`, `toExponential` or `toFixed`,
      including `NaN` and `Infinity`) has display shape. */
  ghost predicate Formats(ar: Arithmetic) {
    forall op, p, c :: ar.compute(op, p, c).Some? ==> DisplayShape(ar.compute(op, p, c).value)
  }

  /** The invariant every reachable state keeps. */
  predicate Invariant(s: CalcState) {
    DisplayShape(s.currentInput)
  }

  /** A one-character key the number handler receives: a digit or `.`. */
  predicate IsDigitKey(key: string) {
    |key| == 1 && '0' <= key[0] <= '9'
  }

  predicate IsNumberKey(key: string) {
    IsDigitKey(key) || key == "."
  }

  /** The initial state; `saved` is the history `loadHistory` produced. */
  function Initial(saved: seq<HistoryEntry>): (s: CalcState)
    ensures Invariant(s) && s.history == saved
  {
    CalcState("0", "", None, false, saved)
  }

  /** `appendNumber`. */
  function AppendNumber(s: CalcState, number: string): (r: CalcState)
    ensures r.previousInput == s.previousInput && r.operation == s.operation
    ensures r.history == s.history && !r.shouldResetDisplay
  {
    var cur := if s.shouldResetDisplay then "" else s.currentInput;
    var t := s.(currentInput := cur, shouldResetDisplay := false);
    if number == "." && '.' in cur then t
    else if cur == "0" && number != "." then t.(currentInput := number)
    else t.(currentInput := cur + number)
  }

  /** `showError`: the message goes to the display; the state only gets
      the reset flag. */
  function ShowError(s: CalcState): (r: CalcState)
    ensures r.shouldResetDisplay
    ensures r.currentInput == s.currentInput && r.previousInput == s.previousInput
    ensures r.operation == s.operation && r.history == s.history
  {
    s.(shouldResetDisplay := true)
  }

  /** The expression recorded in a history entry: the left operand, a
      space, the operator's sign, a space and the right operand. */
  function Expression(prev: string, op: Op, cur: string): (r: string)
    ensures |r| == |prev| + |cur| + 3
    ensures r[..|prev|] == prev && r[|prev| + 3..] == cur
    ensures r[|prev|] == ' ' && r[|prev| + 1] == OperationSymbol(op)[0] && r[|prev| + 2] == ' '
  {
    prev + " " + OperationSymbol(op) + " " + cur
  }

  /** `addToHistory`. */
  function AddToHistory(s: CalcState, entry: HistoryEntry): (r: CalcState)
    ensures |r.history| == |s.history| + 1 && r.history[|s.history|] == entry
    ensures r.history[..|s.history|] == s.history
    ensures r.currentInput == s.currentInput && r.previousInput == s.previousInput
    ensures r.operation == s.operation && r.shouldResetDisplay == s.shouldResetDisplay
  {
    s.(history := s.history + [entry])
  }

  /** `clearHistory`. */
  function ClearHistory(s: CalcState): (r: CalcState)
    ensures r.history == []
    ensures r.currentInput == s.currentInput && r.previousInput == s.previousInput
    ensures r.operation == s.operation && r.shouldResetDisplay == s.shouldResetDisplay
  {
    s.(history := [])
  }

  /** Whether `calculate` on `s` reaches the arithmetic at all. */
  predicate Pending(s: CalcState) {
    s.previousInput != "" && s.operation.Some?
  }

  /** Whether `calculate` on `s` stops at the division-by-zero guard. */
  predicate DivisionByZero(s: CalcState, ar: Arithmetic) {
    Pending(s) && s.operation.value == Div && ar.isZero(s.currentInput)
  }

  /** Whether `calculate` on `s` reaches `formatNumber` and it throws. */
  predicate FormatThrows(s: CalcState, ar: Arithmetic) {
    Pending(s) && !DivisionByZero(s, ar)
    && ar.compute(s.operation.value, s.previousInput, s.currentInput).None?
  }

  /** Whether `calculate` on `s` completes a calculation. */
  predicate Completes(s: CalcState, ar: Arithmetic) {
    Pending(s) && !DivisionByZero(s, ar) && !FormatThrows(s, ar)
  }

  /** `calculate`, at instant `now`. A throw from `formatNumber` happens
      before any field is assigned, so it leaves the state as it was. */
  function Calculate(s: CalcState, ar: Arithmetic, now: nat): (r: CalcState)
    ensures r.history == s.history || (|r.history| == |s.history| + 1 && r.history[..|s.history|] == s.history)
    ensures r == s || r.shouldResetDisplay
  {
    if !Pending(s) then s
    else if DivisionByZero(s, ar) then ShowError(s)
    else
      var op := s.operation.value;
      match ar.compute(op, s.previousInput, s.currentInput)
      case None => s
      case Some(formatted) =>
        var entry := HistoryEntry(Expression(s.previousInput, op, s.currentInput), formatted, now);
        var t := AddToHistory(s, entry);
        t.(currentInput := entry.result, operation := None, previousInput := "", shouldResetDisplay := true)
  }

  /** `handleOperation`. A throw inside the chained `calculate` abandons
      the whole call. */
  function HandleOperation(s: CalcState, ar: Arithmetic, op: Op, now: nat): (r: CalcState)
    ensures r.history == s.history || (|r.history| == |s.history| + 1 && r.history[..|s.history|] == s.history)
    ensures s.currentInput != "" && !FormatThrows(s, ar)
            ==> r.operation == Some(op) && r.previousInput == r.currentInput && r.shouldResetDisplay
  {
    if s.currentInput == "" then s
    else if s.previousInput != "" && FormatThrows(s, ar) then s
    else
      var t := if s.previousInput != "" then Calculate(s, ar, now) else s;
      t.(operation := Some(op), previousInput := t.currentInput, shouldResetDisplay := true)
  }

  /** `clear`. */
  function Clear(s: CalcState): (r: CalcState)
    ensures r == Initial(s.history)
  {
    s.(currentInput := "0", previousInput := "", operation := None, shouldResetDisplay := false)
  }

  /** `currentInput.slice(0, -1)`, which is empty on the empty string. */
  function DropLast(c: string): string {
    if c == [] then [] else c[..|c| - 1]
  }

  /** `backspace`. */
  function Backspace(s: CalcState): (r: CalcState)
    ensures |s.currentInput| >= 2 ==> |r.currentInput| == |s.currentInput| - 1 && r.currentInput <= s.currentInput
    ensures |s.currentInput| == 1 ==> r.currentInput == "0"
    ensures r.previousInput == s.previousInput && r.operation == s.operation
    ensures r.shouldResetDisplay == s.shouldResetDisplay && r.history == s.history
  {
    s.(currentInput := if |s.currentInput| == 1 then "0" else DropLast(s.currentInput))
  }

  /** The commands the buttons and the keyboard issue. */
  datatype Command =
    | NumberKey(number: string)
    | OperatorKey(op: Op)
    | EqualsKey
    | ClearKey
    | BackspaceKey
    | ClearHistoryKey

  /** A number command carries a digit or the decimal point, as every
      number button and key does. */
  predicate WellFormed(cmd: Command) {
    cmd.NumberKey? ==> IsNumberKey(cmd.number)
  }

  /** One command, at instant `now`, as the button listeners issue it. */
  function Step(s: CalcState, ar: Arithmetic, cmd: Command, now: nat): (r: CalcState)
    ensures cmd.ClearHistoryKey? ==> r.history == []
    ensures !cmd.ClearHistoryKey? ==> s.history <= r.history && |r.history| <= |s.history| + 1
  {
    match cmd
    case NumberKey(n) => AppendNumber(s, n)
    case OperatorKey(op) => HandleOperation(s, ar, op, now)
    case EqualsKey => Calculate(s, ar, now)
    case ClearKey => Clear(s)
    case BackspaceKey => Backspace(s)
    case ClearHistoryKey => ClearHistory(s)
  }

  /** A command and the instant it is handled. */
  datatype Event = Event(cmd: Command, time: nat)

  /** A session: the events handled in order. */
  function Run(s: CalcState, ar: Arithmetic, events: seq<Event>): CalcState
    decreases |events|
  {
    if events == [] then s
    else Run(Step(s, ar, events[0].cmd, events[0].time), ar, events[1..])
  }

  // ---------------------------------------------------------------------
  // appendNumber

  /** After a result or an error, a decimal point starts the new numeral
      as "." (not "0."). */
  lemma ResetThenDot(s: CalcState)
    requires s.shouldResetDisplay
    ensures AppendNumber(s, ".").currentInput == "."
  {
  }

  /** A second decimal point is ignored: pressing `.` twice is pressing it once. */
  lemma DotTwice(s: CalcState)
    ensures AppendNumber(AppendNumber(s, "."), ".") == AppendNumber(s, ".")
  {
    var t := AppendNumber(s, ".");
    assert '.' in t.currentInput by {
      var cur := if s.shouldResetDisplay then "" else s.currentInput;
      if !('.' in cur) {
        assert t.currentInput == cur + ".";
        assert t.currentInput[|cur|] == '.';
      }
    }
  }

  /** With the reset flag set, the shown input is discarded first: the key
      starts a fresh numeral (after a result "8", the key "2" gives "2"). */
  lemma ResetStartsFresh(s: CalcState, number: string)
    requires s.shouldResetDisplay
    ensures AppendNumber(s, number) == AppendNumber(s.(currentInput := "", shouldResetDisplay := false), number)
    ensures number != "" ==> AppendNumber(s, number).currentInput == number
  {
  }

  /** A digit replaces a lone "0" (so "0" then "5" gives "5"); otherwise the
      key is appended as it is (so "0" then "." gives "0."), except that a
      second `.` changes nothing. */
  lemma AppendNumberEdits(s: CalcState, number: string)
    requires !s.shouldResetDisplay
    ensures s.currentInput == "0" && number != "." ==> AppendNumber(s, number).currentInput == number
    ensures !(s.currentInput == "0" && number != ".") && !(number == "." && '.' in s.currentInput)
            ==> AppendNumber(s, number).currentInput == s.currentInput + number
    ensures number == "." && '.' in s.currentInput ==> AppendNumber(s, number) == s
  {
  }

  /** A numeral never gets a second decimal point. */
  lemma AppendNumberOneDot(s: CalcState, number: string)
    requires multiset(s.currentInput)['.'] <= 1
    requires number == "." || '.' !in number
    ensures multiset(AppendNumber(s, number).currentInput)['.'] <= 1
  {
    var cur := if s.shouldResetDisplay then "" else s.currentInput;
    var r := AppendNumber(s, number).currentInput;
    assert multiset(cur)['.'] <= 1;
    if number == "." && '.' in cur {
    } else if cur == "0" && number != "." {
      assert multiset(number)['.'] == 0;
    } else {
      assert r == cur + number;
      assert multiset(r) == multiset(cur) + multiset(number);
      if number == "." {
        assert multiset(cur)['.'] == 0;
      } else {
        assert multiset(number)['.'] == 0;
      }
    }
  }

  /** "0" followed by a digit is never produced. */
  lemma AppendNumberNoRedundantZero(s: CalcState, number: string)
    requires NoRedundantZero(s.currentInput)
    requires IsNumberKey(number)
    ensures NoRedundantZero(AppendNumber(s, number).currentInput)
  {
    var cur := if s.shouldResetDisplay then "" else s.currentInput;
    var r := AppendNumber(s, number).currentInput;
    if !(number == "." && '.' in cur) && !(cur == "0" && number != ".") {
      assert r == cur + number;
      if cur != [] {
        assert r[0] == cur[0];
        if |cur| >= 2 { assert r[1] == cur[1]; }
      }
    }
  }

  lemma AppendNumberKeepsInvariant(s: CalcState, number: string)
    requires Invariant(s) && IsNumberKey(number)
    ensures Invariant(AppendNumber(s, number))
  {
    AppendNumberOneDot(s, number);
    AppendNumberNoRedundantZero(s, number);
  }

  // ---------------------------------------------------------------------
  // calculate

  /** `=` with no pending operation does nothing. */
  lemma CalculateNotPending(s: CalcState, ar: Arithmetic, now: nat)
    requires !Pending(s)
    ensures Calculate(s, ar, now) == s
  {
  }

  /** A division by zero keeps operands, operator, input and history and
      only arms the reset flag. */
  lemma CalculateDivisionByZero(s: CalcState, ar: Arithmetic, now: nat)
    requires DivisionByZero(s, ar)
    ensures Calculate(s, ar, now) == s.(shouldResetDisplay := true)
  {
  }

  /** A completed calculation appends exactly one entry, built from the
      operands as typed, and shows its result as the new input. */
  lemma CalculateRecords(s: CalcState, ar: Arithmetic, now: nat)
    requires Completes(s, ar)
    ensures var r := Calculate(s, ar, now);
      var op := s.operation.value;
      var v := ar.compute(op, s.previousInput, s.currentInput).value;
      && r.history[..|s.history|] == s.history
      && r.history == s.history + [HistoryEntry(
           s.previousInput + " " + OperationSymbol(op) + " " + s.currentInput, v, now)]
      && r.currentInput == v
      && r.previousInput == "" && r.operation == None && r.shouldResetDisplay
  {
  }

  /** When `formatNumber` throws, `calculate` and a chaining operator both
      leave every field as it was and record nothing. */
  lemma FormatThrowLeavesState(s: CalcState, ar: Arithmetic, op: Op, now: nat)
    requires FormatThrows(s, ar)
    ensures Calculate(s, ar, now) == s
    ensures HandleOperation(s, ar, op, now) == s
  {
  }

  /** `%` by zero is not guarded: it goes on to `formatNumber` and, unless
      that throws, is recorded like any other result. */
  lemma ModuloByZeroRecorded(s: CalcState, ar: Arithmetic, now: nat)
    requires Pending(s) && s.operation.value == Mod && ar.isZero(s.currentInput)
    requires ar.compute(Mod, s.previousInput, s.currentInput).Some?
    ensures |Calculate(s, ar, now).history| == |s.history| + 1
    ensures Some(Calculate(s, ar, now).currentInput) == ar.compute(Mod, s.previousInput, s.currentInput)
  {
  }

  /** Pressing `=` again changes nothing: no second history entry. */
  lemma CalculateIdempotent(s: CalcState, ar: Arithmetic, now: nat, later: nat)
    ensures Calculate(Calculate(s, ar, now), ar, later) == Calculate(s, ar, now)
  {
  }

  /** `calculate` appends at most one entry and never rewrites older ones. */
  lemma CalculateHistory(s: CalcState, ar: Arithmetic, now: nat)
    ensures var h := Calculate(s, ar, now).history;
      s.history <= h && |h| <= |s.history| + 1
      && (|h| == |s.history| + 1 <==> Completes(s, ar))
  {
  }

  lemma CalculateKeepsInvariant(s: CalcState, ar: Arithmetic, now: nat)
    requires Invariant(s) && Formats(ar)
    ensures Invariant(Calculate(s, ar, now))
  {
    if Completes(s, ar) {
      var op := s.operation.value;
      assert DisplayShape(ar.compute(op, s.previousInput, s.currentInput).value);
    }
  }

  // ---------------------------------------------------------------------
  // handleOperation

  /** With an empty input an operator is ignored. */
  lemma OperationOnEmptyInput(s: CalcState, ar: Arithmetic, op: Op, now: nat)
    requires s.currentInput == ""
    ensures HandleOperation(s, ar, op, now) == s
  {
  }

  /** An operator makes the shown input the left operand and waits for the
      right one; with no pending left operand nothing is computed. */
  lemma OperationPends(s: CalcState, ar: Arithmetic, op: Op, now: nat)
    requires s.currentInput != "" && !FormatThrows(s, ar)
    ensures var r := HandleOperation(s, ar, op, now);
      && r.operation == Some(op) && r.previousInput == r.currentInput && r.shouldResetDisplay
      && (s.previousInput == "" ==> r.currentInput == s.currentInput && r.history == s.history)
  {
  }

  /** An operator after a pending operation first completes it (chaining). */
  lemma OperationChains(s: CalcState, ar: Arithmetic, op: Op, now: nat)
    requires s.currentInput != "" && Completes(s, ar)
    ensures var r := HandleOperation(s, ar, op, now);
      var v := ar.compute(s.operation.value, s.previousInput, s.currentInput).value;
      && r.previousInput == v && r.currentInput == v && r.operation == Some(op)
      && |r.history| == |s.history| + 1
  {
  }

  /** Two operators in a row: the second applies the first to the shown
      numeral twice (`x op1 x`), as the input still equals the left operand. */
  lemma OperatorTwice(s: CalcState, ar: Arithmetic, op1: Op, op2: Op, t1: nat, t2: nat)
    requires s.currentInput != "" && s.previousInput == ""
    requires !(op1 == Div && ar.isZero(s.currentInput))
    requires ar.compute(op1, s.currentInput, s.currentInput).Some?
    ensures var r := HandleOperation(HandleOperation(s, ar, op1, t1), ar, op2, t2);
      var x := s.currentInput;
      var v := ar.compute(op1, x, x).value;
      && r.history == s.history + [HistoryEntry(Expression(x, op1, x), v, t2)]
      && r.previousInput == v && r.operation == Some(op2)
  {
  }

  /** After a refused division an operator silently discards the division:
      the divisor becomes the left operand of the new operator. */
  lemma OperationAfterDivisionByZero(s: CalcState, ar: Arithmetic, op: Op, now: nat)
    requires s.currentInput != "" && DivisionByZero(s, ar)
    ensures HandleOperation(s, ar, op, now)
         == s.(operation := Some(op), previousInput := s.currentInput, shouldResetDisplay := true)
  {
  }

  lemma HandleOperationKeepsInvariant(s: CalcState, ar: Arithmetic, op: Op, now: nat)
    requires Invariant(s) && Formats(ar)
    ensures Invariant(HandleOperation(s, ar, op, now))
  {
    CalculateKeepsInvariant(s, ar, now);
  }

  // ---------------------------------------------------------------------
  // backspace and clear

  /** Backspace drops exactly the last character, and turns a single
      character into "0"; nothing else changes. */
  lemma BackspaceEdits(s: CalcState)
    ensures var r := Backspace(s);
      && (|s.currentInput| == 1 ==> r.currentInput == "0")
      && (|s.currentInput| >= 2 ==> r.currentInput + [s.currentInput[|s.currentInput| - 1]] == s.currentInput)
      && (s.currentInput != "" ==> r.currentInput != "")
      && r.previousInput == s.previousInput && r.operation == s.operation
      && r.shouldResetDisplay == s.shouldResetDisplay && r.history == s.history
  {
    var c := s.currentInput;
    if |c| >= 2 {
      assert c[..|c| - 1] + [c[|c| - 1]] == c;
    }
  }

  lemma BackspaceKeepsInvariant(s: CalcState)
    requires Invariant(s)
    ensures Invariant(Backspace(s))
  {
    var c := s.currentInput;
    if |c| >= 2 {
      var d := c[..|c| - 1];
      assert c == d + [c[|c| - 1]];
      assert multiset(c) == multiset(d) + multiset([c[|c| - 1]]);
      if |d| >= 2 { assert d[0] == c[0] && d[1] == c[1]; }
    }
  }

  /** Clear restores every field but the history to its initial value. */
  lemma ClearResets(s: CalcState)
    ensures var r := Clear(s);
      r.currentInput == "0" && r.previousInput == "" && r.operation == None
      && !r.shouldResetDisplay && r.history == s.history && Invariant(r)
  {
  }

  // ---------------------------------------------------------------------
  // sessions

  lemma StepKeepsInvariant(s: CalcState, ar: Arithmetic, cmd: Command, now: nat)
    requires Invariant(s) && Formats(ar) && WellFormed(cmd)
    ensures Invariant(Step(s, ar, cmd, now))
  {
    match cmd
    case NumberKey(n) => AppendNumberKeepsInvariant(s, n);
    case OperatorKey(op) => HandleOperationKeepsInvariant(s, ar, op, now);
    case EqualsKey => CalculateKeepsInvariant(s, ar, now);
    case ClearKey =>
    case BackspaceKey => BackspaceKeepsInvariant(s);
    case ClearHistoryKey =>
  }

  /** Whatever the buttons are pressed in, the input is never empty, holds
      at most one decimal point and has no redundant leading zero. */
  lemma {:induction false} RunKeepsInvariant(s: CalcState, ar: Arithmetic, events: seq<Event>)
    requires Invariant(s) && Formats(ar)
    requires forall e :: e in events ==> WellFormed(e.cmd)
    ensures Invariant(Run(s, ar, events))
    decreases |events|
  {
    if events != [] {
      StepKeepsInvariant(s, ar, events[0].cmd, events[0].time);
      assert forall e :: e in events[1..] ==> e in events;
      RunKeepsInvariant(Step(s, ar, events[0].cmd, events[0].time), ar, events[1..]);
    }
  }

  /** Until the history is cleared it is append-only: a session only adds
      entries after the ones it started with, at most one per command. */
  lemma {:induction false} RunHistoryAppendOnly(s: CalcState, ar: Arithmetic, events: seq<Event>)
    requires forall e :: e in events ==> !e.cmd.ClearHistoryKey?
    ensures var h := Run(s, ar, events).history;
      s.history <= h && |h| <= |s.history| + |events|
    decreases |events|
  {
    if events != [] {
      var t := Step(s, ar, events[0].cmd, events[0].time);
      assert forall e :: e in events[1..] ==> e in events;
      RunHistoryAppendOnly(t, ar, events[1..]);
    }
  }

  /** `5 + 3 =` shows the sum and records "5 + 3". */
  lemma FivePlusThree(ar: Arithmetic, saved: seq<HistoryEntry>, t: nat)
    requires ar.compute(Add, "5", "3") == Some("8")
    ensures var r := Run(Initial(saved), ar,
        [Event(NumberKey("5"), t), Event(OperatorKey(Add), t), Event(NumberKey("3"), t), Event(EqualsKey, t)]);
      r.currentInput == "8" && r.history == saved + [HistoryEntry("5 + 3", "8", t)]
  {
    var s0 := Initial(saved);
    var s1 := AppendNumber(s0, "5");
    var s2 := HandleOperation(s1, ar, Add, t);
    var s3 := AppendNumber(s2, "3");
    assert s3 == CalcState("3", "5", Some(Add), false, saved);
    var e := [Event(NumberKey("5"), t), Event(OperatorKey(Add), t), Event(NumberKey("3"), t), Event(EqualsKey, t)];
    assert Run(s0, ar, e) == Run(s1, ar, e[1..]) == Run(s2, ar, e[2..]) == Run(s3, ar, e[3..]);
    assert Run(s3, ar, e[3..]) == Calculate(s3, ar, t);
    assert Expression("5", Add, "3") == "5 + 3";
  }

  /** `1 / 0 =` is refused: the operands and the operator stay pending. */
  lemma OneDividedByZero(ar: Arithmetic, saved: seq<HistoryEntry>, t: nat)
    requires ar.isZero("0")
    ensures var r := Run(Initial(saved), ar,
        [Event(NumberKey("1"), t), Event(OperatorKey(Div), t), Event(NumberKey("0"), t), Event(EqualsKey, t)]);
      r.previousInput == "1" && r.operation == Some(Div) && r.currentInput == "0"
      && r.shouldResetDisplay && r.history == saved
  {
    var s0 := Initial(saved);
    var s1 := AppendNumber(s0, "1");
    var s2 := HandleOperation(s1, ar, Div, t);
    var s3 := AppendNumber(s2, "0");
    assert s3 == CalcState("0", "1", Some(Div), false, saved);
    var e := [Event(NumberKey("1"), t), Event(OperatorKey(Div), t), Event(NumberKey("0"), t), Event(EqualsKey, t)];
    assert Run(s0, ar, e) == Run(s1, ar, e[1..]) == Run(s2, ar, e[2..]) == Run(s3, ar, e[3..]);
    assert Run(s3, ar, e[3..]) == Calculate(s3, ar, t);
  }
}
