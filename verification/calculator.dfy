/** The `Calculator` class of src/ts/calc.ts: the state fields updated in
    place by its command methods. Each method is specified by the
    matching function of `CalcEngine` (`HandleKeyboardInput` by
    `CalcKeys.HandleKey`), whose properties are proved there. */
module Calc {
  import opened CalcEngine
  import opened CalcKeys

  class Calculator {
    var currentInput: string
    var previousInput: string
    var operation: Option<Op>
    var shouldResetDisplay: bool
    var history: seq<HistoryEntry>

    /** Floating-point arithmetic and number formatting, left abstract. */
    const arith: Arithmetic

    /** The fields as a value. */
    function State(): CalcState
      reads this
    {
      CalcState(currentInput, previousInput, operation, shouldResetDisplay, history)
    }

    /** The object invariant: the input has display shape, given number
        formatting that produces display-shaped strings. */
    ghost predicate Valid()
      reads this
    {
      Invariant(State()) && Formats(arith)
    }

    /** The field initialisers; `saved` is what `loadHistory` read back. */
    constructor (arith: Arithmetic, saved: seq<HistoryEntry>)
      requires Formats(arith)
      ensures State() == Initial(saved) && this.arith == arith && Valid()
    {
      this.arith := arith;
      currentInput := "0";
      previousInput := "";
      operation := None;
      shouldResetDisplay := false;
      history := saved;
    }

    method AppendNumber(number: string)
      modifies this
      ensures State() == CalcEngine.AppendNumber(old(State()), number)
      ensures old(Valid()) && IsNumberKey(number) ==> Valid()
    {
      ghost var s := State();
      if shouldResetDisplay {
        currentInput := "";
        shouldResetDisplay := false;
      }
      if number == "." && '.' in currentInput {
        return;
      }
      if currentInput == "0" && number != "." {
        currentInput := number;
      } else {
        currentInput := currentInput + number;
      }
      if Invariant(s) && IsNumberKey(number) {
        AppendNumberKeepsInvariant(s, number);
      }
    }

    method HandleOperation(op: Op, now: nat)
      modifies this
      ensures State() == CalcEngine.HandleOperation(old(State()), arith, op, now)
      ensures old(Valid()) ==> Valid()
    {
      ghost var s := State();
      if currentInput == "" {
        return;
      }
      if previousInput != "" {
        var threw := Calculate(now);
        if threw {
          return;
        }
      }
      operation := Some(op);
      previousInput := currentInput;
      shouldResetDisplay := true;
      if Invariant(s) && Formats(arith) {
        HandleOperationKeepsInvariant(s, arith, op, now);
      }
    }

    /** `threw` reports the exception `formatNumber` raises, which ends
        `calculate` and any `handleOperation` that called it. */
    method Calculate(now: nat) returns (threw: bool)
      modifies this
      ensures State() == CalcEngine.Calculate(old(State()), arith, now)
      ensures threw == FormatThrows(old(State()), arith)
      ensures old(Valid()) ==> Valid()
    {
      ghost var s := State();
      threw := false;
      if previousInput == "" || operation.None? {
        return;
      }
      var op := operation.value;
      if op == Div && arith.isZero(currentInput) {
        ShowError();
        return;
      }
      var symbol := OperationSymbol(op);
      var expression := previousInput + " " + symbol + " " + currentInput;
      var formatted := arith.compute(op, previousInput, currentInput);
      if formatted.None? {
        threw := true;
        return;
      }
      var formattedResult := formatted.value;
      AddToHistory(HistoryEntry(expression, formattedResult, now));
      currentInput := formattedResult;
      operation := None;
      previousInput := "";
      shouldResetDisplay := true;
      if Invariant(s) && Formats(arith) {
        CalculateKeepsInvariant(s, arith, now);
      }
    }

    method AddToHistory(entry: HistoryEntry)
      modifies this
      ensures State() == CalcEngine.AddToHistory(old(State()), entry)
      ensures history == old(history) + [entry]
    {
      history := history + [entry];
    }

    method ClearHistory()
      modifies this
      ensures State() == CalcEngine.ClearHistory(old(State()))
      ensures old(Valid()) ==> Valid()
    {
      history := [];
    }

    method Clear()
      modifies this
      ensures State() == CalcEngine.Clear(old(State()))
      ensures Formats(arith) ==> Valid()
    {
      currentInput := "0";
      previousInput := "";
      operation := None;
      shouldResetDisplay := false;
    }

    method Backspace()
      modifies this
      ensures State() == CalcEngine.Backspace(old(State()))
      ensures old(Valid()) ==> Valid()
    {
      ghost var s := State();
      if |currentInput| == 1 {
        currentInput := "0";
      } else if currentInput != "" {
        currentInput := currentInput[..|currentInput| - 1];
      }
      if Invariant(s) {
        BackspaceKeepsInvariant(s);
      }
    }

    /** The error message itself only goes to the display. */
    method ShowError()
      modifies this
      ensures State() == CalcEngine.ShowError(old(State()))
      ensures old(Valid()) ==> Valid()
    {
      shouldResetDisplay := true;
    }

    /** `handleKeyboardInput`, without the button animation. */
    method HandleKeyboardInput(key: string, now: nat)
      modifies this
      ensures State() == HandleKey(old(State()), arith, key, now)
      ensures old(Valid()) ==> Valid()
    {
      if IsDigitKey(key) || key == "." {
        AppendNumber(key);
      } else if key in ["+", "-", "*", "/"] {
        if IsValidOperation(key) {
          HandleOperation(ParseOperation(key).value, now);
        }
      } else if key == "%" {
        HandleOperation(Mod, now);
      } else if key == "Enter" || key == "=" {
        var _ := Calculate(now);
      } else if key == "Escape" {
        Clear();
      } else if key == "Backspace" {
        Backspace();
      }
    }
  }

  /** A client: `5 + 3 =` on a fresh calculator shows the sum and logs it. */
  method TypeFivePlusThree(ar: Arithmetic, t: nat) returns (shown: string, log: seq<HistoryEntry>)
    requires Formats(ar) && ar.compute(Add, "5", "3") == Some("8")
    ensures shown == "8" && log == [HistoryEntry("5 + 3", "8", t)]
  {
    var c := new Calculator(ar, []);
    c.HandleKeyboardInput("5", t);
    assert c.State() == CalcState("5", "", None, false, []);
    c.HandleKeyboardInput("+", t);
    assert c.State() == CalcState("5", "5", Some(Add), true, []);
    c.HandleKeyboardInput("3", t);
    assert c.State() == CalcState("3", "5", Some(Add), false, []);
    EnterIsEquals();
    c.HandleKeyboardInput("Enter", t);
    assert Expression("5", Add, "3") == "5 + 3";
    shown, log := c.currentInput, c.history;
  }
}
