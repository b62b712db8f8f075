/** The key-to-command mapping of `handleKeyboardInput`. */
module CalcKeys {
  import opened CalcEngine

  /** The keys the handler reacts to besides the number and operator keys. */
  predicate IsControlKey(key: string) {
    key == "Enter" || key == "=" || key == "Escape" || key == "Backspace"
  }

  /** The command a key press issues, or `None` for a key the handler
      ignores. The first branch takes a single ASCII digit (`/^\d$/`) or `.`. */
  function KeyCommand(key: string): (r: Option<Command>)
    ensures r.None? <==> !IsNumberKey(key) && !IsValidOperation(key) && !IsControlKey(key)
    ensures r.Some? ==> WellFormed(r.value) && !r.value.ClearHistoryKey?
    ensures r.Some? && r.value.NumberKey? ==> r.value.number == key
    ensures r.Some? && r.value.OperatorKey? ==> OpText(r.value.op) == key
  {
    if IsDigitKey(key) || key == "." then Some(NumberKey(key))
    else if key in ["+", "-", "*", "/"] then
      if IsValidOperation(key) then Some(OperatorKey(ParseOperation(key).value)) else None
    else if key == "%" then Some(OperatorKey(Mod))
    else if key == "Enter" || key == "=" then Some(EqualsKey)
    else if key == "Escape" then Some(ClearKey)
    else if key == "Backspace" then Some(BackspaceKey)
    else None
  }

  /** A key that issues the command (the history can only be cleared with
      its button). */
  function CanonicalKey(cmd: Command): string
    requires !cmd.ClearHistoryKey?
  {
    match cmd
    case NumberKey(n) => n
    case OperatorKey(op) => OpText(op)
    case EqualsKey => "="
    case ClearKey => "Escape"
    case BackspaceKey => "Backspace"
  }

  /** Every well-formed command but clearing the history has a key. */
  lemma KeyboardReachesCommand(cmd: Command)
    requires WellFormed(cmd) && !cmd.ClearHistoryKey?
    ensures KeyCommand(CanonicalKey(cmd)) == Some(cmd)
  {
    if cmd.OperatorKey? {
      var k := OpText(cmd.op);
      assert ParseOperation(k) == Some(cmd.op);
      assert !IsDigitKey(k) && k != ".";
    }
  }

  /** `Enter` and `=` both calculate. */
  lemma EnterIsEquals()
    ensures KeyCommand("Enter") == KeyCommand("=") == Some(EqualsKey)
  {
    assert !IsDigitKey("Enter") && !IsDigitKey("=");
  }

  /** A key press and the instant it is handled. */
  datatype KeyPress = KeyPress(key: string, time: nat)

  /** `handleKeyboardInput` on one key: ignored keys change nothing. */
  function HandleKey(s: CalcState, ar: Arithmetic, key: string, now: nat): (r: CalcState)
    ensures KeyCommand(key).None? ==> r == s
    ensures s.history <= r.history && |r.history| <= |s.history| + 1
  {
    match KeyCommand(key)
    case None => s
    case Some(cmd) => Step(s, ar, cmd, now)
  }

  /** A session typed on the keyboard. */
  function RunKeys(s: CalcState, ar: Arithmetic, keys: seq<KeyPress>): CalcState
    decreases |keys|
  {
    if keys == [] then s
    else RunKeys(HandleKey(s, ar, keys[0].key, keys[0].time), ar, keys[1..])
  }

  /** Whatever is typed, the input stays a non-empty numeral with at most
      one decimal point and no redundant leading zero, and the history
      only grows at its end. */
  lemma {:induction false} RunKeysKeepsInvariant(s: CalcState, ar: Arithmetic, keys: seq<KeyPress>)
    requires Invariant(s) && Formats(ar)
    ensures Invariant(RunKeys(s, ar, keys))
    ensures s.history <= RunKeys(s, ar, keys).history
    decreases |keys|
  {
    if keys != [] {
      var k := keys[0];
      match KeyCommand(k.key) {
        case None =>
        case Some(cmd) =>
          StepKeepsInvariant(s, ar, cmd, k.time);
      }
      RunKeysKeepsInvariant(HandleKey(s, ar, k.key, k.time), ar, keys[1..]);
    }
  }
}
