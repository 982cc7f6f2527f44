/**
 * The inputs the calculator reacts to, one per button or key, and the dispatch from a
 * keyboard key to an input (`handleKeyboard`).
 */
module Events {
  import opened Wrappers
  import opened Text
  import Engine

  datatype Event =
    | Number(num: string)        // a number button, or a digit or "." key
    | Operator(op: string)       // an operator button, or + - * / %
    | Equals
    | Clear
    | ClearAll
    | Delete
    | MemoryClear
    | MemoryRecall
    | MemoryAdd
    | MemorySubtract
    | ClearHistory
    | SelectHistory(index: nat)  // a click on the rendered history item at `index`
    | ToggleTheme
    | ErrorTimeout               // the deferred callback of `showError` runs

  /** The handler each input reaches. */
  function Step<N>(nums: Engine.Numerics<N>, m: Engine.Machine<N>, e: Event): Engine.Machine<N>
  {
    match e
    case Number(num) => Engine.AppendNumber(m, num)
    case Operator(op) => Engine.HandleOperator(nums, m, op)
    case Equals => Engine.Calculate(nums, m)
    case Clear => Engine.Clear(m)
    case ClearAll => Engine.ClearAll(m)
    case Delete => Engine.Delete(m)
    case MemoryClear => Engine.MemoryClear(nums, m)
    case MemoryRecall => Engine.MemoryRecall(nums, m)
    case MemoryAdd => Engine.MemoryAdd(nums, m)
    case MemorySubtract => Engine.MemorySubtract(nums, m)
    case ClearHistory => Engine.ClearHistory(m)
    // only rendered items can be clicked, and there is one per history record
    case SelectHistory(i) => if i < |m.history| then Engine.SelectHistoryEntry(m, i) else m
    case ToggleTheme => Engine.ToggleTheme(m)
    case ErrorTimeout => Engine.RecoverFromError(m)
  }

  /** The error message an input makes `showError` display, if any. */
  function StepError<N>(nums: Engine.Numerics<N>, m: Engine.Machine<N>, e: Event): Option<string>
  {
    match e
    case Operator(op) => Engine.OperatorError(nums, m, op)
    case Equals => Engine.CalculationError(nums, m)
    case _ => None
  }

  /** The inputs applied in order, each to the state the previous one left. */
  function Run<N>(nums: Engine.Numerics<N>, m: Engine.Machine<N>, es: seq<Event>): Engine.Machine<N>
    decreases |es|
  {
    if es == [] then m else Run(nums, Step(nums, m, es[0]), es[1..])
  }

  /** `handleKeyboard`: the input a key stands for, or none for keys it ignores. */
  function KeyEvent(key: string): (e: Option<Event>)
    ensures |key| == 1 && '0' <= key[0] <= '9' ==> e == Some(Number(key))
    ensures e.Some? && e.value.Operator? ==> Engine.IsOperatorSymbol(e.value.op)
  {
    DigitKeyRange(key);
    if LessOrEqual("0", key) && LessOrEqual(key, "9") then Some(Number(key))
    else if key == "." then Some(Number("."))
    else if key == "+" || key == "-" || key == "*" || key == "/" then Some(Operator(key))
    else if key == "%" then Some(Operator("%"))
    else if key == "Enter" || key == "=" then Some(Equals)
    else if key == "Backspace" then Some(Delete)
    else if key == "Escape" then Some(ClearAll)
    else if key == "c" || key == "C" then Some(Clear)
    else None
  }

  function AfterKey<N>(nums: Engine.Numerics<N>, m: Engine.Machine<N>, key: string): Engine.Machine<N>
  {
    match KeyEvent(key)
    case None => m
    case Some(e) => Step(nums, m, e)
  }

  function KeyError<N>(nums: Engine.Numerics<N>, m: Engine.Machine<N>, key: string): Option<string>
  {
    match KeyEvent(key)
    case None => None
    case Some(e) => StepError(nums, m, e)
  }
}
