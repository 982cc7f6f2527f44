/**
 * The state of a `PremiumCalculator` as a value, and each button handler as a function
 * from the state before to the state after. The class in module Calculator is proved to
 * perform exactly these transitions; the lemmas in Invariants and Scenarios are about them.
 *
 * JavaScript numbers stay abstract: a `Numerics<N>` supplies `parseFloat`, `String`,
 * the five operators, `roundResult`, the test `=== 0` and the constant 0 over some type N.
 */
module Engine {
  import opened Wrappers
  import opened Text

  datatype Numerics<!N> = Numerics(
    parse: string -> N,         // parseFloat
    show: N -> string,          // String(n), also `${n}` in a template
    add: (N, N) -> N,           // a + b
    subtract: (N, N) -> N,      // a - b
    multiply: (N, N) -> N,      // a * b
    divide: (N, N) -> N,        // a / b
    remainder: (N, N) -> N,     // a % b (the sign follows the dividend)
    round: N -> N,              // roundResult: to 8 decimal places
    isZero: N -> bool,          // n === 0
    zero: N)                    // the literal 0

  /** The fields of a `PremiumCalculator` that its handlers read and write. */
  datatype Machine<N> = Machine(
    current: string,            // currentValue: the entry being typed
    previous: string,           // previousValue: the snapshot of the left operand
    operation: Option<string>,  // operation: null or the pending operator symbol
    reset: bool,                // shouldResetDisplay: the next digit starts a new entry
    memory: N,                  // memory: the memory register
    history: seq<string>,       // history: recorded expressions, most recent first
    darkTheme: bool)            // isDarkTheme

  const HistoryCapacity: nat := 50
  const DivisionByZeroMessage := "Division by zero"

  /** The state the constructor leaves, before anything is loaded from storage. */
  function Initial<N>(nums: Numerics<N>): Machine<N>
  {
    Machine("0", "", None, false, nums.zero, [], true)
  }

  /** What the `switch` in `calculate` makes of an operator and two operands. */
  datatype Applied<N> = Value(n: N) | DivisionByZero | UnknownOperator

  predicate IsOperatorSymbol(op: string)
  {
    op == "+" || op == "-" || op == "*" || op == "/" || op == "%"
  }

  function Apply<N>(nums: Numerics<N>, op: string, a: N, b: N): (r: Applied<N>)
    ensures r.DivisionByZero? <==> op == "/" && nums.isZero(b)
    ensures r.UnknownOperator? <==> !IsOperatorSymbol(op)
  {
    if op == "+" then Value(nums.add(a, b))
    else if op == "-" then Value(nums.subtract(a, b))
    else if op == "*" then Value(nums.multiply(a, b))
    else if op == "/" then (if nums.isZero(b) then DivisionByZero else Value(nums.divide(a, b)))
    else if op == "%" then Value(nums.remainder(a, b))
    else UnknownOperator
  }

  /** The history record `${previousValue} ${operation} ${currentValue} = ${result}`. */
  function Expression(previous: string, op: string, current: string, result: string): string
  {
    previous + " " + op + " " + current + " = " + result
  }

  /** `history.unshift(expression)`, then one `pop()` when the list exceeds the capacity. */
  function AddToHistory(history: seq<string>, expression: string): (r: seq<string>)
    ensures |r| == if |history| < HistoryCapacity then |history| + 1 else |history|
    ensures r[0] == expression
    ensures forall i :: 0 < i < |r| ==> r[i] == history[i - 1]
  {
    var grown := [expression] + history;
    if |grown| > HistoryCapacity then grown[..|grown| - 1] else grown
  }

  function AppendNumber<N>(m: Machine<N>, num: string): Machine<N>
  {
    if m.reset then m.(current := num, reset := false)
    else if m.current == "0" && num != "." then m.(current := num)
    else if num == "." && '.' in m.current then m
    else m.(current := m.current + num)
  }

  function Calculate<N>(nums: Numerics<N>, m: Machine<N>): Machine<N>
  {
    if m.operation.None? || m.reset then m
    else
      var op := m.operation.value;
      match Apply(nums, op, nums.parse(m.previous), nums.parse(m.current))
      case Value(v) =>
        var result := nums.show(nums.round(v));
        m.(history := AddToHistory(m.history, Expression(m.previous, op, m.current, result)),
           current := result, previous := "", operation := None, reset := true)
      case _ => m
  }

  /** The message `calculate` passes to `showError`, if it throws. */
  function CalculationError<N>(nums: Numerics<N>, m: Machine<N>): Option<string>
  {
    if m.operation.None? || m.reset then None
    else if Apply(nums, m.operation.value, nums.parse(m.previous), nums.parse(m.current)).DivisionByZero?
    then Some(DivisionByZeroMessage)
    else None
  }

  /** True when `handleOperator(op)` first resolves the pending calculation. */
  predicate Chains<N>(m: Machine<N>, op: string)
  {
    op != "." && m.operation.Some? && !m.reset
  }

  function HandleOperator<N>(nums: Numerics<N>, m: Machine<N>, op: string): Machine<N>
  {
    if op == "." then
      if '.' in m.current then m else m.(current := m.current + op)
    else
      var settled := if Chains(m, op) then Calculate(nums, m) else m;
      settled.(previous := settled.current, operation := Some(op), reset := true)
  }

  /** The message shown while `handleOperator(op)` resolves the pending calculation, if any. */
  function OperatorError<N>(nums: Numerics<N>, m: Machine<N>, op: string): Option<string>
  {
    if Chains(m, op) then CalculationError(nums, m) else None
  }

  function Clear<N>(m: Machine<N>): Machine<N>
  {
    m.(current := "0")
  }

  function ClearAll<N>(m: Machine<N>): Machine<N>
  {
    m.(current := "0", previous := "", operation := None, reset := false)
  }

  function Delete<N>(m: Machine<N>): Machine<N>
  {
    if |m.current| > 1 then m.(current := m.current[..|m.current| - 1]) else m.(current := "0")
  }

  function MemoryClear<N>(nums: Numerics<N>, m: Machine<N>): Machine<N>
  {
    m.(memory := nums.zero)
  }

  function MemoryRecall<N>(nums: Numerics<N>, m: Machine<N>): Machine<N>
  {
    m.(current := nums.show(m.memory), reset := true)
  }

  function MemoryAdd<N>(nums: Numerics<N>, m: Machine<N>): Machine<N>
  {
    m.(memory := nums.add(m.memory, nums.parse(m.current)), reset := true)
  }

  function MemorySubtract<N>(nums: Numerics<N>, m: Machine<N>): Machine<N>
  {
    m.(memory := nums.subtract(m.memory, nums.parse(m.current)), reset := true)
  }

  function ClearHistory<N>(m: Machine<N>): Machine<N>
  {
    m.(history := [])
  }

  function ToggleTheme<N>(m: Machine<N>): Machine<N>
  {
    m.(darkTheme := !m.darkTheme)
  }

  /**
   * The `textContent` of the rendered history item for `expression`: the template puts
   * the record on a line of its own, indented by 20 spaces, and closes the element on the
   * next line, indented by 16.
   */
  function ItemText(expression: string): string
  {
    ItemIndent + expression + ItemOutdent
  }

  const ItemIndent: string := "\n                    "
  const ItemOutdent: string := "\n                "

  /** `item.textContent.split('=')[1].trim()`, or `undefined` when there is no `=`. */
  function SelectedResult(expression: string): Option<string>
  {
    match SplitSecond(ItemText(expression), '=')
    case None => None
    case Some(field) => Some(Trim(field))
  }

  /** The click handler of the history item at `index`. */
  function SelectHistoryEntry<N>(m: Machine<N>, index: nat): Machine<N>
    requires index < |m.history|
  {
    match SelectedResult(m.history[index])
    // `.trim()` of `undefined` throws before any field is written
    case None => m
    case Some(v) => m.(current := v, reset := true)
  }

  /** The deferred callback `showError` schedules: the entry goes back to "0". */
  function RecoverFromError<N>(m: Machine<N>): Machine<N>
  {
    m.(current := "0")
  }
}
