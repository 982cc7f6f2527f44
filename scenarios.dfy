/**
 * Whole input sequences from a freshly constructed calculator, with the arithmetic left
 * abstract: each result is stated in terms of the `Numerics` operations it goes through.
 */
module Scenarios {
  import opened Wrappers
  import opened Engine
  import opened Events

  /** A zero typed after a fresh start is replaced by the next digit, not followed by it. */
  lemma LeadingZeroIsReplaced<N>(nums: Numerics<N>)
    ensures Run(nums, Initial(nums), [Number("0"), Number("5")]).current == "5"
    ensures Run(nums, Initial(nums), [Number("0"), Number("."), Number("5")]).current == "0.5"
  {
  }

  /**
   * `2 + 3 * 4 =` evaluates as `(2 + 3) * 4`: choosing `*` resolves the pending sum
   * first, and its rounded, printed and re-parsed result becomes the left operand.
   */
  lemma ChainingIsLeftToRight<N>(nums: Numerics<N>)
    ensures
      var m := Run(nums, Initial(nums),
                   [Number("2"), Operator("+"), Number("3"), Operator("*"), Number("4"), Equals]);
      var sum := nums.show(nums.round(nums.add(nums.parse("2"), nums.parse("3"))));
      var product := nums.show(nums.round(nums.multiply(nums.parse(sum), nums.parse("4"))));
      && m.current == product
      && m.previous == "" && m.operation == None && m.reset
      && m.history == [Expression(sum, "*", "4", product), Expression("2", "+", "3", sum)]
  {
  }

  /**
   * `5 / 0 =` reports the error and changes nothing: no record is added and the pending
   * division stays. A digit typed before the deferred recovery runs is then discarded:
   * the recovery puts "0" back in the entry and changes nothing else.
   */
  lemma DivisionByZeroChangesNothing<N>(nums: Numerics<N>)
    requires nums.isZero(nums.parse("0"))
    ensures
      var m := Run(nums, Initial(nums), [Number("5"), Operator("/"), Number("0")]);
      && StepError(nums, m, Equals) == Some(DivisionByZeroMessage)
      && Step(nums, m, Equals) == m
      && m.current == "0" && m.previous == "5" && m.operation == Some("/") && !m.reset
      && m.history == []
      && var typed := Run(nums, m, [Equals, Number("7")]);
      && typed.current == "7"
      && Step(nums, typed, ErrorTimeout) == typed.(current := "0")
      && Step(nums, typed, ErrorTimeout) == m
  {
  }

  /**
   * A decimal point chosen through the operator path after an operator is appended to
   * the entry that is about to be replaced, so the next digit discards it: `5 + . 3`
   * leaves the entry "3", whereas the point through the number path gives ".3".
   */
  lemma PointAfterOperatorIsDiscarded<N>(nums: Numerics<N>)
    ensures Run(nums, Initial(nums), [Number("5"), Operator("+"), Operator("."), Number("3")]).current == "3"
    ensures Run(nums, Initial(nums), [Number("5"), Operator("+"), Number("."), Number("3")]).current == ".3"
  {
  }
}
