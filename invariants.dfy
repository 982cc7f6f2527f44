/**
 * What every handler keeps true of the calculator's state, and the properties of the
 * history list and of its click handler.
 */
module Invariants {
  import opened Wrappers
  import opened Text
  import opened Engine
  import Events

  /** A string the entry may hold: not empty, at most one decimal point, no `=`. */
  predicate IsEntry(s: string)
  {
    s != [] && AtMostOneDot(s) && '=' !in s
  }

  /** What `String(n)` gives for a JavaScript number: an entry with no white space at either end. */
  predicate Printable(s: string)
  {
    IsEntry(s) && !IsWhitespace(s[0]) && !IsWhitespace(s[|s| - 1])
  }

  ghost predicate ValidNumerics<N(!new)>(nums: Numerics<N>)
  {
    forall n :: Printable(nums.show(n))
  }

  /** What a number button or a digit key passes to `appendNumber`. */
  predicate NumberKey(num: string)
  {
    |num| == 1 && ('0' <= num[0] <= '9' || num[0] == '.')
  }

  /**
   * A history record as `calculate` writes it: two operands and an operator free of `=`,
   * and a printed result.
   */
  ghost predicate IsRecord(expression: string)
  {
    exists previous, op, current, result ::
      && expression == Expression(previous, op, current, result)
      && '=' !in previous && '=' !in op && '=' !in current
      && Printable(result)
  }

  ghost predicate Valid<N>(m: Machine<N>)
  {
    && IsEntry(m.current)
    && '=' !in m.previous
    && (m.operation.Some? ==> '=' !in m.operation.value)
    && (m.operation.None? ==> m.previous == "")
    && |m.history| <= HistoryCapacity
    && forall i :: 0 <= i < |m.history| ==> IsRecord(m.history[i])
  }

  predicate ValidEvent(e: Events.Event)
  {
    && (e.Number? ==> NumberKey(e.num))
    && (e.Operator? ==> '=' !in e.op)
  }

  lemma InitialIsValid<N>(nums: Numerics<N>)
    ensures Valid(Initial(nums))
  {
  }

  /** The template's padding around a record: white space, and no `=`. */
  lemma ItemPadding()
    ensures AllWhitespace(ItemIndent) && '=' !in ItemIndent
    ensures AllWhitespace(ItemOutdent) && '=' !in ItemOutdent
  {
  }

  /** Clicking the record of a calculation puts its result back on the display. */
  lemma SelectedResultOfExpression(previous: string, op: string, current: string, result: string)
    requires '=' !in previous && '=' !in op && '=' !in current
    requires Printable(result)
    ensures SelectedResult(Expression(previous, op, current, result)) == Some(result)
  {
    ItemPadding();
    var before := ItemIndent + previous + " " + op + " " + current + " ";
    var after := " " + result + ItemOutdent;
    assert ItemText(Expression(previous, op, current, result)) == before + ['='] + after;
    SplitSecondAt(before, '=', after);
    assert AllWhitespace(" ");
    TrimPadded(" ", result, ItemOutdent);
  }

  lemma SingleKeyIsEntry(num: string)
    requires NumberKey(num)
    ensures IsEntry(num)
    ensures num != "." ==> '.' !in num && DotCount(num) == 0
  {
    assert num == [num[0]];
    assert DotCount(num) == (if num[0] == '.' then 1 else 0) + DotCount(num[1..]);
  }

  lemma AppendNumberKeepsValid<N>(m: Machine<N>, num: string)
    requires Valid(m) && NumberKey(num)
    ensures Valid(AppendNumber(m, num))
  {
    SingleKeyIsEntry(num);
    DotCountConcat(m.current, num);
    if num == "." {
      DotCountZero(m.current);
    }
  }

  /** Clicking any record puts a valid entry on the display. */
  lemma SelectedRecordIsEntry(expression: string)
    requires IsRecord(expression)
    ensures SelectedResult(expression).Some? && IsEntry(SelectedResult(expression).value)
  {
    var previous, op, current, result :|
      && expression == Expression(previous, op, current, result)
      && '=' !in previous && '=' !in op && '=' !in current
      && Printable(result);
    SelectedResultOfExpression(previous, op, current, result);
  }

  lemma AddToHistoryKeepsRecords(history: seq<string>, expression: string)
    requires forall i :: 0 <= i < |history| ==> IsRecord(history[i])
    requires IsRecord(expression)
    ensures forall i :: 0 <= i < |AddToHistory(history, expression)| ==> IsRecord(AddToHistory(history, expression)[i])
  {
  }

  lemma CalculateKeepsValid<N(!new)>(nums: Numerics<N>, m: Machine<N>)
    requires ValidNumerics(nums) && Valid(m)
    ensures Valid(Calculate(nums, m))
  {
  }

  lemma HandleOperatorKeepsValid<N(!new)>(nums: Numerics<N>, m: Machine<N>, op: string)
    requires ValidNumerics(nums) && Valid(m) && '=' !in op
    ensures Valid(HandleOperator(nums, m, op))
  {
    if op == "." {
      DotCountZero(m.current);
      DotCountConcat(m.current, op);
    } else if Chains(m, op) {
      CalculateKeepsValid(nums, m);
    }
  }

  lemma DeleteKeepsValid<N>(m: Machine<N>)
    requires Valid(m)
    ensures Valid(Delete(m))
  {
    if |m.current| > 1 {
      DotCountDropLast(m.current);
    } else {
      assert DotCount("0") == 0;
    }
  }

  lemma SelectHistoryEntryKeepsValid<N>(m: Machine<N>, index: nat)
    requires Valid(m) && index < |m.history|
    ensures Valid(SelectHistoryEntry(m, index))
  {
    SelectedRecordIsEntry(m.history[index]);
  }

  lemma StepKeepsValid<N(!new)>(nums: Numerics<N>, m: Machine<N>, e: Events.Event)
    requires ValidNumerics(nums) && Valid(m) && ValidEvent(e)
    ensures Valid(Events.Step(nums, m, e))
  {
    assert DotCount("0") == 0;
    match e
    case Number(num) => AppendNumberKeepsValid(m, num);
    case Operator(op) => HandleOperatorKeepsValid(nums, m, op);
    case Equals => CalculateKeepsValid(nums, m);
    case Delete => DeleteKeepsValid(m);
    case MemoryRecall => assert Printable(nums.show(m.memory));
    case SelectHistory(i) =>
      if i < |m.history| {
        SelectHistoryEntryKeepsValid(m, i);
      }
    case _ =>
  }

  /** From a valid state, any run of valid inputs keeps every part of the invariant. */
  lemma {:induction false} RunKeepsValid<N(!new)>(nums: Numerics<N>, m: Machine<N>, es: seq<Events.Event>)
    requires ValidNumerics(nums) && Valid(m)
    requires forall i :: 0 <= i < |es| ==> ValidEvent(es[i])
    ensures Valid(Events.Run(nums, m, es))
    decreases |es|
  {
    if es != [] {
      StepKeepsValid(nums, m, es[0]);
      RunKeepsValid(nums, Events.Step(nums, m, es[0]), es[1..]);
    }
  }

  /** A key the keyboard can deliver (one character, or a named key) gives a valid input. */
  lemma KeyEventIsValid(key: string)
    requires |key| == 1 || key == [] || !('0' <= key[0] <= '9')
    ensures Events.KeyEvent(key).Some? ==> ValidEvent(Events.KeyEvent(key).value)
  {
  }

  /** `calculate` reports an error exactly for a pending division by a right operand of zero. */
  lemma CalculationFailsOnlyOnZeroDivisor<N>(nums: Numerics<N>, m: Machine<N>)
    ensures CalculationError(nums, m).Some?
            <==> m.operation == Some("/") && !m.reset && nums.isZero(nums.parse(m.current))
    ensures CalculationError(nums, m).Some? ==> Calculate(nums, m) == m
  {
  }

  /** A second `=` after a completed calculation changes nothing. */
  lemma EqualsTwiceIsEqualsOnce<N>(nums: Numerics<N>, m: Machine<N>)
    ensures Calculate(nums, Calculate(nums, m)) == Calculate(nums, m)
  {
  }

  /** The records of `es`, entered in order, starting from `history`. */
  function RecordAll(history: seq<string>, es: seq<string>): seq<string>
    decreases |es|
  {
    if es == [] then history else RecordAll(AddToHistory(history, es[0]), es[1..])
  }

  function Min(a: int, b: int): int
  {
    if a < b then a else b
  }

  /**
   * One `=` records at most one calculation: a successful one enters exactly its record
   * `a op b = result` into the history, and any other leaves the history as it was.
   */
  lemma CalculateRecordsOne<N>(nums: Numerics<N>, m: Machine<N>)
    ensures
      var succeeds := m.operation.Some? && !m.reset
        && Apply(nums, m.operation.value, nums.parse(m.previous), nums.parse(m.current)).Value?;
      && (succeeds ==>
            var result := nums.show(nums.round(
              Apply(nums, m.operation.value, nums.parse(m.previous), nums.parse(m.current)).n));
            Calculate(nums, m).history
              == RecordAll(m.history, [Expression(m.previous, m.operation.value, m.current, result)]))
      && (!succeeds ==> Calculate(nums, m).history == RecordAll(m.history, []))
  {
  }

  /** Recording several calculations never lets the list grow past 50 records. */
  lemma {:induction false} RecordAllLength(history: seq<string>, es: seq<string>)
    requires |history| <= HistoryCapacity
    ensures |RecordAll(history, es)| == Min(|history| + |es|, HistoryCapacity)
    decreases |es|
  {
    if es != [] {
      RecordAllLength(AddToHistory(history, es[0]), es[1..]);
    }
  }

  /**
   * The record at position `i` after recording `es`: one of `es` in reverse order of entry
   * while `i < |es|`, else the record `|es|` places further down the earlier list.
   */
  lemma {:induction false} RecordAllAt(history: seq<string>, es: seq<string>, i: nat)
    requires |history| <= HistoryCapacity
    requires i < |RecordAll(history, es)|
    ensures i < |es| ==> RecordAll(history, es)[i] == es[|es| - 1 - i]
    ensures |es| <= i ==> i - |es| < |history| && RecordAll(history, es)[i] == history[i - |es|]
    decreases |es|
  {
    if es != [] {
      var next := AddToHistory(history, es[0]);
      RecordAllAt(next, es[1..], i);
      if i + 1 < |es| {
        assert es[1..][|es| - 2 - i] == es[|es| - 1 - i];
      }
    }
  }

  /**
   * Recording several calculations keeps at most 50 records: the newest first, in reverse
   * order of entry, then what is left of the earlier list, its oldest records evicted.
   */
  lemma RecordAllKeepsNewest(history: seq<string>, es: seq<string>)
    requires |history| <= HistoryCapacity
    ensures |RecordAll(history, es)| == Min(|history| + |es|, HistoryCapacity)
    ensures forall i :: 0 <= i < |RecordAll(history, es)| && i < |es| ==>
              RecordAll(history, es)[i] == es[|es| - 1 - i]
    ensures forall i :: |es| <= i < |RecordAll(history, es)| ==>
              RecordAll(history, es)[i] == history[i - |es|]
  {
    RecordAllLength(history, es);
    forall i | 0 <= i < |RecordAll(history, es)| {
      RecordAllAt(history, es, i);
    }
  }

  /** Recording 51 calculations into an empty history leaves 50: all but the first, newest first. */
  lemma FiftyOneRecordsKeepFifty(es: seq<string>)
    requires |es| == 51
    ensures |RecordAll([], es)| == 50
    ensures forall i :: 0 <= i < 50 ==> RecordAll([], es)[i] == es[50 - i]
  {
    RecordAllKeepsNewest([], es);
  }
}
