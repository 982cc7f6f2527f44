/**
 * The `PremiumCalculator` object: its fields and its handlers, each proved to perform the
 * transition of the same name in Engine and to keep the invariant of Invariants.
 * The display, the history list and the memory indicator it writes to are not modelled;
 * `showError` is modelled by the error message the handlers return.
 */
module Calculator {
  import opened Wrappers
  import opened Text
  import Engine
  import Events
  import Invariants

  class PremiumCalculator<N(!new)> {
    const nums: Engine.Numerics<N>
    var currentValue: string
    var previousValue: string
    var operation: Option<string>
    var shouldResetDisplay: bool
    var memory: N
    var history: seq<string>
    var isDarkTheme: bool

    /** The fields as a value. */
    function Snapshot(): Engine.Machine<N>
      reads this
    {
      Engine.Machine(currentValue, previousValue, operation, shouldResetDisplay,
                     memory, history, isDarkTheme)
    }

    ghost predicate Valid()
      reads this
    {
      Invariants.ValidNumerics(nums) && Invariants.Valid(Snapshot())
    }

    constructor(nums: Engine.Numerics<N>)
      ensures this.nums == nums
      ensures Snapshot() == Engine.Initial(nums)
      ensures Invariants.ValidNumerics(nums) ==> Valid()
    {
      this.nums := nums;
      currentValue := "0";
      previousValue := "";
      operation := None;
      shouldResetDisplay := false;
      memory := nums.zero;
      history := [];
      isDarkTheme := true;
      new;
      Invariants.InitialIsValid(nums);
    }

    method AppendNumber(num: string)
      modifies this
      ensures Snapshot() == Engine.AppendNumber(old(Snapshot()), num)
      ensures old(shouldResetDisplay) ==> currentValue == num && !shouldResetDisplay
      ensures !old(shouldResetDisplay) && old(currentValue) == "0" && num != "." ==> currentValue == num
      ensures !old(shouldResetDisplay) && num == "." && '.' in old(currentValue) ==> unchanged(this)
      ensures !old(shouldResetDisplay) && !(old(currentValue) == "0" && num != ".")
              && !(num == "." && '.' in old(currentValue))
              ==> currentValue == old(currentValue) + num
      ensures previousValue == old(previousValue) && operation == old(operation)
      ensures !shouldResetDisplay
      ensures old(Valid()) && Invariants.NumberKey(num) ==> Valid()
    {
      if old(Valid()) && Invariants.NumberKey(num) {
        Invariants.AppendNumberKeepsValid(Snapshot(), num);
      }
      if shouldResetDisplay {
        currentValue := num;
        shouldResetDisplay := false;
      } else {
        if currentValue == "0" && num != "." {
          currentValue := num;
        } else if num == "." && '.' in currentValue {
          return;
        } else {
          currentValue := currentValue + num;
        }
      }
    }

    /** `handleOperator`; `error` is the message `showError` displays, if any. */
    method HandleOperator(op: string) returns (error: Option<string>)
      modifies this
      ensures Snapshot() == Engine.HandleOperator(nums, old(Snapshot()), op)
      ensures error == Engine.OperatorError(nums, old(Snapshot()), op)
      ensures op == "." ==> operation == old(operation) && shouldResetDisplay == old(shouldResetDisplay)
                            && previousValue == old(previousValue) && history == old(history)
      ensures op == "." ==> currentValue == if '.' in old(currentValue) then old(currentValue)
                                            else old(currentValue) + "."
      ensures op != "." ==> previousValue == currentValue && operation == Some(op) && shouldResetDisplay
      ensures op != "." && !Engine.Chains(old(Snapshot()), op) ==> currentValue == old(currentValue)
      ensures old(Valid()) && '=' !in op ==> Valid()
    {
      if old(Valid()) && '=' !in op {
        Invariants.HandleOperatorKeepsValid(nums, Snapshot(), op);
      }
      error := None;
      if op == "." {
        if '.' in currentValue {
          return;
        }
        currentValue := currentValue + op;
        return;
      }

      if operation.Some? && !shouldResetDisplay {
        error := Calculate();
      }

      previousValue := currentValue;
      operation := Some(op);
      shouldResetDisplay := true;
    }

    /**
     * The `switch` of `calculate`: the operator applied to the two parsed operands, with the
     * `throw` for a zero divisor and the fall-through for an unknown operator.
     */
    method Compute(op: string, prev: N, current: N) returns (r: Engine.Applied<N>)
      ensures r == Engine.Apply(nums, op, prev, current)
    {
      if op == "+" {
        r := Engine.Value(nums.add(prev, current));
      } else if op == "-" {
        r := Engine.Value(nums.subtract(prev, current));
      } else if op == "*" {
        r := Engine.Value(nums.multiply(prev, current));
      } else if op == "/" {
        if nums.isZero(current) {
          return Engine.DivisionByZero;
        }
        r := Engine.Value(nums.divide(prev, current));
      } else if op == "%" {
        r := Engine.Value(nums.remainder(prev, current));
      } else {
        r := Engine.UnknownOperator;
      }
    }

    /** `calculate`; `error` is the message `showError` displays, if any. */
    method Calculate() returns (error: Option<string>)
      modifies this
      ensures Snapshot() == Engine.Calculate(nums, old(Snapshot()))
      ensures error == Engine.CalculationError(nums, old(Snapshot()))
      ensures old(operation).None? || old(shouldResetDisplay) ==> unchanged(this) && error == None
      ensures error.Some? ==> unchanged(this)
      ensures old(Valid()) ==> Valid()
    {
      if old(Valid()) {
        Invariants.CalculateKeepsValid(nums, Snapshot());
      }
      error := None;
      if operation.None? || shouldResetDisplay {
        return;
      }

      var op := operation.value;
      var applied := Compute(op, nums.parse(previousValue), nums.parse(currentValue));
      if applied.DivisionByZero? {
        error := Some(Engine.DivisionByZeroMessage);
        return;
      } else if applied.UnknownOperator? {
        return;
      }

      var result := nums.round(applied.n);
      var expression := Engine.Expression(previousValue, op, currentValue, nums.show(result));
      AddToHistory(expression);

      currentValue := nums.show(result);
      previousValue := "";
      operation := None;
      shouldResetDisplay := true;
    }

    method Clear()
      modifies this
      ensures Snapshot() == Engine.Clear(old(Snapshot()))
      ensures currentValue == "0"
      ensures previousValue == old(previousValue) && operation == old(operation)
      ensures shouldResetDisplay == old(shouldResetDisplay) && history == old(history)
      ensures old(Valid()) ==> Valid()
    {
      currentValue := "0";
      assert DotCount(currentValue) == 0;
    }

    method ClearAll()
      modifies this
      ensures Snapshot() == Engine.ClearAll(old(Snapshot()))
      ensures currentValue == "0" && previousValue == "" && operation == None && !shouldResetDisplay
      ensures memory == old(memory) && history == old(history) && isDarkTheme == old(isDarkTheme)
      ensures old(Valid()) ==> Valid()
    {
      currentValue := "0";
      previousValue := "";
      operation := None;
      shouldResetDisplay := false;
      assert DotCount(currentValue) == 0;
    }

    method Delete()
      modifies this
      ensures Snapshot() == Engine.Delete(old(Snapshot()))
      ensures |old(currentValue)| > 1 ==> currentValue + [old(currentValue)[|old(currentValue)| - 1]] == old(currentValue)
      ensures |old(currentValue)| <= 1 ==> currentValue == "0"
      ensures currentValue != ""
      ensures old(Valid()) ==> Valid()
    {
      if old(Valid()) {
        Invariants.DeleteKeepsValid(Snapshot());
      }
      if |currentValue| > 1 {
        currentValue := currentValue[..|currentValue| - 1];
      } else {
        currentValue := "0";
      }
    }

    method MemoryClear()
      modifies this
      ensures Snapshot() == Engine.MemoryClear(nums, old(Snapshot()))
      ensures memory == nums.zero
      ensures old(Valid()) ==> Valid()
    {
      memory := nums.zero;
    }

    method MemoryRecall()
      modifies this
      ensures Snapshot() == Engine.MemoryRecall(nums, old(Snapshot()))
      ensures currentValue == nums.show(memory) && shouldResetDisplay
      ensures old(Valid()) ==> Valid()
    {
      currentValue := nums.show(memory);
      shouldResetDisplay := true;
      assert old(Valid()) ==> Invariants.Printable(nums.show(memory));
    }

    method MemoryAdd()
      modifies this
      ensures Snapshot() == Engine.MemoryAdd(nums, old(Snapshot()))
      ensures memory == nums.add(old(memory), nums.parse(currentValue))
      ensures currentValue == old(currentValue) && shouldResetDisplay
      ensures old(Valid()) ==> Valid()
    {
      memory := nums.add(memory, nums.parse(currentValue));
      shouldResetDisplay := true;
    }

    method MemorySubtract()
      modifies this
      ensures Snapshot() == Engine.MemorySubtract(nums, old(Snapshot()))
      ensures memory == nums.subtract(old(memory), nums.parse(currentValue))
      ensures currentValue == old(currentValue) && shouldResetDisplay
      ensures old(Valid()) ==> Valid()
    {
      memory := nums.subtract(memory, nums.parse(currentValue));
      shouldResetDisplay := true;
    }

    method AddToHistory(expression: string)
      modifies this
      ensures history == Engine.AddToHistory(old(history), expression)
      ensures history[0] == expression
      ensures |old(history)| < Engine.HistoryCapacity ==> history == [expression] + old(history)
      ensures |old(history)| >= Engine.HistoryCapacity ==>
                history == [expression] + old(history)[..|old(history)| - 1]
      ensures Snapshot() == old(Snapshot()).(history := history)
    {
      history := [expression] + history;
      if |history| > Engine.HistoryCapacity {
        history := history[..|history| - 1];
      }
    }

    method ClearHistory()
      modifies this
      ensures Snapshot() == Engine.ClearHistory(old(Snapshot()))
      ensures history == []
      ensures old(Valid()) ==> Valid()
    {
      history := [];
    }

    /** The click handler of the rendered history item at `index`. */
    method SelectHistoryEntry(index: nat)
      requires index < |history|
      modifies this
      ensures Snapshot() == Engine.SelectHistoryEntry(old(Snapshot()), index)
      ensures old(Valid()) ==> Valid()
    {
      if old(Valid()) {
        Invariants.SelectHistoryEntryKeepsValid(Snapshot(), index);
      }
      var result := Engine.SelectedResult(history[index]);
      if result.None? {
        return;
      }
      currentValue := result.value;
      shouldResetDisplay := true;
    }

    /** The callback `showError` schedules, run once its delay has passed. */
    method RecoverFromError()
      modifies this
      ensures Snapshot() == Engine.RecoverFromError(old(Snapshot()))
      ensures currentValue == "0"
      ensures old(Valid()) ==> Valid()
    {
      currentValue := "0";
      assert DotCount(currentValue) == 0;
    }

    method ToggleTheme()
      modifies this
      ensures Snapshot() == Engine.ToggleTheme(old(Snapshot()))
      ensures isDarkTheme == !old(isDarkTheme)
      ensures old(Valid()) ==> Valid()
    {
      isDarkTheme := !isDarkTheme;
    }

    /** `handleKeyboard`, given the key's name. */
    method HandleKeyboard(key: string) returns (error: Option<string>)
      modifies this
      ensures Snapshot() == Events.AfterKey(nums, old(Snapshot()), key)
      ensures error == Events.KeyError(nums, old(Snapshot()), key)
      ensures old(Valid()) && (|key| == 1 || key == [] || !('0' <= key[0] <= '9')) ==> Valid()
    {
      DigitKeyRange(key);
      ghost var before := Snapshot();
      ghost var event := Events.KeyEvent(key);
      error := None;
      if LessOrEqual("0", key) && LessOrEqual(key, "9") {
        assert event == Some(Events.Number(key));
        assert Events.AfterKey(nums, before, key) == Engine.AppendNumber(before, key);
        assert Events.KeyError(nums, before, key) == None;
        AppendNumber(key);
      } else if key == "." {
        assert event == Some(Events.Number("."));
        assert Events.AfterKey(nums, before, key) == Engine.AppendNumber(before, ".");
        assert Events.KeyError(nums, before, key) == None;
        AppendNumber(".");
      } else if key == "+" || key == "-" || key == "*" || key == "/" {
        assert event == Some(Events.Operator(key));
        assert Events.AfterKey(nums, before, key) == Engine.HandleOperator(nums, before, key);
        assert Events.KeyError(nums, before, key) == Engine.OperatorError(nums, before, key);
        error := HandleOperator(key);
      } else if key == "%" {
        assert event == Some(Events.Operator("%"));
        assert Events.AfterKey(nums, before, key) == Engine.HandleOperator(nums, before, "%");
        assert Events.KeyError(nums, before, key) == Engine.OperatorError(nums, before, "%");
        error := HandleOperator("%");
      } else if key == "Enter" || key == "=" {
        assert event == Some(Events.Equals);
        assert Events.AfterKey(nums, before, key) == Engine.Calculate(nums, before);
        assert Events.KeyError(nums, before, key) == Engine.CalculationError(nums, before);
        error := Calculate();
      } else if key == "Backspace" {
        assert event == Some(Events.Delete);
        assert Events.AfterKey(nums, before, key) == Engine.Delete(before);
        assert Events.KeyError(nums, before, key) == None;
        Delete();
      } else if key == "Escape" {
        assert event == Some(Events.ClearAll);
        assert Events.AfterKey(nums, before, key) == Engine.ClearAll(before);
        assert Events.KeyError(nums, before, key) == None;
        ClearAll();
      } else if key == "c" || key == "C" {
        assert event == Some(Events.Clear);
        assert Events.AfterKey(nums, before, key) == Engine.Clear(before);
        assert Events.KeyError(nums, before, key) == None;
        Clear();
      } else {
        assert event == None;
      }
    }
  }
}
