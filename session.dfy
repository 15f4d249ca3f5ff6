/**
 * The calculator's `main` loop over a finite stream of typed lines.
 *
 * The specification is a state machine that consumes one line at a time
 * (`Step`, folded over the stream by `Run`). The implementation,
 * `RunSession`, is written the way the source is: a `while true` loop
 * that calls the retrying prompts `GetNumber` and `GetOperation`, appends
 * to a `History` object and leaves by `break`. End of input at any prompt
 * makes the source's `input()` raise, which ends the process with status 1
 * and no session summary; a "q" ends the session normally.
 */
module Session {
  import opened Wrappers
  import opened Text
  import opened Calculator

  /** Which prompt the session is waiting at, and what it has collected so far. */
  datatype Phase =
    | FirstNumber
    | AwaitOperation(num1: real)
    | SecondNumber(num1: real, op: string)
    | AwaitContinue
    | Finished

  datatype State = State(phase: Phase, history: seq<Record>)

  const Start: State := State(FirstNumber, [])

  /** The record `main` stores after calling `calculate` on these operands. */
  function CalcRecord(num1: real, op: string, num2: real, pow: (real, real) -> Value): Record {
    var o := Calculate(num1, num2, op, pow);
    Record(num1, op, num2, o.result, o.success)
  }

  /** The line makes the second-number prompt call `calculate`. */
  predicate Calculates(st: State, line: string, parse: string -> Option<real>) {
    st.phase.SecondNumber? && ReadNumber(line, parse).Number?
  }

  /**
   * One typed line. The history grows by exactly the one record of a
   * `calculate` call and is otherwise left alone; "q" at any prompt ends the
   * session; `Finished` ignores everything after it.
   */
  function Step(st: State, line: string, parse: string -> Option<real>, pow: (real, real) -> Value): (st': State)
    ensures Calculates(st, line, parse) ==>
              st'.history == st.history + [CalcRecord(st.phase.num1, st.phase.op, ReadNumber(line, parse).x, pow)]
    ensures !Calculates(st, line, parse) ==> st'.history == st.history
    ensures st.phase != Finished && Lower(Strip(line)) == "q" ==> st' == State(Finished, st.history)
    ensures st.phase == Finished ==> st' == st
    ensures st.phase.AwaitOperation? && DecodeChoice(line) == ShowHistory ==> st' == State(FirstNumber, st.history)
  {
    var h := st.history;
    match st.phase
    case FirstNumber =>
      (match ReadNumber(line, parse)
       case Quit => State(Finished, h)
       case Number(x) => State(AwaitOperation(x), h)
       case Invalid => st)
    case AwaitOperation(num1) =>
      (match DecodeChoice(line)
       case Exit => State(Finished, h)
       case ShowHistory => State(FirstNumber, h)
       case Pick(op) => State(SecondNumber(num1, op), h)
       case Rejected => st)
    case SecondNumber(num1, op) =>
      (match ReadNumber(line, parse)
       case Quit => State(Finished, h)
       case Number(num2) => State(AwaitContinue, h + [CalcRecord(num1, op, num2, pow)])
       case Invalid => st)
    case AwaitContinue =>
      // "h" shows the history and anything else clears the screen; both lead back to the first prompt.
      if Lower(Strip(line)) == "q" then State(Finished, h) else State(FirstNumber, h)
    case Finished => st
  }

  /** The state after the whole stream has been typed. */
  function Run(lines: seq<string>, parse: string -> Option<real>, pow: (real, real) -> Value): State
    decreases |lines|
  {
    if lines == [] then Start
    else Step(Run(lines[..|lines| - 1], parse, pow), lines[|lines| - 1], parse, pow)
  }

  // ---------------------------------------------------------------------------
  // Facts about the specification
  // ---------------------------------------------------------------------------

  /** `Run` is a left fold: one more line is one more step. */
  lemma RunNext(lines: seq<string>, j: nat, parse: string -> Option<real>, pow: (real, real) -> Value)
    requires j < |lines|
    ensures Run(lines[..j + 1], parse, pow) == Step(Run(lines[..j], parse, pow), lines[j], parse, pow)
  {
    assert lines[..j + 1][..j] == lines[..j];
  }

  /** No line adds more than one record. */
  lemma {:induction false} RunHistoryBound(lines: seq<string>, parse: string -> Option<real>, pow: (real, real) -> Value)
    ensures |Run(lines, parse, pow).history| <= |lines|
    decreases |lines|
  {
    if lines != [] {
      RunHistoryBound(lines[..|lines| - 1], parse, pow);
    }
  }

  /** Lines that leave the state where it is, such as rejected input at a prompt, change nothing. */
  lemma {:induction false} RunIdle(lines: seq<string>, i: nat, k: nat, parse: string -> Option<real>, pow: (real, real) -> Value)
    requires i <= k <= |lines|
    requires forall j :: i <= j < k ==> Step(Run(lines[..i], parse, pow), lines[j], parse, pow) == Run(lines[..i], parse, pow)
    ensures Run(lines[..k], parse, pow) == Run(lines[..i], parse, pow)
    decreases k
  {
    if k > i {
      RunIdle(lines, i, k - 1, parse, pow);
      RunNext(lines, k - 1, parse, pow);
    }
  }

  /** Once the session has finished, nothing typed afterwards matters. */
  lemma RunFinished(lines: seq<string>, k: nat, parse: string -> Option<real>, pow: (real, real) -> Value)
    requires k <= |lines| && Run(lines[..k], parse, pow).phase == Finished
    ensures Run(lines, parse, pow) == Run(lines[..k], parse, pow)
  {
    RunIdle(lines, k, |lines|, parse, pow);
    assert lines[..|lines|] == lines;
  }

  /**
   * Typing "q" at whatever prompt the session is waiting at ends it on the
   * spot: no partial calculation is recorded and later lines are ignored.
   */
  lemma QuitEndsSession(before: seq<string>, quit: string, after: seq<string>,
                        parse: string -> Option<real>, pow: (real, real) -> Value)
    requires Run(before, parse, pow).phase != Finished
    requires Lower(Strip(quit)) == "q"
    ensures Run(before + [quit] + after, parse, pow) == State(Finished, Run(before, parse, pow).history)
  {
    var lines := before + [quit] + after;
    assert lines[..|before|] == before;
    RunNext(lines, |before|, parse, pow);
    RunFinished(lines, |before| + 1, parse, pow);
  }

  /** Records stay in insertion order: a shorter stream's history is a prefix of a longer one's. */
  lemma {:induction false} HistoryPrefix(lines: seq<string>, k: nat, parse: string -> Option<real>, pow: (real, real) -> Value)
    requires k <= |lines|
    ensures Run(lines[..k], parse, pow).history <= Run(lines, parse, pow).history
    decreases |lines| - k
  {
    if k < |lines| {
      HistoryPrefix(lines, k + 1, parse, pow);
      RunNext(lines, k, parse, pow);
    } else {
      assert lines[..k] == lines;
    }
  }

  /** How many lines of the stream make `main` call `calculate`. */
  function Calculations(lines: seq<string>, parse: string -> Option<real>, pow: (real, real) -> Value): nat
    decreases |lines|
  {
    if lines == [] then 0
    else
      var before := lines[..|lines| - 1];
      Calculations(before, parse, pow)
        + (if Calculates(Run(before, parse, pow), lines[|lines| - 1], parse) then 1 else 0)
  }

  /** The history holds one record per `calculate` call, successful or not. */
  lemma {:induction false} HistoryCountsCalculations(lines: seq<string>, parse: string -> Option<real>, pow: (real, real) -> Value)
    ensures |Run(lines, parse, pow).history| == Calculations(lines, parse, pow)
    decreases |lines|
  {
    if lines != [] {
      HistoryCountsCalculations(lines[..|lines| - 1], parse, pow);
    }
  }

  /** Every stored record is `calculate`'s verdict on its own operands and one of the six operators. */
  predicate Consistent(st: State, pow: (real, real) -> Value) {
    && (forall rec :: rec in st.history ==>
          rec.operation in Symbols && Outcome(rec.success, rec.result) == Calculate(rec.num1, rec.num2, rec.operation, pow))
    && (st.phase.SecondNumber? ==> st.phase.op in Symbols)
  }

  lemma {:induction false} RunConsistent(lines: seq<string>, parse: string -> Option<real>, pow: (real, real) -> Value)
    ensures Consistent(Run(lines, parse, pow), pow)
    decreases |lines|
  {
    if lines != [] {
      RunConsistent(lines[..|lines| - 1], parse, pow);
    }
  }

  /**
   * A failed record in a session's history is a division or a modulo by
   * zero with its fixed message, or a power whose evaluation raised: the
   * menu never hands `calculate` an unknown operator.
   */
  lemma FailuresExplained(lines: seq<string>, parse: string -> Option<real>, pow: (real, real) -> Value, rec: Record)
    requires rec in Run(lines, parse, pow).history && !rec.success
    ensures || (rec.operation == "/" && rec.num2 == 0.0 && rec.result == Message(DivisionByZero))
            || (rec.operation == "%" && rec.num2 == 0.0 && rec.result == Message(ModuloByZero))
            || (rec.operation == "**" && pow(rec.num1, rec.num2).Message?
                && rec.result == Message(Raised(pow(rec.num1, rec.num2).text)))
  {
    RunConsistent(lines, parse, pow);
  }

  /**
   * The error text of a failed record tells its cause: among failures other
   * than a power, the division message comes only from "/" and the modulo
   * message only from "%"; a failure with neither message is a power that
   * raised. A power may raise with either text, so a power failure is not
   * told apart by its message alone.
   */
  lemma FailureMessageNamesCause(lines: seq<string>, parse: string -> Option<real>, pow: (real, real) -> Value, rec: Record)
    requires rec in Run(lines, parse, pow).history && !rec.success
    ensures rec.operation != "**" ==> (rec.result == Message(DivisionByZero) <==> rec.operation == "/")
    ensures rec.operation != "**" ==> (rec.result == Message(ModuloByZero) <==> rec.operation == "%")
    ensures rec.result != Message(DivisionByZero) && rec.result != Message(ModuloByZero) ==> rec.operation == "**"
  {
    FailuresExplained(lines, parse, pow, rec);
    ErrorTextsDistinct(rec.operation);
  }

  /**
   * A session that divides by zero: 10, choice 4 (divide), 0, then quit. One failed
   * record with the division-by-zero message, and the session ends normally.
   */
  lemma DivisionByZeroSession(parse: string -> Option<real>, pow: (real, real) -> Value)
    requires parse("10") == Some(10.0) && parse("0") == Some(0.0)
    ensures Run(["10", "4", "0", "q"], parse, pow)
            == State(Finished, [Record(10.0, "/", 0.0, Message(DivisionByZero), false)])
  {
    var lines := ["10", "4", "0", "q"];
    ExampleLines(parse);
    var rec := Record(10.0, "/", 0.0, Message(DivisionByZero), false);
    assert lines[..0] == [];
    RunNext(lines, 0, parse, pow);
    assert Run(lines[..1], parse, pow) == State(AwaitOperation(10.0), []);
    RunNext(lines, 1, parse, pow);
    assert Run(lines[..2], parse, pow) == State(SecondNumber(10.0, "/"), []);
    RunNext(lines, 2, parse, pow);
    assert Run(lines[..3], parse, pow) == State(AwaitContinue, [rec]);
    RunNext(lines, 3, parse, pow);
    assert lines[..4] == lines;
  }

  /** How the four lines of a session that divides by zero decode. */
  lemma ExampleLines(parse: string -> Option<real>)
    requires parse("10") == Some(10.0) && parse("0") == Some(0.0)
    ensures ReadNumber("10", parse) == Number(10.0)
    ensures DecodeChoice("4") == Pick("/")
    ensures ReadNumber("0", parse) == Number(0.0)
    ensures Lower(Strip("q")) == "q"
  {
    PlainLine("10");
    PlainLine("4");
    PlainLine("0");
    PlainLine("q");
  }

  /** A line with no blanks around it and no upper-case letters reads as itself. */
  lemma PlainLine(line: string)
    requires NoEdgeSpace(line) && forall i :: 0 <= i < |line| ==> !IsUpper(line[i])
    ensures Lower(Strip(line)) == line
  {
    StripNoEdgeSpace(line);
  }

  // ---------------------------------------------------------------------------
  // The implementation
  // ---------------------------------------------------------------------------

  /** An answer from a prompt, or the end of the input stream. */
  datatype Prompt<T> = Answered(answer: T) | EndOfInput

  /**
   * `get_number`: read lines from `start` on until one is "q" or a number;
   * `next` is the position after the line that decided.
   */
  method GetNumber(lines: seq<string>, start: nat, parse: string -> Option<real>) returns (r: Prompt<NumberInput>, next: nat)
    requires start <= |lines|
    ensures start <= next <= |lines|
    ensures r.EndOfInput? ==> next == |lines|
    ensures r.Answered? ==> start < next && !r.answer.Invalid? && ReadNumber(lines[next - 1], parse) == r.answer
    ensures forall j :: start <= j < (if r.Answered? then next - 1 else next) ==> ReadNumber(lines[j], parse).Invalid?
  {
    next := start;
    r := EndOfInput;
    while next < |lines| && r.EndOfInput?
      invariant start <= next <= |lines|
      invariant r.Answered? ==> start < next && !r.answer.Invalid? && ReadNumber(lines[next - 1], parse) == r.answer
      invariant forall j :: start <= j < (if r.Answered? then next - 1 else next) ==> ReadNumber(lines[j], parse).Invalid?
      decreases |lines| - next, if r.EndOfInput? then 1 else 0
    {
      var n := ReadNumber(lines[next], parse);
      if !n.Invalid? {
        r := Answered(n);
      }
      next := next + 1;
    }
  }

  /**
   * `get_operation`: read lines from `start` on until one is accepted: an
   * operator, "h" or "q".
   */
  method GetOperation(lines: seq<string>, start: nat) returns (r: Prompt<Choice>, next: nat)
    requires start <= |lines|
    ensures start <= next <= |lines|
    ensures r.EndOfInput? ==> next == |lines|
    ensures r.Answered? ==> start < next && !r.answer.Rejected? && DecodeChoice(lines[next - 1]) == r.answer
    ensures forall j :: start <= j < (if r.Answered? then next - 1 else next) ==> DecodeChoice(lines[j]).Rejected?
  {
    var i := start;
    while i < |lines|
      invariant start <= i <= |lines|
      invariant forall j :: start <= j < i ==> DecodeChoice(lines[j]).Rejected?
    {
      var c := DecodeChoice(lines[i]);
      if !c.Rejected? {
        return Answered(c), i + 1;
      }
      i := i + 1;
    }
    return EndOfInput, |lines|;
  }

  /** What one line does at a number prompt. */
  lemma StepAtNumberPrompt(st: State, line: string, parse: string -> Option<real>, pow: (real, real) -> Value)
    requires st.phase.FirstNumber? || st.phase.SecondNumber?
    ensures var n := ReadNumber(line, parse);
            && (n.Invalid? ==> Step(st, line, parse, pow) == st)
            && (n.Quit? ==> Step(st, line, parse, pow) == State(Finished, st.history))
            && (n.Number? && st.phase.FirstNumber? ==> Step(st, line, parse, pow) == State(AwaitOperation(n.x), st.history))
            && (n.Number? && st.phase.SecondNumber? ==>
                  Step(st, line, parse, pow)
                  == State(AwaitContinue, st.history + [CalcRecord(st.phase.num1, st.phase.op, n.x, pow)]))
  {
  }

  /** What one line does at the operation prompt. */
  lemma StepAtOperationPrompt(st: State, line: string, parse: string -> Option<real>, pow: (real, real) -> Value)
    requires st.phase.AwaitOperation?
    ensures var c := DecodeChoice(line);
            && (c.Rejected? ==> Step(st, line, parse, pow) == st)
            && (c.Exit? ==> Step(st, line, parse, pow) == State(Finished, st.history))
            && (c.ShowHistory? ==> Step(st, line, parse, pow) == State(FirstNumber, st.history))
            && (c.Pick? ==> Step(st, line, parse, pow) == State(SecondNumber(st.phase.num1, c.op), st.history))
  {
  }

  /** Lines a number prompt refuses leave the session where it was. */
  lemma SkipInvalidNumbers(lines: seq<string>, i: nat, stop: nat, parse: string -> Option<real>, pow: (real, real) -> Value)
    requires i <= stop <= |lines|
    requires Run(lines[..i], parse, pow).phase.FirstNumber? || Run(lines[..i], parse, pow).phase.SecondNumber?
    requires forall j :: i <= j < stop ==> ReadNumber(lines[j], parse).Invalid?
    ensures Run(lines[..stop], parse, pow) == Run(lines[..i], parse, pow)
  {
    var st := Run(lines[..i], parse, pow);
    forall j | i <= j < stop ensures Step(st, lines[j], parse, pow) == st {
      StepAtNumberPrompt(st, lines[j], parse, pow);
    }
    RunIdle(lines, i, stop, parse, pow);
  }

  /** Lines the operation prompt refuses leave the session where it was. */
  lemma SkipRejectedChoices(lines: seq<string>, i: nat, stop: nat, parse: string -> Option<real>, pow: (real, real) -> Value)
    requires i <= stop <= |lines|
    requires Run(lines[..i], parse, pow).phase.AwaitOperation?
    requires forall j :: i <= j < stop ==> DecodeChoice(lines[j]).Rejected?
    ensures Run(lines[..stop], parse, pow) == Run(lines[..i], parse, pow)
  {
    var st := Run(lines[..i], parse, pow);
    forall j | i <= j < stop ensures Step(st, lines[j], parse, pow) == st {
      StepAtOperationPrompt(st, lines[j], parse, pow);
    }
    RunIdle(lines, i, stop, parse, pow);
  }

  /** Where the stream stands after a number prompt has returned `r`, having read up to `next`. */
  lemma AfterNumberPrompt(lines: seq<string>, i: nat, r: Prompt<NumberInput>, next: nat,
                          parse: string -> Option<real>, pow: (real, real) -> Value)
    requires i <= next <= |lines|
    requires Run(lines[..i], parse, pow).phase.FirstNumber? || Run(lines[..i], parse, pow).phase.SecondNumber?
    requires r.Answered? ==> i < next && !r.answer.Invalid? && ReadNumber(lines[next - 1], parse) == r.answer
    requires forall j :: i <= j < (if r.Answered? then next - 1 else next) ==> ReadNumber(lines[j], parse).Invalid?
    ensures var st := Run(lines[..i], parse, pow);
            && (r.EndOfInput? ==> Run(lines[..next], parse, pow) == st)
            && (r.Answered? && r.answer.Quit? ==> Run(lines[..next], parse, pow) == State(Finished, st.history))
            && (r.Answered? && r.answer.Number? && st.phase.FirstNumber? ==>
                  Run(lines[..next], parse, pow) == State(AwaitOperation(r.answer.x), st.history))
            && (r.Answered? && r.answer.Number? && st.phase.SecondNumber? ==>
                  Run(lines[..next], parse, pow)
                  == State(AwaitContinue, st.history + [CalcRecord(st.phase.num1, st.phase.op, r.answer.x, pow)]))
  {
    var stop := if r.Answered? then next - 1 else next;
    SkipInvalidNumbers(lines, i, stop, parse, pow);
    if r.Answered? {
      RunNext(lines, next - 1, parse, pow);
      StepAtNumberPrompt(Run(lines[..i], parse, pow), lines[next - 1], parse, pow);
    }
  }

  /** Where the stream stands after the operation prompt has returned `r`, having read up to `next`. */
  lemma AfterOperationPrompt(lines: seq<string>, i: nat, r: Prompt<Choice>, next: nat,
                             parse: string -> Option<real>, pow: (real, real) -> Value)
    requires i <= next <= |lines|
    requires Run(lines[..i], parse, pow).phase.AwaitOperation?
    requires r.Answered? ==> i < next && !r.answer.Rejected? && DecodeChoice(lines[next - 1]) == r.answer
    requires forall j :: i <= j < (if r.Answered? then next - 1 else next) ==> DecodeChoice(lines[j]).Rejected?
    ensures var st := Run(lines[..i], parse, pow);
            && (r.EndOfInput? ==> Run(lines[..next], parse, pow) == st)
            && (r.Answered? && r.answer.Exit? ==> Run(lines[..next], parse, pow) == State(Finished, st.history))
            && (r.Answered? && r.answer.ShowHistory? ==> Run(lines[..next], parse, pow) == State(FirstNumber, st.history))
            && (r.Answered? && r.answer.Pick? ==>
                  Run(lines[..next], parse, pow) == State(SecondNumber(st.phase.num1, r.answer.op), st.history))
  {
    var stop := if r.Answered? then next - 1 else next;
    SkipRejectedChoices(lines, i, stop, parse, pow);
    if r.Answered? {
      RunNext(lines, next - 1, parse, pow);
      StepAtOperationPrompt(Run(lines[..i], parse, pow), lines[next - 1], parse, pow);
    }
  }

  /** Where the stream stands after the "continue?" prompt, which reads one line and does not retry. */
  lemma AfterContinuePrompt(lines: seq<string>, i: nat, parse: string -> Option<real>, pow: (real, real) -> Value)
    requires i < |lines| && Run(lines[..i], parse, pow).phase == AwaitContinue
    ensures Run(lines[..i + 1], parse, pow)
            == State(if Lower(Strip(lines[i])) == "q" then Finished else FirstNumber, Run(lines[..i], parse, pow).history)
  {
    RunNext(lines, i, parse, pow);
  }

  /** The stream has been read to its end, or the session finished before that: either way `Run` is settled. */
  lemma Settled(lines: seq<string>, k: nat, parse: string -> Option<real>, pow: (real, real) -> Value)
    requires k <= |lines|
    requires k == |lines| || Run(lines[..k], parse, pow).phase == Finished
    ensures Run(lines, parse, pow) == Run(lines[..k], parse, pow)
  {
    if k == |lines| {
      assert lines[..k] == lines;
    } else {
      RunFinished(lines, k, parse, pow);
    }
  }

  /** How one pass of `main`'s loop body ended. */
  datatype PassEnd = Again | UserQuit | OutOfInput

  /**
   * One pass of `main`'s loop body, from the first-number prompt to the
   * `continue` or `break` that ends it, reading the stream from `i` on.
   */
  method LoopPass(lines: seq<string>, i: nat, history: History, parse: string -> Option<real>, pow: (real, real) -> Value)
    returns (next: nat, end: PassEnd)
    requires i <= |lines|
    requires Run(lines[..i], parse, pow) == State(FirstNumber, history.records)
    modifies history
    ensures i <= next <= |lines|
    ensures end == Again ==> i < next && Run(lines[..next], parse, pow) == State(FirstNumber, history.records)
    ensures end == UserQuit ==> Run(lines[..next], parse, pow) == State(Finished, history.records)
    ensures end == OutOfInput ==> next == |lines| && Run(lines[..next], parse, pow).phase != Finished
                                  && Run(lines[..next], parse, pow).history == history.records
  {
    var first, j := GetNumber(lines, i, parse);
    AfterNumberPrompt(lines, i, first, j, parse, pow);
    if first.EndOfInput? {
      return j, OutOfInput;
    } else if first.answer.Quit? {
      return j, UserQuit;
    }
    next, end := OperationPrompt(lines, j, first.answer.x, history, parse, pow);
  }

  /** The rest of the pass once the first number `num1` has been read: the operation prompt. */
  method OperationPrompt(lines: seq<string>, j: nat, num1: real, history: History,
                         parse: string -> Option<real>, pow: (real, real) -> Value)
    returns (next: nat, end: PassEnd)
    requires j <= |lines|
    requires Run(lines[..j], parse, pow) == State(AwaitOperation(num1), history.records)
    modifies history
    ensures j <= next <= |lines|
    ensures end == Again ==> j < next && Run(lines[..next], parse, pow) == State(FirstNumber, history.records)
    ensures end == UserQuit ==> Run(lines[..next], parse, pow) == State(Finished, history.records)
    ensures end == OutOfInput ==> next == |lines| && Run(lines[..next], parse, pow).phase != Finished
                                  && Run(lines[..next], parse, pow).history == history.records
  {
    var choice, k := GetOperation(lines, j);
    AfterOperationPrompt(lines, j, choice, k, parse, pow);
    if choice.EndOfInput? {
      return k, OutOfInput;
    } else if choice.answer.Exit? {
      return k, UserQuit;
    } else if choice.answer.ShowHistory? {
      return k, Again;
    }
    next, end := SecondNumberPrompt(lines, k, num1, choice.answer.op, history, parse, pow);
  }

  /**
   * The rest of the pass once the operator `op` has been chosen: the second
   * number, `calculate`, `add_to_history` and the "continue?" prompt.
   */
  method SecondNumberPrompt(lines: seq<string>, k: nat, num1: real, op: string, history: History,
                            parse: string -> Option<real>, pow: (real, real) -> Value)
    returns (next: nat, end: PassEnd)
    requires k <= |lines|
    requires Run(lines[..k], parse, pow) == State(SecondNumber(num1, op), history.records)
    modifies history
    ensures k <= next <= |lines|
    ensures end == Again ==> k < next && Run(lines[..next], parse, pow) == State(FirstNumber, history.records)
    ensures end == UserQuit ==> Run(lines[..next], parse, pow) == State(Finished, history.records)
    ensures end == OutOfInput ==> next == |lines| && Run(lines[..next], parse, pow).phase != Finished
                                  && Run(lines[..next], parse, pow).history == history.records
  {
    var second, m := GetNumber(lines, k, parse);
    AfterNumberPrompt(lines, k, second, m, parse, pow);
    if second.EndOfInput? {
      return m, OutOfInput;
    } else if second.answer.Quit? {
      return m, UserQuit;
    }
    var num2 := second.answer.x;

    var outcome := Calculate(num1, num2, op, pow);
    history.Add(num1, op, num2, outcome.result, outcome.success);

    next, end := ContinuePrompt(lines, m, history, parse, pow);
  }

  /**
   * "Press Enter to continue, 'h' for history, or 'q' to quit": one line is
   * read, without retrying; "q" ends the session and anything else starts
   * the loop over ("h" after showing the history).
   */
  method ContinuePrompt(lines: seq<string>, m: nat, history: History,
                        parse: string -> Option<real>, pow: (real, real) -> Value)
    returns (next: nat, end: PassEnd)
    requires m <= |lines|
    requires Run(lines[..m], parse, pow) == State(AwaitContinue, history.records)
    ensures m <= next <= |lines|
    ensures end == OutOfInput <==> m == |lines|
    ensures end != OutOfInput ==> next == m + 1
    ensures end == UserQuit <==> m < |lines| && Lower(Strip(lines[m])) == "q"
    ensures end == Again ==> m < next && Run(lines[..next], parse, pow) == State(FirstNumber, history.records)
    ensures end == UserQuit ==> Run(lines[..next], parse, pow) == State(Finished, history.records)
    ensures end == OutOfInput ==> next == |lines| && Run(lines[..next], parse, pow).phase != Finished
                                  && Run(lines[..next], parse, pow).history == history.records
  {
    if m == |lines| {
      return m, OutOfInput;
    }
    AfterContinuePrompt(lines, m, parse, pow);
    var answer := Lower(Strip(lines[m]));
    if answer == "q" {
      return m + 1, UserQuit;
    }
    return m + 1, Again;
  }

  /**
   * `main`'s loop. `records` is the history when the loop stops; `quit`
   * says whether it stopped because the user typed "q" (the source then
   * prints the session summary) rather than because the input ran out.
   */
  method RunSession(lines: seq<string>, parse: string -> Option<real>, pow: (real, real) -> Value)
    returns (records: seq<Record>, quit: bool)
    ensures records == Run(lines, parse, pow).history
    ensures quit <==> Run(lines, parse, pow).phase == Finished
  {
    var history := new History();
    var i := 0;
    assert lines[..0] == [];
    while true
      invariant 0 <= i <= |lines|
      invariant Run(lines[..i], parse, pow) == State(FirstNumber, history.records)
      decreases |lines| - i
    {
      var next, end := LoopPass(lines, i, history, parse, pow);
      if end != Again {
        Settled(lines, next, parse, pow);
        records, quit := history.records, end == UserQuit;
        return;
      }
      i := next;
    }
  }
}
