/**
 * The calculator's logic without its terminal output: decoding what the user
 * types at the number and operation prompts, the arithmetic dispatcher with
 * its zero-divisor guards, the history list and the end-of-session statistics.
 *
 * Operands are exact reals. Parsing a number (`float()`) and raising to a
 * power (`**`) are left to the caller, as the parameters `parse` and `pow`.
 */
module Calculator {
  import opened Wrappers
  import opened Text

  // ---------------------------------------------------------------------------
  // Values and records
  // ---------------------------------------------------------------------------

  /** The second half of the pair `calculate` returns: a number or an error text. */
  datatype Value = Num(x: real) | Message(text: string)

  /** The pair `(success, result)` that `calculate` returns. */
  datatype Outcome = Outcome(success: bool, result: Value)

  /** One history entry. The source also stamps each entry with the wall-clock time; the model does not. */
  datatype Record = Record(num1: real, operation: string, num2: real, result: Value, success: bool)

  /** The six operator symbols the menu offers. */
  const Symbols: set<string> := {"+", "-", "*", "/", "%", "**"}

  /** The menu's digit keys and the operators they select. */
  const Operations: map<string, string> :=
    map["1" := "+", "2" := "-", "3" := "*", "4" := "/", "5" := "%", "6" := "**"]

  const DivisionByZero: string := "Error: Division by zero is not allowed!"
  const ModuloByZero: string := "Error: Modulo by zero is not allowed!"

  function UnknownOperation(op: string): string {
    "Error: Unknown operation '" + op + "'"
  }

  /** The text of the catch-all handler, for an exception whose `str()` is `reason`. */
  function Raised(reason: string): string {
    "Error: " + reason
  }

  // ---------------------------------------------------------------------------
  // Reading one line at a prompt
  // ---------------------------------------------------------------------------

  /** What one line typed at a number prompt means. */
  datatype NumberInput = Quit | Number(x: real) | Invalid

  /**
   * One pass of `get_number`'s loop body: trim and lower-case the line; "q"
   * is the quit sentinel, anything `parse` accepts is a number, anything
   * else is rejected and the prompt repeats.
   */
  function ReadNumber(line: string, parse: string -> Option<real>): (r: NumberInput)
    ensures r.Number? ==> parse(Lower(Strip(line))) == Some(r.x)
    ensures r.Invalid? ==> parse(Lower(Strip(line))).None?
  {
    var t := Lower(Strip(line));
    if t == "q" then Quit
    else match parse(t)
      case Some(x) => Number(x)
      case None => Invalid
  }

  /** `get_number` reports quitting for exactly the lines "q" and "Q", blanks around them aside. */
  lemma ReadNumberQuitIff(line: string, parse: string -> Option<real>)
    ensures ReadNumber(line, parse) == Quit <==> Strip(line) == "q" || Strip(line) == "Q"
  {
    LowerIsSingle(Strip(line), 'q');
  }

  /** What one line typed at the operation prompt means. */
  datatype Choice = Pick(op: string) | ShowHistory | Exit | Rejected

  /** One pass of `get_operation`'s loop body. */
  function DecodeChoice(line: string): (r: Choice)
    ensures r.Pick? ==> r.op in Symbols
  {
    var t := Lower(Strip(line));
    if t == "q" then Exit
    else if t == "h" then ShowHistory
    else if t in Operations then Pick(Operations[t])
    else Rejected
  }

  /**
   * The choice mapping as the user sees it: the digits 1 to 6 select the
   * six operators, "q"/"Q" quits, "h"/"H" asks for the history, and every
   * other line is rejected, the digits 7 and 8 that the menu also lists
   * included.
   */
  lemma DecodeChoiceCases(line: string)
    ensures var t := Strip(line);
            && (DecodeChoice(line) == Exit <==> t == "q" || t == "Q")
            && (DecodeChoice(line) == ShowHistory <==> t == "h" || t == "H")
            && (DecodeChoice(line).Pick? <==> t in Operations)
            && (DecodeChoice(line).Pick? ==> DecodeChoice(line).op == Operations[t])
            && (DecodeChoice(line) == Rejected <==>
                  t !in Operations && t !in {"q", "Q", "h", "H"})
  {
    var t := Strip(line);
    LowerIsSingle(t, 'q');
    LowerIsSingle(t, 'h');
    LowerIsSingleCaseless(t, '1');
    LowerIsSingleCaseless(t, '2');
    LowerIsSingleCaseless(t, '3');
    LowerIsSingleCaseless(t, '4');
    LowerIsSingleCaseless(t, '5');
    LowerIsSingleCaseless(t, '6');
  }

  // ---------------------------------------------------------------------------
  // The dispatcher
  // ---------------------------------------------------------------------------

  /** `x` has no fractional part. */
  predicate IsWhole(x: real) {
    x.Floor as real == x
  }

  /**
   * `r` is what Python's float `%` gives for `a % b` in exact arithmetic:
   * `a - r` is a whole multiple of `b`, and `r` lies between zero and `b`,
   * so it has the sign of the divisor.
   */
  predicate IsFlooredRemainder(a: real, b: real, r: real)
    requires b != 0.0
  {
    && IsWhole((a - r) / b)
    && (b > 0.0 ==> 0.0 <= r < b)
    && (b < 0.0 ==> b < r <= 0.0)
  }

  function FlooredMod(a: real, b: real): (r: real)
    requires b != 0.0
    ensures IsFlooredRemainder(a, b, r)
  {
    var k := (a / b).Floor;
    FloorBounds(a, b, k);
    var r := a - k as real * b;
    assert (a - r) / b == k as real;
    r
  }

  /** At most one remainder fits: `IsFlooredRemainder` pins down what `%` returns. */
  lemma FlooredRemainderUnique(a: real, b: real, r1: real, r2: real)
    requires b != 0.0 && IsFlooredRemainder(a, b, r1) && IsFlooredRemainder(a, b, r2)
    ensures r1 == r2
  {
    var k1 := ((a - r1) / b).Floor;
    var k2 := ((a - r2) / b).Floor;
    assert r1 == a - k1 as real * b;
    assert r2 == a - k2 as real * b;
    assert r2 - r1 == (k1 - k2) as real * b;
    WholeMultiple(k1 - k2, b);
    assert -(if b > 0.0 then b else -b) < r2 - r1 < (if b > 0.0 then b else -b);
    assert k1 == k2;
  }

  /** A whole multiple of `b` other than zero is at least as far from zero as `b`. */
  lemma WholeMultiple(d: int, b: real)
    ensures b != 0.0 && -(if b > 0.0 then b else -b) < d as real * b < (if b > 0.0 then b else -b) ==> d == 0
  {
    if d >= 1 {
      assert (d - 1) as real * b == d as real * b - b;
    } else if d <= -1 {
      assert (d + 1) as real * b == d as real * b + b;
    }
  }

  lemma FloorBounds(a: real, b: real, k: int)
    requires b != 0.0 && k == (a / b).Floor
    ensures b > 0.0 ==> k as real * b <= a < k as real * b + b
    ensures b < 0.0 ==> k as real * b + b < a <= k as real * b
  {
    var q := a / b;
    var f := q - k as real;
    assert 0.0 <= f < 1.0;
    assert a == k as real * b + f * b;
    if b > 0.0 {
      assert 0.0 <= f * b < b;
    } else {
      assert b < f * b <= 0.0;
    }
  }

  /**
   * `calculate`: apply `op` to the operands. A failure is exactly a zero
   * divisor for "/" or "%", an operator outside the six, or an exception
   * raised by the power function, and a failure always carries a message
   * rather than a number.
   */
  function Calculate(num1: real, num2: real, op: string, pow: (real, real) -> Value): (r: Outcome)
    ensures r.success <==> r.result.Num?
    ensures !r.success <==> || ((op == "/" || op == "%") && num2 == 0.0)
                            || op !in Symbols
                            || (op == "**" && pow(num1, num2).Message?)
    ensures op == "+" ==> r.result == Num(num1 + num2)
    ensures op == "-" ==> r.result == Num(num1 - num2)
    ensures op == "*" ==> r.result == Num(num1 * num2)
    ensures op == "/" && num2 == 0.0 ==> r.result == Message(DivisionByZero)
    ensures op == "/" && num2 != 0.0 ==> r.result.Num? && r.result.x * num2 == num1
    ensures op == "%" && num2 == 0.0 ==> r.result == Message(ModuloByZero)
    ensures op == "%" && num2 != 0.0 ==> r.result.Num? && IsFlooredRemainder(num1, num2, r.result.x)
    ensures op == "**" && pow(num1, num2).Num? ==> r.result == pow(num1, num2)
    ensures op == "**" && pow(num1, num2).Message? ==> r.result == Message(Raised(pow(num1, num2).text))
    ensures op !in Symbols ==> r.result == Message(UnknownOperation(op))
  {
    if op == "+" then Outcome(true, Num(num1 + num2))
    else if op == "-" then Outcome(true, Num(num1 - num2))
    else if op == "*" then Outcome(true, Num(num1 * num2))
    else if op == "/" then
      if num2 == 0.0 then Outcome(false, Message(DivisionByZero))
      else Outcome(true, Num(num1 / num2))
    else if op == "%" then
      if num2 == 0.0 then Outcome(false, Message(ModuloByZero))
      else Outcome(true, Num(FlooredMod(num1, num2)))
    else if op == "**" then
      match pow(num1, num2)
      case Num(x) => Outcome(true, Num(x))
      case Message(reason) => Outcome(false, Message(Raised(reason)))
    else Outcome(false, Message(UnknownOperation(op)))
  }

  /** The two zero-divisor messages are distinct from each other and from every unknown-operator message. */
  lemma ErrorTextsDistinct(op: string)
    ensures DivisionByZero != ModuloByZero
    ensures op !in Symbols ==> UnknownOperation(op) != DivisionByZero && UnknownOperation(op) != ModuloByZero
  {
    assert DivisionByZero[7] != ModuloByZero[7];
    if op !in Symbols {
      assert UnknownOperation(op)[7] == 'U';
    }
  }

  // ---------------------------------------------------------------------------
  // The history list
  // ---------------------------------------------------------------------------

  /** The session's `calculation_history` list, which `add_to_history` appends to in place. */
  class History {
    var records: seq<Record>

    constructor ()
      ensures records == []
    {
      records := [];
    }

    /** `add_to_history`. */
    method Add(num1: real, operation: string, num2: real, result: Value, success: bool)
      modifies this
      ensures records == old(records) + [Record(num1, operation, num2, result, success)]
      ensures |records| == |old(records)| + 1
      ensures records[..|old(records)|] == old(records)
      ensures records[|records| - 1] == Record(num1, operation, num2, result, success)
    {
      records := records + [Record(num1, operation, num2, result, success)];
    }
  }

  // ---------------------------------------------------------------------------
  // Session statistics
  // ---------------------------------------------------------------------------

  /** The records of `h` whose success flag is `wanted`, in history order. */
  function Filter(h: seq<Record>, wanted: bool): (r: seq<Record>)
    ensures forall x :: x in r ==> x in h && x.success == wanted
    ensures forall x :: x in h && x.success == wanted ==> x in r
  {
    if h == [] then []
    else (if h[0].success == wanted then [h[0]] else []) + Filter(h[1..], wanted)
  }

  /** Successful and failed records split the history exactly. */
  lemma {:induction false} FilterPartition(h: seq<Record>)
    ensures multiset(Filter(h, true)) + multiset(Filter(h, false)) == multiset(h)
    ensures |Filter(h, true)| + |Filter(h, false)| == |h|
  {
    FilterSplit(h);
    assert |multiset(Filter(h, true)) + multiset(Filter(h, false))| == |multiset(h)|;
  }

  lemma {:induction false} FilterSplit(h: seq<Record>)
    ensures multiset(Filter(h, true)) + multiset(Filter(h, false)) == multiset(h)
  {
    if h != [] {
      FilterSplit(h[1..]);
      assert h == [h[0]] + h[1..];
      assert multiset(h) == multiset{h[0]} + multiset(h[1..]);
      if h[0].success {
        assert Filter(h, true) == [h[0]] + Filter(h[1..], true);
        assert Filter(h, false) == Filter(h[1..], false);
      } else {
        assert Filter(h, true) == Filter(h[1..], true);
        assert Filter(h, false) == [h[0]] + Filter(h[1..], false);
      }
    }
  }

  function OperationsOf(h: seq<Record>): (ops: seq<string>)
    ensures |ops| == |h|
    ensures forall i :: 0 <= i < |h| ==> ops[i] == h[i].operation
  {
    if h == [] then [] else [h[0].operation] + OperationsOf(h[1..])
  }

  /** How often `o` occurs in `ops`: Python's `ops.count(o)`. It is zero exactly for strings not in the list. */
  function Occurrences(ops: seq<string>, o: string): (c: nat)
    ensures c <= |ops|
    ensures c == 0 <==> o !in ops
  {
    if ops == [] then 0
    else
      assert o in ops <==> ops[0] == o || o in ops[1..];
      (if ops[0] == o then 1 else 0) + Occurrences(ops[1..], o)
  }

  /** A candidate among `cands` whose count in `ops` is no smaller than any other candidate's. */
  function MostFrequentOf(ops: seq<string>, cands: seq<string>): (m: string)
    requires cands != []
    ensures m in cands
    ensures forall c :: c in cands ==> Occurrences(ops, c) <= Occurrences(ops, m)
  {
    if |cands| == 1 then cands[0]
    else
      var best := MostFrequentOf(ops, cands[1..]);
      if Occurrences(ops, cands[0]) >= Occurrences(ops, best) then cands[0] else best
  }

  /**
   * `max(set(ops), key=ops.count)`: an operation of `ops` that occurs at least
   * as often as any string whatever. Ties go to the earliest candidate.
   */
  function MostUsed(ops: seq<string>): (m: string)
    requires ops != []
    ensures m in ops
    ensures forall o :: Occurrences(ops, o) <= Occurrences(ops, m)
  {
    MostFrequentOf(ops, ops)
  }

  /** The history holds a successful record exactly when the successful list is non-empty, and every operation of that list belongs to one. */
  lemma SuccessfulWitness(h: seq<Record>)
    ensures (exists x :: x in h && x.success) <==> Filter(h, true) != []
    ensures forall o :: o in OperationsOf(Filter(h, true)) ==> exists x :: x in h && x.success && x.operation == o
  {
    var good := Filter(h, true);
    if exists x :: x in h && x.success {
      var x :| x in h && x.success;
      assert x in good;
    }
    if good != [] {
      assert good[0] in good;
    }
    forall o | o in OperationsOf(good) ensures exists x :: x in h && x.success && x.operation == o {
      var ops := OperationsOf(good);
      var i :| 0 <= i < |ops| && ops[i] == o;
      assert good[i] in good;
    }
  }

  /** The numbers `print_session_summary` reports. */
  datatype SessionSummary = SessionSummary(total: nat, successful: nat, failed: nat, mostUsed: Option<string>)

  /** `print_session_summary`'s statistics; `None` for an empty history, where it prints only a notice. */
  function Summary(h: seq<Record>): (s: Option<SessionSummary>)
    ensures s.None? <==> h == []
    ensures s.Some? ==> s.value.total == |h| && s.value.successful + s.value.failed == |h|
    ensures s.Some? ==> s.value.successful == |Filter(h, true)| && s.value.failed == |Filter(h, false)|
    ensures s.Some? ==> (s.value.mostUsed.Some? <==> exists x :: x in h && x.success)
    ensures s.Some? && s.value.mostUsed.Some? ==>
              var m := s.value.mostUsed.value;
              && (exists x :: x in h && x.success && x.operation == m)
              && forall o :: Occurrences(OperationsOf(Filter(h, true)), o)
                             <= Occurrences(OperationsOf(Filter(h, true)), m)
  {
    if h == [] then None
    else
      var good := Filter(h, true);
      var bad := Filter(h, false);
      FilterPartition(h);
      var most := if good == [] then None else Some(MostUsed(OperationsOf(good)));
      SuccessfulWitness(h);
      Some(SessionSummary(|h|, |good|, |bad|, most))
  }
}
