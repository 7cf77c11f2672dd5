/**
  The question generator. A question is the text shown to the player and the answer
  expected back. The random choices (the operation picked from the profile and the two
  operands drawn from its range) are given as a `Draw`; a draw that would divide by zero
  asks for a retry instead of producing a question.
*/
module Questions {
  import opened Wrappers
  import opened Decimal
  import opened Catalog

  /** The arithmetic expression a question shows. */
  datatype Display = Times(left: int, right: int) | Over(dividend: int, divisor: int)

  /** The first operand of an expression. */
  function First(e: Display): int {
    match e
    case Times(a, _) => a
    case Over(n, _) => n
  }

  /** The second operand of an expression. */
  function Second(e: Display): int {
    match e
    case Times(_, b) => b
    case Over(_, d) => d
  }

  /** The three characters between the operands: " x " for a product, " / " for a quotient. */
  function Sign(e: Display): string {
    if e.Times? then " x " else " / "
  }

  /**
    The text of a question: "a x b" for a product, "n / d" for a quotient. The first blank
    comes right after the first operand and opens the operator sign; the text before it
    and the text after the sign are the operands written as `str` writes them.
  */
  function Render(e: Display): (s: string)
    ensures var k := |IntToString(First(e))|;
      && SpaceIndex(s) == k && k + 3 <= |s| && s[k..k + 3] == Sign(e)
      && ParseInt(s[..k]) == Some(First(e)) && ParseInt(s[k + 3..]) == Some(Second(e))
  {
    var x, y := IntToString(First(e)), IntToString(Second(e));
    SpaceAfter(x, Sign(e) + y);
    Split(x, Sign(e), y);
    IntRoundTrip(First(e));
    IntRoundTrip(Second(e));
    x + (Sign(e) + y)
  }

  /** The three pieces of a text joined around a three-character sign are recovered by slicing. */
  lemma Split(x: string, op: string, y: string)
    requires |op| == 3
    ensures var s := x + (op + y);
      s[..|x|] == x && s[|x|..|x| + 3] == op && s[|x| + 3..] == y
  {
    var s := x + (op + y);
    assert s[|x|..] == op + y;
  }

  /** The exact integer value of an expression, when it has one. */
  function Value(e: Display): Option<int>
  {
    match e
    case Times(a, b) => Some(a * b)
    case Over(n, d) => if d != 0 && n % d == 0 then Some(n / d) else None
  }

  /** The index of the first blank in `s`, or `|s|` when there is none. */
  function SpaceIndex(s: string): (k: nat)
    ensures k <= |s|
    ensures k < |s| ==> s[k] == ' '
    ensures forall j :: 0 <= j < k ==> s[j] != ' '
  {
    if s == [] then 0 else if s[0] == ' ' then 0 else 1 + SpaceIndex(s[1..])
  }

  /** Reads a question's text back into the expression it shows. */
  function ParseQuestion(s: string): (r: Option<Display>)
  {
    var k := SpaceIndex(s);
    if k + 3 <= |s| && (s[k..k + 3] == " x " || s[k..k + 3] == " / ") then
      match (ParseInt(s[..k]), ParseInt(s[k + 3..]))
      case (Some(a), Some(b)) => Some(if s[k + 1] == 'x' then Times(a, b) else Over(a, b))
      case _ => None
    else None
  }

  /** A blank right after a blank-free prefix is the first blank. */
  lemma SpaceAfter(x: string, rest: string)
    requires forall i :: 0 <= i < |x| ==> x[i] != ' '
    requires |rest| > 0 && rest[0] == ' '
    ensures SpaceIndex(x + rest) == |x|
  {
    assert (x + rest)[|x|] == ' ';
  }

  /** The text of every expression reads back as that expression. */
  lemma RenderParses(e: Display)
    ensures ParseQuestion(Render(e)) == Some(e)
  {
    var s, k := Render(e), |IntToString(First(e))|;
    assert s[k + 1] == Sign(e)[1];
  }

  /** Text that reads back as an expression is exactly the text of that expression. */
  lemma ParseRenders(s: string, e: Display)
    requires ParseQuestion(s) == Some(e)
    ensures s == Render(e)
  {
    var k := SpaceIndex(s);
    assert k + 3 <= |s| && (s[k..k + 3] == " x " || s[k..k + 3] == " / ");
    var a, b := ParseInt(s[..k]).value, ParseInt(s[k + 3..]).value;
    assert e == if s[k + 1] == 'x' then Times(a, b) else Over(a, b);
    assert First(e) == a && Second(e) == b;
    assert s[k..k + 3] == Sign(e) by {
      assert s[k + 1] == s[k..k + 3][1];
    }
    ParseIsCanonical(s[..k], a);
    ParseIsCanonical(s[k + 3..], b);
    Rejoin(s, k);
  }

  /** A text is its slices before, at and after a three-character window. */
  lemma Rejoin(s: string, k: nat)
    requires k + 3 <= |s|
    ensures s == s[..k] + (s[k..k + 3] + s[k + 3..])
  {
    assert s[k..] == s[k..k + 3] + s[k + 3..];
  }

  /** The random choices behind one question. */
  datatype Draw = Draw(op: Operation, num1: int, num2: int)

  /** The draw could have come from the profile: a listed operation, operands in range. */
  predicate DrawFits(p: Profile, d: Draw) {
    && d.op in p.operations
    && p.low <= d.num1 <= p.high
    && p.low <= d.num2 <= p.high
  }

  datatype Question = Question(text: string, answer: int)

  datatype Attempt = Emitted(question: Question) | Retry

  /**
    One pass of the generator on one draw: it asks for a retry exactly on a division by
    zero; a product expects num1*num2, a quotient expects the number that times num2 gives
    the shown dividend num1*num2.
  */
  function Generate(d: Draw): (r: Attempt)
    ensures r.Retry? <==> d.op == Division && d.num2 == 0
    ensures r.Emitted? && d.op == Multiplication ==> r.question.answer == d.num1 * d.num2
    ensures r.Emitted? && d.op == Division ==> d.num2 != 0 && r.question.answer * d.num2 == d.num1 * d.num2
  {
    match d.op
    case Multiplication =>
      Emitted(Question(Render(Times(d.num1, d.num2)), d.num1 * d.num2))
    case Division =>
      if d.num2 != 0 then Emitted(Question(Render(Over(d.num1 * d.num2, d.num2)), d.num1))
      else Retry
  }

  /** Euclidean division of a multiple of `b` by `b` is exact. */
  lemma ExactQuotient(a: int, b: int)
    requires b != 0
    ensures (a * b) % b == 0 && (a * b) / b == a
  {
    var q, r := (a * b) / b, (a * b) % b;
    var t := a - q;
    assert b * t == r by {
      assert a * b == b * q + r;
      assert b * t == b * a - b * q;
    }
  }

  /** A product question shows the two drawn operands and expects their product. */
  lemma MultiplicationQuestion(d: Draw)
    requires d.op == Multiplication
    ensures Generate(d).Emitted?
    ensures ParseQuestion(Generate(d).question.text) == Some(Times(d.num1, d.num2))
    ensures Generate(d).question.answer == d.num1 * d.num2
  {
    RenderParses(Times(d.num1, d.num2));
  }

  /**
    A division question is produced exactly when the divisor is not zero; it shows the
    dividend num1*num2 and the divisor num2, and its answer num1 is their exact quotient.
  */
  lemma DivisionQuestion(d: Draw)
    requires d.op == Division
    ensures Generate(d).Emitted? <==> d.num2 != 0
    ensures Generate(d).Emitted? ==>
      && ParseQuestion(Generate(d).question.text) == Some(Over(d.num1 * d.num2, d.num2))
      && Generate(d).question.answer * d.num2 == d.num1 * d.num2
      && Value(Over(d.num1 * d.num2, d.num2)) == Some(Generate(d).question.answer)
  {
    if d.num2 != 0 {
      RenderParses(Over(d.num1 * d.num2, d.num2));
      ExactQuotient(d.num1, d.num2);
    }
  }

  /** Whatever question is produced, its answer is the value of the expression its text shows. */
  lemma AnswerIsShownValue(d: Draw)
    requires Generate(d).Emitted?
    ensures var q := Generate(d).question;
      exists e :: ParseQuestion(q.text) == Some(e) && Value(e) == Some(q.answer)
  {
    if d.op == Multiplication {
      MultiplicationQuestion(d);
      assert Value(Times(d.num1, d.num2)) == Some(d.num1 * d.num2);
    } else {
      DivisionQuestion(d);
    }
  }

  /** A profile whose range starts at 1 or above never asks for a retry. */
  lemma WellFormedNeverRetries(p: Profile, d: Draw)
    requires WellFormed(p) && DrawFits(p, d)
    ensures Generate(d).Emitted?
  {
  }

  /** The number of leading draws that asked for a retry. */
  function FirstEmitted(draws: seq<Draw>): (k: nat)
    ensures k <= |draws|
    ensures forall j :: 0 <= j < k ==> Generate(draws[j]).Retry?
    ensures k < |draws| ==> Generate(draws[k]).Emitted?
  {
    if draws == [] then 0
    else if Generate(draws[0]).Emitted? then 0
    else 1 + FirstEmitted(draws[1..])
  }

  /**
    The generator with its retries: draws are used in order until one produces a
    question. `None` stands for a sequence of draws that all asked for a retry, which
    the recursive generator would have continued past.
  */
  function GenerateQuestion(p: Profile, draws: seq<Draw>): (r: Option<Question>)
    requires forall i :: 0 <= i < |draws| ==> DrawFits(p, draws[i])
    ensures r.None? <==> forall i :: 0 <= i < |draws| ==> Generate(draws[i]).Retry?
    ensures r.Some? ==> FirstEmitted(draws) < |draws| && Generate(draws[FirstEmitted(draws)]) == Emitted(r.value)
    ensures WellFormed(p) && |draws| > 0 ==>
      Generate(draws[0]).Emitted? && r == Some(Generate(draws[0]).question)
  {
    var k := FirstEmitted(draws);
    assert WellFormed(p) && |draws| > 0 ==> DrawFits(p, draws[0]) && Generate(draws[0]).Emitted?;
    if k < |draws| then Some(Generate(draws[k]).question) else None
  }

  /**
    Under the configured catalog the zero-divisor retry never happens: the first draw
    always yields the question.
  */
  lemma CatalogNeverRetries(name: string, draws: seq<Draw>)
    requires name in Difficulties()
    requires |draws| > 0
    requires forall i :: 0 <= i < |draws| ==> DrawFits(Difficulties()[name], draws[i])
    ensures Generate(draws[0]).Emitted?
    ensures GenerateQuestion(Difficulties()[name], draws) == Some(Generate(draws[0]).question)
  {
    WellFormedNeverRetries(Difficulties()[name], draws[0]);
  }
}
