/** Values shared by every part of the model: optional values, the Python
    exceptions the modelled code can raise (as an outcome instead of a throw),
    and the float-or-NaN numbers that the factor accessors return. */
module Values {

  datatype Option<+T> = None | Some(value: T)

  /** Why an evaluation raised, by cause. */
  datatype Error =
    | MissingLineItem   // KeyError: a label that is not in the table
    | MissingTable      // an attribute or subscript access on a table that is None
    | MissingPrice      // a price frame that is None, or iloc[-1] on an empty frame
    | ChainUnderflow    // IndexError: prev_fund_factors shorter than the index used
    | DivisionByZero    // a division whose divisor is zero
    | InvalidDate       // datetime(...) given a None year, an out-of-range year or an unbound month
    | MissingHolders    // the major-holders file could not be read
    | LengthMismatch    // a column assigned a list whose length differs from the frame's

  /** The result of evaluating a Python expression: a value, or the exception it raised. */
  datatype Outcome<+T> = Ok(value: T) | Raised(error: Error) {
    predicate IsFailure() { Raised? }
    function PropagateFailure<U>(): Outcome<U> requires Raised? { Raised(error) }
    function Extract(): T requires Ok? { value }
  }

  /** A float as the factor engine sees it: a real number or NaN. */
  datatype Num = Num(v: real) | NaN

  function AddNum(a: Num, b: Num): Num {
    if a.NaN? || b.NaN? then NaN else Num(a.v + b.v)
  }

  function SubNum(a: Num, b: Num): Num {
    if a.NaN? || b.NaN? then NaN else Num(a.v - b.v)
  }

  function MulNum(a: Num, b: Num): Num {
    if a.NaN? || b.NaN? then NaN else Num(a.v * b.v)
  }

  function NegNum(a: Num): Num {
    if a.NaN? then NaN else Num(-a.v)
  }

  /** Python evaluates `a + b` left to right: the first operand that raised decides. */
  function Plus(a: Outcome<Num>, b: Outcome<Num>): Outcome<Num> {
    if a.Raised? then a else if b.Raised? then b else Ok(AddNum(a.value, b.value))
  }

  function Minus(a: Outcome<Num>, b: Outcome<Num>): Outcome<Num> {
    if a.Raised? then a else if b.Raised? then b else Ok(SubNum(a.value, b.value))
  }

  function Times(a: Outcome<Num>, b: Outcome<Num>): Outcome<Num> {
    if a.Raised? then a else if b.Raised? then b else Ok(MulNum(a.value, b.value))
  }

  function Negate(a: Outcome<Num>): Outcome<Num> {
    if a.Raised? then a else Ok(NegNum(a.value))
  }

  /** Division raises on a zero divisor (checked before NaN), and absorbs NaN otherwise. */
  function Over(a: Outcome<Num>, b: Outcome<Num>): Outcome<Num> {
    if a.Raised? then a
    else if b.Raised? then b
    else if b.value == Num(0.0) then Raised(DivisionByZero)
    else if a.value.NaN? || b.value.NaN? then Ok(NaN)
    else Ok(Num(a.value.v / b.value.v))
  }

  function Lit(x: real): Outcome<Num> { Ok(Num(x)) }

  /** Sum of a sequence of reals, folded from the left. */
  function Sum(s: seq<real>): real
    decreases |s|
  {
    if s == [] then 0.0 else Sum(s[..|s| - 1]) + s[|s| - 1]
  }

  lemma {:induction false} SumAppend(a: seq<real>, b: seq<real>)
    ensures Sum(a + b) == Sum(a) + Sum(b)
    decreases |b|
  {
    if b == [] {
      assert a + b == a;
    } else {
      var b' := b[..|b| - 1];
      assert (a + b)[..|a + b| - 1] == a + b';
      SumAppend(a, b');
    }
  }

  lemma {:induction false} SumNonNegative(s: seq<real>)
    requires forall i :: 0 <= i < |s| ==> s[i] >= 0.0
    ensures Sum(s) >= 0.0
    decreases |s|
  {
    if s != [] {
      SumNonNegative(s[..|s| - 1]);
    }
  }
}
