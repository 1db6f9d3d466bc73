/**
  * The postfix evaluator `eval`: it walks the tokens left to right against a
  * fresh stack, dispatching on each token's first character, and returns the
  * top of the final stack.
  */
module RpnEval {
  import opened Results
  import opened ComplexNumbers
  import opened ComplexStacks

  /** The closed operator table: one tag per entry, in the order the table lists them. */
  datatype Op = Plus | Minus | Times | Divide | Conjugate | Negate | Dup | Drop {
    predicate IsBinary() {
      this == Plus || this == Minus || this == Times || this == Divide
    }
  }

  /**
    * Why an evaluation fails. UnknownOperator is the exception a call through an
    * empty table entry throws; Underflow and DivisionByZero name what the source
    * leaves undefined (reading below an empty stack, dividing by zero magnitude).
    */
  datatype EvalError = Underflow | UnknownOperator(symbol: char) | DivisionByZero

  /** The character an operator is looked up by. */
  function Symbol(op: Op): char
  {
    match op
    case Plus => '+'
    case Minus => '-'
    case Times => '*'
    case Divide => '/'
    case Conjugate => '~'
    case Negate => '#'
    case Dup => '!'
    case Drop => ';'
  }

  /** Table lookup; a character with no entry finds nothing. */
  function OpOf(c: char): Option<Op>
  {
    match c
    case '+' => Some(Plus)
    case '-' => Some(Minus)
    case '*' => Some(Times)
    case '/' => Some(Divide)
    case '~' => Some(Conjugate)
    case '#' => Some(Negate)
    case '!' => Some(Dup)
    case ';' => Some(Drop)
    case _ => None
  }

  /** The first character of a token; an empty std::string yields its terminating '\0'. */
  function FirstChar(t: string): char
  {
    if |t| == 0 then '\0' else t[0]
  }

  /**
    * The table entry for `op` applied to the stack `s`, as its lambda does it:
    * binary operators read and pop the top, then read and pop the element beneath,
    * and push the combination; the unary ones work on the top alone.
    */
  function Apply(op: Op, s: seq<Complex>): Result<seq<Complex>, EvalError>
  {
    if op.IsBinary() then
      if |s| < 2 then Err(Underflow)
      else
        var top := Top(s);
        var s1 := WithoutTop(s);
        var below := Top(s1);
        var s2 := WithoutTop(s1);
        match op
        case Plus => Ok(Pushed(s2, Add(top, below)))
        case Minus => Ok(Pushed(s2, Sub(below, top)))
        case Times => Ok(Pushed(s2, Mul(below, top)))
        case Divide =>
          if Abs2(top) == 0.0 then Err(DivisionByZero) else Ok(Pushed(s2, Div(below, top)))
    else if |s| < 1 then Err(Underflow)
    else
      var top := Top(s);
      match op
      case Conjugate => Ok(Pushed(WithoutTop(s), Conj(top)))
      case Negate => Ok(Pushed(WithoutTop(s), Neg(top)))
      case Dup => Ok(Pushed(s, top))
      case Drop => Ok(WithoutTop(s))
  }

  /** One token: 'z' pushes the bound value, '(' a parsed literal, anything else is an operator. */
  function Step(t: string, z: Complex, parse: string -> Complex, s: seq<Complex>): Result<seq<Complex>, EvalError>
  {
    var c := FirstChar(t);
    if c == 'z' then Ok(Pushed(s, z))
    else if c == '(' then Ok(Pushed(s, parse(t)))
    else match OpOf(c)
      case None => Err(UnknownOperator(c))
      case Some(op) => Apply(op, s)
  }

  /** The tokens `ts` applied in order to the stack `s`; the first failure ends the run. */
  function Run(ts: seq<string>, z: Complex, parse: string -> Complex, s: seq<Complex>): Result<seq<Complex>, EvalError>
    decreases |ts|
  {
    if ts == [] then Ok(s)
    else match Step(ts[0], z, parse, s)
      case Err(e) => Err(e)
      case Ok(s1) => Run(ts[1..], z, parse, s1)
  }

  /** eval(args, z): run the tokens from an empty stack and read the top of what is left. */
  function Evaluate(ts: seq<string>, z: Complex, parse: string -> Complex): Result<Complex, EvalError>
  {
    match Run(ts, z, parse, [])
    case Err(e) => Err(e)
    case Ok(s) => if |s| == 0 then Err(Underflow) else Ok(Top(s))
  }

  // ---------------------------------------------------------------------
  // Reference semantics and properties

  /** How many values an operator needs on the stack. */
  function Arity(op: Op): nat
  {
    if op.IsBinary() then 2 else 1
  }

  /** "first OP second": the element pushed earlier is the left-hand operand. */
  function Combine(op: Op, first: Complex, second: Complex): Complex
    requires op.IsBinary()
    requires op == Divide ==> Abs2(second) != 0.0
  {
    match op
    case Plus => Add(first, second)
    case Minus => Sub(first, second)
    case Times => Mul(first, second)
    case Divide => Div(first, second)
  }

  /** The table maps exactly the eight operator characters, each to its own tag. */
  lemma OperatorTable(c: char, op: Op)
    ensures OpOf(c) == Some(op) <==> Symbol(op) == c
    ensures OpOf(c).None? <==> c !in "+-*/~#!;"
  {
  }

  /**
    * A binary operator fails with Underflow exactly below depth 2, and otherwise
    * only a division whose top has zero magnitude fails.
    */
  lemma BinaryOperatorFails(op: Op, s: seq<Complex>)
    requires op.IsBinary()
    ensures Apply(op, s) == Err(Underflow) <==> |s| < 2
    ensures Apply(op, s) == Err(DivisionByZero) <==> |s| >= 2 && op == Divide && Abs2(s[|s| - 1]) == 0.0
    ensures Apply(op, s).Ok? <==> |s| >= 2 && (op == Divide ==> Abs2(s[|s| - 1]) != 0.0)
  {
    if |s| >= 2 {
      assert Top(s) == s[|s| - 1];
      if op == Divide {
        if Abs2(s[|s| - 1]) == 0.0 {
          assert Apply(op, s) == Err(DivisionByZero);
        } else {
          assert Apply(op, s).Ok?;
        }
      } else {
        assert Apply(op, s).Ok?;
      }
    }
  }

  /**
    * A binary operator that succeeds lowers the depth by one, keeps every element
    * under its two operands, and leaves "beneath OP top" on top: the element
    * pushed earlier is the left operand (for + the source adds the top to the
    * element beneath, which is the same sum).
    */
  lemma BinaryOperatorResult(op: Op, s: seq<Complex>)
    requires op.IsBinary() && Apply(op, s).Ok?
    ensures |s| >= 2 && (op == Divide ==> Abs2(s[|s| - 1]) != 0.0)
    ensures var r := Apply(op, s).value;
            |r| == |s| - 1 && r[..|s| - 2] == s[..|s| - 2] &&
            r[|s| - 2] == Combine(op, s[|s| - 2], s[|s| - 1])
  {
    BinaryOperatorFails(op, s);
    var top, below, rest := s[|s| - 1], s[|s| - 2], s[..|s| - 2];
    assert Top(WithoutTop(s)) == below;
    assert WithoutTop(WithoutTop(s)) == rest;
    var r := Apply(op, s).value;
    match op {
      case Plus =>
        AddCommutes(top, below);
        assert r == rest + [Add(below, top)];
      case Minus =>
        assert r == rest + [Sub(below, top)];
      case Times =>
        assert r == rest + [Mul(below, top)];
      case Divide =>
        assert r == rest + [Div(below, top)];
    }
  }

  /**
    * A stack-shaping operator fails with Underflow exactly on the empty stack;
    * otherwise it touches only the top: ~ and # replace it by its conjugate or
    * negation, ! pushes a copy of it, ; drops it.
    */
  lemma UnaryOperator(op: Op, s: seq<Complex>)
    requires !op.IsBinary()
    ensures Apply(op, s) == Err(Underflow) <==> |s| == 0
    ensures Apply(op, s).Ok? || Apply(op, s) == Err(Underflow)
    ensures |s| > 0 ==>
              var r := Apply(op, s).value;
              var rest := s[..|s| - 1];
              match op
              case Conjugate => r == rest + [Conj(s[|s| - 1])]
              case Negate => r == rest + [Neg(s[|s| - 1])]
              case Dup => |r| == |s| + 1 && r[..|s|] == s && r[|s|] == s[|s| - 1]
              case Drop => r == rest
  {
  }

  /** Apply fails with Underflow exactly when the stack is shallower than the arity. */
  lemma UnderflowIffShallow(op: Op, s: seq<Complex>)
    ensures Apply(op, s) == Err(Underflow) <==> |s| < Arity(op)
  {
    if op.IsBinary() {
      BinaryOperatorFails(op, s);
    } else {
      UnaryOperator(op, s);
    }
  }

  /**
    * Dispatch reads only the first character: 'z' pushes the bound value, '('
    * pushes the parsed token, any other character is looked up in the table and
    * fails when the table has no entry for it; two tokens that are not literals
    * and share their first character act alike.
    */
  lemma StepDispatch(t: string, u: string, z: Complex, parse: string -> Complex, s: seq<Complex>)
    ensures FirstChar(t) == 'z' ==> Step(t, z, parse, s) == Ok(s + [z])
    ensures FirstChar(t) == '(' ==> Step(t, z, parse, s) == Ok(s + [parse(t)])
    ensures FirstChar(t) != 'z' && FirstChar(t) != '(' && OpOf(FirstChar(t)).None? ==>
              Step(t, z, parse, s) == Err(UnknownOperator(FirstChar(t)))
    ensures FirstChar(t) == FirstChar(u) && FirstChar(t) != '(' ==>
              Step(t, z, parse, s) == Step(u, z, parse, s)
  {
  }

  /** Running two token sequences one after the other is running their concatenation. */
  lemma {:induction false} RunAppend(ts: seq<string>, us: seq<string>, z: Complex, parse: string -> Complex, s: seq<Complex>)
    ensures Run(ts, z, parse, s).Err? ==> Run(ts + us, z, parse, s) == Run(ts, z, parse, s)
    ensures Run(ts, z, parse, s).Ok? ==> Run(ts + us, z, parse, s) == Run(us, z, parse, Run(ts, z, parse, s).value)
    decreases |ts|
  {
    if ts == [] {
      assert ts + us == us;
    } else {
      assert (ts + us)[0] == ts[0];
      assert (ts + us)[1..] == ts[1..] + us;
      match Step(ts[0], z, parse, s)
      case Err(e) =>
      case Ok(s1) => RunAppend(ts[1..], us, z, parse, s1);
    }
  }

  /** The stack primitives work on the top end only, whatever lies beneath. */
  lemma StackFrame(base: seq<Complex>, s: seq<Complex>, x: Complex)
    ensures Pushed(base + s, x) == base + Pushed(s, x)
    ensures |s| > 0 ==> Top(base + s) == Top(s) && WithoutTop(base + s) == base + WithoutTop(s)
  {
    assert (base + s) + [x] == base + (s + [x]);
    if |s| > 0 {
      assert (base + s)[..|base + s| - 1] == base + s[..|s| - 1];
    }
  }

  /** Operators reach only the elements they need: values beneath are carried along. */
  lemma ApplyFrame(op: Op, base: seq<Complex>, s: seq<Complex>)
    requires Apply(op, s).Ok?
    ensures Apply(op, base + s) == Ok(base + Apply(op, s).value)
  {
    UnderflowIffShallow(op, s);
    var top := Top(s);
    var s1 := WithoutTop(s);
    StackFrame(base, s, top);
    if op.IsBinary() {
      var below := Top(s1);
      var s2 := WithoutTop(s1);
      var x := match op
        case Plus => Add(top, below)
        case Minus => Sub(below, top)
        case Times => Mul(below, top)
        case Divide => if Abs2(top) == 0.0 then Zero else Div(below, top);
      StackFrame(base, s1, x);
      StackFrame(base, s2, x);
      assert Apply(op, s) == Ok(Pushed(s2, x));
    } else {
      var x := match op
        case Conjugate => Conj(top)
        case Negate => Neg(top)
        case _ => top;
      StackFrame(base, s1, x);
    }
  }

  /**
    * A successful run never looks below the stack it started from: started on
    * top of any `base`, it ends with `base` intact beneath the same result.
    */
  lemma {:induction false} RunFrame(ts: seq<string>, z: Complex, parse: string -> Complex, base: seq<Complex>, s: seq<Complex>)
    requires Run(ts, z, parse, s).Ok?
    ensures Run(ts, z, parse, base + s) == Ok(base + Run(ts, z, parse, s).value)
    decreases |ts|
  {
    if ts != [] {
      var c := FirstChar(ts[0]);
      var s1 := Step(ts[0], z, parse, s).value;
      if c == 'z' || c == '(' {
        var x := if c == 'z' then z else parse(ts[0]);
        assert s1 == s + [x];
        assert (base + s) + [x] == base + (s + [x]);
        assert Step(ts[0], z, parse, base + s) == Ok(base + s1);
      } else {
        ApplyFrame(OpOf(c).value, base, s);
      }
      RunFrame(ts[1..], z, parse, base, s1);
    }
  }

  /**
    * The result is the top of the final stack, and an empty final stack fails.
    * That values beneath the top do not influence the result is
    * EvaluateLastExpression below.
    */
  lemma EvaluateReadsTop(ts: seq<string>, z: Complex, parse: string -> Complex, v: Complex)
    ensures Evaluate(ts, z, parse) == Ok(v) <==>
              Run(ts, z, parse, []).Ok? && |Run(ts, z, parse, []).value| > 0 &&
              Run(ts, z, parse, []).value[|Run(ts, z, parse, []).value| - 1] == v
  {
  }

  /** Appending a complete expression yields that expression's value, whatever came before. */
  lemma {:induction false} EvaluateLastExpression(ts: seq<string>, us: seq<string>, z: Complex, parse: string -> Complex)
    requires Run(ts, z, parse, []).Ok?
    requires Evaluate(us, z, parse).Ok?
    ensures Evaluate(ts + us, z, parse) == Evaluate(us, z, parse)
  {
    var s := Run(ts, z, parse, []).value;
    RunAppend(ts, us, z, parse, []);
    RunFrame(us, z, parse, s, []);
    assert s + [] == s;
  }

  // ---------------------------------------------------------------------
  // Worked evaluations; a literal's value is whatever `parse` gives for it.

  /** ["z"] evaluates to exactly the bound value. */
  lemma EvaluateVariable(z: Complex, parse: string -> Complex)
    ensures Evaluate(["z"], z, parse) == Ok(z)
  {
    assert Run(["z"], z, parse, []) == Ok([z]) by {
      assert ["z"][1..] == [];
    }
  }

  /** A literal token pushes whatever `parse` makes of it. */
  lemma RunLiteral(t: string, ts: seq<string>, z: Complex, parse: string -> Complex, s: seq<Complex>)
    requires |t| > 0 && t[0] == '('
    ensures Run([t] + ts, z, parse, s) == Run(ts, z, parse, s + [parse(t)])
  {
    assert ([t] + ts)[0] == t && ([t] + ts)[1..] == ts;
  }

  /** An operator token applies its table entry; only its first character is looked at. */
  lemma RunOperator(t: string, op: Op, ts: seq<string>, z: Complex, parse: string -> Complex, s: seq<Complex>)
    requires FirstChar(t) == Symbol(op)
    ensures Apply(op, s).Err? ==> Run([t] + ts, z, parse, s) == Err(Apply(op, s).error)
    ensures Apply(op, s).Ok? ==> Run([t] + ts, z, parse, s) == Run(ts, z, parse, Apply(op, s).value)
  {
    assert ([t] + ts)[0] == t && ([t] + ts)[1..] == ts;
    assert OpOf(Symbol(op)) == Some(op);
    assert Step(t, z, parse, s) == Apply(op, s);
  }

  /** (1,0) (2,0) + evaluates to (3,0). */
  lemma EvaluateSum(z: Complex, parse: string -> Complex)
    requires parse("(1,0)") == Complex(1.0, 0.0) && parse("(2,0)") == Complex(2.0, 0.0)
    ensures Evaluate(["(1,0)", "(2,0)", "+"], z, parse) == Ok(Complex(3.0, 0.0))
  {
    var a, b, c := Complex(1.0, 0.0), Complex(2.0, 0.0), Complex(3.0, 0.0);
    var t3: seq<string> := ["+"] + [];
    var t2 := ["(2,0)"] + t3;
    var ts := ["(1,0)"] + t2;
    assert ts == ["(1,0)", "(2,0)", "+"];
    RunLiteral("(1,0)", t2, z, parse, []);
    assert [] + [a] == [a];
    RunLiteral("(2,0)", t3, z, parse, [a]);
    assert [a] + [b] == [a, b];
    RunOperator("+", Plus, [], z, parse, [a, b]);
    assert Apply(Plus, [a, b]) == Ok([c]);
    assert Run(ts, z, parse, []) == Ok([c]);
  }

  /** (5,0) (2,0) - evaluates to (3,0): the element pushed earlier is the minuend. */
  lemma EvaluateDifferenceOrder(z: Complex, parse: string -> Complex)
    requires parse("(5,0)") == Complex(5.0, 0.0) && parse("(2,0)") == Complex(2.0, 0.0)
    ensures Evaluate(["(5,0)", "(2,0)", "-"], z, parse) == Ok(Complex(3.0, 0.0))
  {
    var a, b, c := Complex(5.0, 0.0), Complex(2.0, 0.0), Complex(3.0, 0.0);
    var t3: seq<string> := ["-"] + [];
    var t2 := ["(2,0)"] + t3;
    var ts := ["(5,0)"] + t2;
    assert ts == ["(5,0)", "(2,0)", "-"];
    RunLiteral("(5,0)", t2, z, parse, []);
    assert [] + [a] == [a];
    RunLiteral("(2,0)", t3, z, parse, [a]);
    assert [a] + [b] == [a, b];
    RunOperator("-", Minus, [], z, parse, [a, b]);
    assert Apply(Minus, [a, b]) == Ok([c]);
    assert Run(ts, z, parse, []) == Ok([c]);
  }

  /** ; discards the top: (1,0) (2,0) (3,0) ; leaves (2,0) on top (a rotation would bring up (1,0)). */
  lemma EvaluateDropDiscardsTop(z: Complex, parse: string -> Complex)
    requires parse("(1,0)") == Complex(1.0, 0.0)
    requires parse("(2,0)") == Complex(2.0, 0.0)
    requires parse("(3,0)") == Complex(3.0, 0.0)
    ensures Evaluate(["(1,0)", "(2,0)", "(3,0)", ";"], z, parse) == Ok(Complex(2.0, 0.0))
  {
    var a, b, c := Complex(1.0, 0.0), Complex(2.0, 0.0), Complex(3.0, 0.0);
    var t4: seq<string> := [";"] + [];
    var t3 := ["(3,0)"] + t4;
    var t2 := ["(2,0)"] + t3;
    var ts := ["(1,0)"] + t2;
    assert ts == ["(1,0)", "(2,0)", "(3,0)", ";"];
    calc {
      Run(ts, z, parse, []);
      { RunLiteral("(1,0)", t2, z, parse, []); assert [] + [a] == [a]; }
      Run(t2, z, parse, [a]);
      { RunLiteral("(2,0)", t3, z, parse, [a]); assert [a] + [b] == [a, b]; }
      Run(t3, z, parse, [a, b]);
      { RunLiteral("(3,0)", t4, z, parse, [a, b]); assert [a, b] + [c] == [a, b, c]; }
      Run(t4, z, parse, [a, b, c]);
      { RunOperator(";", Drop, [], z, parse, [a, b, c]);
        assert Pushed([a, b], c) == [a, b, c]; }
      Ok([a, b]);
    }
  }

  /** ["+"] on the empty stack underflows. */
  lemma EvaluateUnderflow(z: Complex, parse: string -> Complex)
    ensures Evaluate(["+"], z, parse) == Err(Underflow)
  {
    assert Step("+", z, parse, []) == Err(Underflow);
  }

  /** (1,0) ? fails: '?' has no entry in the table. */
  lemma EvaluateUnknownOperator(z: Complex, parse: string -> Complex)
    ensures Evaluate(["(1,0)", "?"], z, parse) == Err(UnknownOperator('?'))
  {
    var ts := ["(1,0)", "?"];
    assert ts[1..] == ["?"];
    assert Step("?", z, parse, [parse("(1,0)")]) == Err(UnknownOperator('?'));
  }

  // ---------------------------------------------------------------------
  // The evaluator over the stack class

  /** The lambda of the table entry `op`, run on the stack object `st`. */
  method ApplyOp(op: Op, st: ComplexStack) returns (r: Result<ComplexStack, EvalError>)
    requires st.Valid()
    ensures Apply(op, st.Contents()).Err? ==> r == Err(Apply(op, st.Contents()).error)
    ensures Apply(op, st.Contents()).Ok? ==>
              r.Ok? && r.value.Valid() && r.value.Contents() == Apply(op, st.Contents()).value
  {
    if op.IsBinary() {
      if st.Size() < 2 {
        return Err(Underflow);
      }
      var top := st.Peek();
      var s := st.Pop();
      var below := s.Peek();
      s := s.Pop();
      match op {
        case Plus =>
          s := s.Push(Add(top, below));
        case Minus =>
          s := s.Push(Sub(below, top));
        case Times =>
          s := s.Push(Mul(below, top));
        case Divide =>
          if Abs2(top) == 0.0 {
            return Err(DivisionByZero);
          }
          s := s.Push(Div(below, top));
      }
      return Ok(s);
    }
    if st.Size() < 1 {
      return Err(Underflow);
    }
    var top := st.Peek();
    var s := st;
    match op {
      case Conjugate =>
        s := st.Pop();
        s := s.Push(Conj(top));
      case Negate =>
        s := st.Pop();
        s := s.Push(Neg(top));
      case Dup =>
        s := st.Push(top);
      case Drop =>
        s := st.Pop();
    }
    return Ok(s);
  }

  /** eval: the token loop over a fresh stack, then the top of the final stack. */
  method Eval(tokens: seq<string>, z: Complex, parse: string -> Complex) returns (r: Result<Complex, EvalError>)
    ensures r == Evaluate(tokens, z, parse)
  {
    var stack := new ComplexStack(0);
    assert stack.Contents() == [];
    var i := 0;
    while i < |tokens|
      invariant 0 <= i <= |tokens|
      invariant stack.Valid()
      invariant Run(tokens, z, parse, []) == Run(tokens[i..], z, parse, stack.Contents())
    {
      assert tokens[i..][0] == tokens[i] && tokens[i..][1..] == tokens[i + 1..];
      var c := FirstChar(tokens[i]);
      if c == 'z' {
        stack := stack.Push(z);
      } else if c == '(' {
        stack := stack.Push(parse(tokens[i]));
      } else {
        match OpOf(c)
        case None =>
          return Err(UnknownOperator(c));
        case Some(op) =>
          var next := ApplyOp(op, stack);
          if next.Err? {
            return Err(next.error);
          }
          stack := next.value;
      }
      i := i + 1;
    }
    if stack.Size() == 0 {
      return Err(Underflow);
    }
    r := Ok(stack.Peek());
  }
}
