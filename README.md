# Complex RPN evaluator — a Dafny model

The program estimates a contour integral of a function given as a postfix
(RPN) expression over complex numbers. This project models its core: the
`numbers::complex` value type, the value-semantics `numbers::complex_stack`,
whose operators copy into a new buffer, and the evaluator `numbers::eval`. `eval` runs a token list against a fresh
stack and returns the top of the final stack.

Modules:

- `Results`: `Option` and `Result`.
- `ComplexNumbers`:
  - `Complex`, a value over exact reals, with the formulas of the free
    operators (`Add`, `Sub`, `Mul`, `Div`), `Conj` (`~`), `Neg` (unary `-`)
    and `Abs2`.
  - The class `ComplexVar`, whose methods are the compound assignments
    `+= -= *= /=` updating the two fields in place.
  - The free binary operators as methods (`Sum`, `Difference`, `Product`,
    `Quotient`). Each copies its left operand and applies the compound
    assignment to the copy.
- `ComplexStacks`:
  - The abstract stack `seq<Complex>` (top last) with `Top`, `WithoutTop`
    and `Pushed`.
  - The class `ComplexStack`: an `array` buffer one slot longer than the
    length. Its `~` (`Pop`) and `<<` (`Push`) build a new stack with a copy
    loop and leave the receiver unchanged.
- `RpnEval`:
  - The operator table, as the tags `Op`, their characters (`Symbol`) and
    the lookup `OpOf`.
  - `Apply`, one table entry on an abstract stack.
  - `Step`, one token dispatched on its first character.
  - `Run`, a token list.
  - `Evaluate`, the whole of `eval`.
  - The method `ApplyOp`, one table entry run on a `ComplexStack`.
  - The method `Eval`, the token loop over a `ComplexStack`, proved equal
    to `Evaluate`.

Decisions taken from the code:

- The `+` entry pops the top into `z1` and the element beneath into `z2`,
  then pushes `z1 + z2`. The other binary entries compute
  `beneath OP top`. The model keeps that order, and `BinaryOperatorResult`
  shows that every binary operator, `+` included, leaves `beneath OP top`.
- The `;` entry drops the top element (`stack = ~stack`, main.cpp:205-207);
  it does not rotate the stack. `EvaluateDropDiscardsTop` pins this down.
- An empty token's first character is the terminating `'\0'` of
  `std::string`, which has no table entry.
- A character with no table entry calls an empty `std::function` through
  `std::map::operator[]`, and that throws. The model reports this as
  `Err(UnknownOperator(c))`.
- Reading or popping an empty stack is undefined behaviour in the source:
  `len - 1` on a `size_t`. The model makes it `Err(Underflow)`.
- Dividing by a value of zero magnitude gives infinities or NaN in IEEE
  doubles. The evaluator model makes it `Err(DivisionByZero)`.
- A literal token is converted by `sscanf` in the `complex(std::string)`
  constructor. The model takes that conversion as a parameter
  `parse: string -> Complex`.

## Model

| member | source | states |
|---|---|---|
| ComplexNumbers.Abs2ZeroOnlyAtOrigin | main.cpp:40-42 | abs2 is never negative and is zero exactly at the origin (0,0) |
| ComplexNumbers.Sub | main.cpp:83-87 | the difference a − b is the value that adding b back turns into a |
| ComplexNumbers.Conj | main.cpp:70-72 | ~ keeps the real part and negates the imaginary part; a + ~a is real and a − ~a is purely imaginary |
| ComplexNumbers.Neg | main.cpp:73-75 | unary − is the additive inverse: a + (−a) = 0 and 0 − a = −a |
| ComplexNumbers.AddCommutes | main.cpp:78-82 | the free + is commutative |
| ComplexNumbers.AddAssociates | main.cpp:78-82 | the free + is associative |
| ComplexNumbers.MulCommutes | main.cpp:88-92 | the free * is commutative |
| ComplexNumbers.SubIsAddNeg | main.cpp:83-87 | a − b equals a + (−b) |
| ComplexNumbers.MulConj | main.cpp:56-62 | a * ~a is the real number abs2(a) |
| ComplexNumbers.Abs2Mul | main.cpp:56-62 | abs2(a * b) = abs2(a) · abs2(b) |
| ComplexNumbers.DivUndoesMul | main.cpp:63-69 | (a * b) / b = a whenever abs2(b) ≠ 0 |
| ComplexNumbers.MulUndoesDiv | main.cpp:63-69 | (a / b) * b = a whenever abs2(b) ≠ 0 |
| ComplexNumbers.UnaryInvolutions | main.cpp:70-75 | applying ~ twice, or unary − twice, gives the value back |
| ComplexNumbers.ComplexVar.constructor | main.cpp:21-24 | the new object holds exactly the given real and imaginary parts |
| ComplexNumbers.ComplexVar.AddAssign | main.cpp:46-50 | the new value is old value + argument, also when the argument is the object itself |
| ComplexNumbers.ComplexVar.SubAssign | main.cpp:51-55 | the new value is old value − argument, also when the argument is the object itself |
| ComplexNumbers.ComplexVar.MulAssign | main.cpp:56-62 | the new value is old value * argument; both parts are computed from the old fields, so self-multiplication is a true square |
| ComplexNumbers.ComplexVar.DivAssign | main.cpp:63-69 | the new value is old value / argument, computed from the old fields |
| ComplexNumbers.Sum | main.cpp:78-82 | a fresh object holding a + b; neither operand changes |
| ComplexNumbers.Difference | main.cpp:83-87 | a fresh object holding a − b; neither operand changes |
| ComplexNumbers.Product | main.cpp:88-92 | a fresh object holding a * b; neither operand changes |
| ComplexNumbers.Quotient | main.cpp:93-97 | a fresh object holding a / b; neither operand changes |
| ComplexStacks.Top | main.cpp:138-140 | the top of a non-empty stack is one of its elements |
| ComplexStacks.WithoutTop | main.cpp:141-147 | popping shortens the stack by one and keeps every element beneath in place |
| ComplexStacks.Pushed | main.cpp:148-155 | pushing b lengthens the stack by one, puts b on top, and popping it gives the old stack back |
| ComplexStacks.PushTopOfWithoutTop | main.cpp:138-155 | a non-empty stack is its top pushed back onto the rest |
| ComplexStacks.ComplexStack.constructor | main.cpp:105-108 | a new stack of `mem` zero values, over a fresh buffer of `mem + 1` slots |
| ComplexStacks.ComplexStack.Size | main.cpp:156-158 | size() is the number of elements held |
| ComplexStacks.ComplexStack.At | main.cpp:120-122 | operator[](i) is the i-th element from the bottom |
| ComplexStacks.ComplexStack.Peek | main.cpp:138-140 | unary + reads the element pushed last |
| ComplexStacks.ComplexStack.Pop | main.cpp:141-147 | ~ returns a new stack with its own fresh buffer, holding every element but the top, in order; the copy loop copies exactly that prefix |
| ComplexStacks.ComplexStack.Push | main.cpp:148-155 | << returns a new stack with its own fresh buffer, holding every element and then b; the copy loop copies the old elements and writes b last |
| RpnEval.OperatorTable | main.cpp:162-208 | the table has exactly the eight entries + - * / ~ # ! ; and each character selects its own operator |
| RpnEval.BinaryOperatorFails | main.cpp:163-190 | a binary entry underflows exactly below depth 2; otherwise only / with a zero-magnitude top fails; it succeeds in all other cases |
| RpnEval.BinaryOperatorResult | main.cpp:163-190 | a successful binary entry lowers the depth by one, keeps all elements under its operands, and leaves beneath OP top on top (for + via commutativity) |
| RpnEval.UnaryOperator | main.cpp:191-207 | ~ # ! ; underflow exactly on the empty stack; otherwise ~ and # replace the top by its conjugate or negation, ! pushes a copy of the top, ; drops the top |
| RpnEval.UnderflowIffShallow | main.cpp:162-208 | every entry underflows exactly when the stack holds fewer values than its arity (2 for + - * /, 1 for the rest) |
| RpnEval.StepDispatch | main.cpp:211-220 | a token is dispatched on its first character only: z pushes the bound value, ( pushes the parsed literal, a character without entry fails |
| RpnEval.RunAppend | main.cpp:210-221 | running two token lists one after the other equals running their concatenation, and a failure in the first ends the run |
| RpnEval.StackFrame | main.cpp:138-155 | top, pop and push reach only the top end of the stack, whatever lies beneath |
| RpnEval.ApplyFrame | main.cpp:162-208 | an entry that succeeds on a stack succeeds on any deeper stack with the extra values left untouched beneath |
| RpnEval.RunFrame | main.cpp:210-221 | a successful token run never looks below the stack it started from |
| RpnEval.EvaluateReadsTop | main.cpp:222 | eval yields v exactly when the run succeeds, leaves a non-empty stack, and v is its top |
| RpnEval.EvaluateLastExpression | main.cpp:210-222 | appending a complete expression to any successful prefix yields that expression's value |
| RpnEval.EvaluateVariable | main.cpp:211-213 | the expression z evaluates to the bound value |
| RpnEval.RunLiteral | main.cpp:214-217 | a token starting with ( pushes its parsed value and the run continues |
| RpnEval.RunOperator | main.cpp:218-220 | a token whose first character is an operator applies its table entry: its failure ends the run, its result is the stack for the remaining tokens |
| RpnEval.EvaluateSum | main.cpp:163-169 | (1,0) (2,0) + evaluates to (3,0) |
| RpnEval.EvaluateDifferenceOrder | main.cpp:170-176 | (5,0) (2,0) - evaluates to (3,0): the value pushed earlier is the minuend |
| RpnEval.EvaluateDropDiscardsTop | main.cpp:205-207 | (1,0) (2,0) (3,0) ; evaluates to (2,0): ; removes the top rather than rotating the stack |
| RpnEval.EvaluateUnderflow | main.cpp:163-169 | + on an empty stack fails with underflow |
| RpnEval.EvaluateUnknownOperator | main.cpp:218-220 | a character without a table entry fails with that character |
| RpnEval.ApplyOp | main.cpp:162-208 | running a table entry's lambda on a stack object gives a stack whose contents are Apply's result, or the same failure |
| RpnEval.Eval | main.cpp:160-223 | the token loop over a stack object returns exactly Evaluate: the top of the stack the tokens leave, or the first failure |

## Left out

- `main` and the contour sampler (argument parsing, sampling points on the circle, the midpoint-rule sum, output) are outside the core.
- `complex::to_string` and `complex::abs` are formatting and a square root; exact reals have no square root, and the squared magnitude `abs2` is modelled instead.
- The `complex(std::string)` constructor calls `sscanf`. The model takes the literal conversion as the parameter `parse` of `Step`, `Run`, `Evaluate` and `Eval`.
- The copy constructor, destructor and `operator=` of `complex_stack`, and `get_stack`, manage memory. In the model a stack is replaced by assigning the reference to the new object (`stack := stack.Push(z)`), with no copy-back into the old buffer and no deallocation.
- Doubles are modelled as exact reals: rounding, overflow, infinities and NaN are not modelled.
- `size_t` wrap-around is not modelled: reading or popping an empty stack becomes `Err(Underflow)`. `int i` compared against `args.size()` is taken as an ordinary index.
- The final stack may hold more than one value; as in the source, the extra values are ignored and only the top is returned.
- ComplexNumbers.ComplexVar.DivAssign: requires a divisor with non-zero abs2, because at zero the source yields IEEE infinities or NaN, which reals cannot represent; the evaluator turns that case into `Err(DivisionByZero)` before dividing.
- ComplexNumbers.Quotient: requires a divisor with non-zero abs2, for the same reason.
- ComplexNumbers.Conj: its first clause restates the formula; what it promises beyond that is that a + ~a is real and a − ~a purely imaginary.
