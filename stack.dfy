/**
  * The value-semantics stack of complex numbers: an array plus a length, whose
  * operators return fresh stacks built by copying and never change their operand.
  */
module ComplexStacks {
  import opened ComplexNumbers

  // ---------------------------------------------------------------------
  // The abstract view: a stack is the sequence of its elements, top last.

  /** Unary + : the top element, the one pushed last. */
  function Top(s: seq<Complex>): (r: Complex)
    requires |s| > 0
    ensures r in s
  {
    s[|s| - 1]
  }

  /** Unary ~ : the stack without its top; every element below is kept in order. */
  function WithoutTop(s: seq<Complex>): (r: seq<Complex>)
    requires |s| > 0
    ensures |r| == |s| - 1
    ensures forall i :: 0 <= i < |r| ==> r[i] == s[i]
  {
    s[..|s| - 1]
  }

  /** Operator << : the stack with `b` on top; popping it gives back `s`. */
  function Pushed(s: seq<Complex>, b: Complex): (r: seq<Complex>)
    ensures |r| == |s| + 1
    ensures Top(r) == b && WithoutTop(r) == s
  {
    s + [b]
  }

  /** A non-empty stack is its top pushed onto the rest. */
  lemma PushTopOfWithoutTop(s: seq<Complex>)
    requires |s| > 0
    ensures Pushed(WithoutTop(s), Top(s)) == s
  {
  }

  // ---------------------------------------------------------------------
  // The class itself

  class ComplexStack {
    var buf: array<Complex>
    var len: nat

    /** The buffer always has one slot more than the length (`new complex[mem + 1]`). */
    ghost predicate Valid()
      reads this
    {
      len < buf.Length
    }

    /** The elements bottom to top. */
    ghost function Contents(): seq<Complex>
      reads this, buf
      requires Valid()
    {
      buf[..len]
    }

    /** complex_stack(size_t mem = 0): `mem` default-constructed (zero) elements. */
    constructor (mem: nat)
      ensures Valid() && fresh(buf) && buf.Length == mem + 1
      ensures Contents() == seq(mem, _ => Zero)
    {
      buf := new Complex[mem + 1](_ => Zero);
      len := mem;
    }

    /** size(). */
    function Size(): (n: nat)
      reads this, buf
      requires Valid()
      ensures n == |Contents()|
    {
      len
    }

    /** operator[](i): the i-th element from the bottom. */
    function At(i: nat): (r: Complex)
      reads this, buf
      requires Valid() && i < |Contents()|
      ensures r == Contents()[i]
    {
      buf[i]
    }

    /** Unary + : the top element; the stack must not be empty. */
    function Peek(): (r: Complex)
      reads this, buf
      requires Valid() && |Contents()| > 0
      ensures r == Top(Contents())
    {
      buf[len - 1]
    }

    /** Unary ~ : a new stack holding all elements but the top; this one is unchanged. */
    method Pop() returns (res: ComplexStack)
      requires Valid() && |Contents()| > 0
      ensures fresh(res) && fresh(res.buf)
      ensures res.Valid() && res.Contents() == WithoutTop(Contents())
    {
      res := new ComplexStack(len - 1);
      var i := 0;
      while i < len - 1
        invariant 0 <= i <= len - 1
        invariant res.Valid() && res.len == len - 1 && fresh(res.buf)
        invariant res.buf[..i] == buf[..i]
      {
        res.buf[i] := buf[i];
        i := i + 1;
      }
      assert res.Contents() == res.buf[..i];
    }

    /** Operator << : a new stack holding these elements and `b` on top; this one is unchanged. */
    method Push(b: Complex) returns (res: ComplexStack)
      requires Valid()
      ensures fresh(res) && fresh(res.buf)
      ensures res.Valid() && res.Contents() == Pushed(Contents(), b)
    {
      res := new ComplexStack(len + 1);
      var i := 0;
      while i < len
        invariant 0 <= i <= len
        invariant res.Valid() && res.len == len + 1 && fresh(res.buf)
        invariant res.buf[..i] == buf[..i]
      {
        res.buf[i] := buf[i];
        i := i + 1;
      }
      res.buf[len] := b;
      assert res.Contents() == res.buf[..len] + [b];
    }
  }
}
