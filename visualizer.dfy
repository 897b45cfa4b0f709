/** The replay engine of the visualizer: two mutable integer lists updated in
    place by each instruction, and the loop that feeds them the solver's
    output one token at a time. */
module Visualizer {
  import opened Ops
  import opened Engine
  import opened SolverOutput

  /** A mutable list of integers, index 0 being the top, with the list
      operations the instruction interpreter uses. */
  class Stack {
    var elems: seq<int>

    constructor (init: seq<int>)
      ensures elems == init
    {
      elems := init;
    }

    /** Exchanges the first two entries by index assignment. */
    method SwapFirstTwo()
      requires |elems| > 1
      modifies this
      ensures elems == SwapTop(old(elems))
    {
      SwapFirstTwoIsSwapTop(elems);
      elems := elems[0 := elems[1]][1 := elems[0]];
    }

    /** Removes and returns the first entry. */
    method PopFirst() returns (x: int)
      requires |elems| > 0
      modifies this
      ensures x == old(elems)[0] && elems == old(elems)[1..]
    {
      x := elems[0];
      elems := elems[1..];
    }

    /** Removes and returns the last entry. */
    method PopLast() returns (x: int)
      requires |elems| > 0
      modifies this
      ensures x == old(elems)[|old(elems)| - 1] && elems == old(elems)[..|old(elems)| - 1]
    {
      x := elems[|elems| - 1];
      elems := elems[..|elems| - 1];
    }

    /** Inserts an entry in front of the first. */
    method InsertFirst(x: int)
      modifies this
      ensures elems == [x] + old(elems)
    {
      elems := [x] + elems;
    }

    /** Adds an entry after the last. */
    method Append(x: int)
      modifies this
      ensures elems == old(elems) + [x]
    {
      elems := elems + [x];
    }

    /** Pops the first entry and appends it: the top moves to the bottom. */
    method Rotate()
      requires |elems| > 0
      modifies this
      ensures elems == RotateUp(old(elems))
    {
      var x := PopFirst();
      Append(x);
    }

    /** Pops the last entry and inserts it in front: the bottom moves to the top. */
    method ReverseRotate()
      requires |elems| > 0
      modifies this
      ensures elems == RotateDown(old(elems))
    {
      var x := PopLast();
      InsertFirst(x);
    }
  }

  /** Pops the first entry of `src` and inserts it in front of `dst`. */
  method Push(src: Stack, dst: Stack)
    requires src != dst && |src.elems| > 0
    modifies src, dst
    ensures dst.elems == [old(src.elems)[0]] + old(dst.elems)
    ensures src.elems == old(src.elems)[1..]
  {
    var x := src.PopFirst();
    dst.InsertFirst(x);
  }

  /** `ss`: swap the top two of each list that has at least two. */
  method SwapEach(a: Stack, b: Stack)
    requires a != b
    modifies a, b
    ensures a.elems == SwapTop(old(a.elems)) && b.elems == SwapTop(old(b.elems))
  {
    if |a.elems| > 1 {
      a.SwapFirstTwo();
    }
    if |b.elems| > 1 {
      b.SwapFirstTwo();
    }
  }

  /** `rr`: rotate each non-empty list. */
  method RotateEach(a: Stack, b: Stack)
    requires a != b
    modifies a, b
    ensures a.elems == RotateUp(old(a.elems)) && b.elems == RotateUp(old(b.elems))
  {
    if |a.elems| > 0 {
      a.Rotate();
    }
    if |b.elems| > 0 {
      b.Rotate();
    }
  }

  /** `rrr`: reverse-rotate each non-empty list. */
  method ReverseRotateEach(a: Stack, b: Stack)
    requires a != b
    modifies a, b
    ensures a.elems == RotateDown(old(a.elems)) && b.elems == RotateDown(old(b.elems))
  {
    if |a.elems| > 0 {
      a.ReverseRotate();
    }
    if |b.elems| > 0 {
      b.ReverseRotate();
    }
  }

  /** Exchanging the first two entries by index assignment is SwapTop. */
  lemma SwapFirstTwoIsSwapTop(xs: seq<int>)
    requires |xs| > 1
    ensures xs[0 := xs[1]][1 := xs[0]] == SwapTop(xs)
  {
    assert forall k | 0 <= k < |xs| :: xs[0 := xs[1]][1 := xs[0]][k] == SwapTop(xs)[k];
  }

  /** Applies one token to the two lists in place, following the chain of
      guarded cases; a token outside the vocabulary, or one whose guard fails,
      leaves both lists as they were. The new state is the transition `Apply`
      of the decoded token. */
  method ApplyInstruction(inst: string, a: Stack, b: Stack)
    requires a != b
    modifies a, b
    ensures Stacks(a.elems, b.elems) == Apply(Decode(inst), Stacks(old(a.elems), old(b.elems)))
  {
    ghost var s := Stacks(a.elems, b.elems);
    ghost var op := Decode(inst);
    if inst == "sa" && |a.elems| > 1 {
      assert op == SA;
      a.SwapFirstTwo();
    } else if inst == "sb" && |b.elems| > 1 {
      assert op == SB;
      b.SwapFirstTwo();
    } else if inst == "ss" {
      assert op == SS;
      SwapEach(a, b);
    } else if inst == "pa" && |b.elems| > 0 {
      assert op == PA;
      Push(b, a);
    } else if inst == "pb" && |a.elems| > 0 {
      assert op == PB;
      Push(a, b);
    } else if inst == "ra" && |a.elems| > 0 {
      assert op == RA;
      a.Rotate();
    } else if inst == "rb" && |b.elems| > 0 {
      assert op == RB;
      b.Rotate();
    } else if inst == "rr" {
      assert op == RR;
      RotateEach(a, b);
    } else if inst == "rra" && |a.elems| > 0 {
      assert op == RRA;
      a.ReverseRotate();
    } else if inst == "rrb" && |b.elems| > 0 {
      assert op == RRB;
      b.ReverseRotate();
    } else if inst == "rrr" {
      assert op == RRR;
      ReverseRotateEach(a, b);
    } else {
      NoCaseMatches(inst, s);
    }
  }

  /** Seeds stack A with the input and stack B empty, reads the solver's
      output in text mode, splits it into tokens and applies them in order.
      The final stacks are the replay of those tokens, hold exactly the input
      values, and equal the initial stacks when the output is empty or
      whitespace only. */
  method Run(input: seq<int>, raw: string) returns (finalA: seq<int>, finalB: seq<int>)
    ensures Stacks(finalA, finalB) == Replay(Tokens(Capture(raw)), Stacks(input, []))
    ensures multiset(finalA) + multiset(finalB) == multiset(input)
    ensures |finalA| + |finalB| == |input|
    ensures AllSpace(raw) ==> finalA == input && finalB == []
  {
    var stackA := new Stack(input);
    var stackB := new Stack([]);
    ghost var start := Stacks(input, []);
    var instructions := Capture(raw);
    var ops := Tokens(instructions);
    for i := 0 to |ops|
      invariant Stacks(stackA.elems, stackB.elems) == Replay(ops[..i], start)
    {
      ApplyInstruction(ops[i], stackA, stackB);
      ReplayStep(ops, i, start);
    }
    assert ops[..|ops|] == ops;
    finalA, finalB := stackA.elems, stackB.elems;
    assert Stacks(finalA, finalB) == Replay(ops, start);
    ReplayConserves(ops, start);
    CaptureBlank(raw);
  }

  /** The solver output "sa" followed by a newline is the one token "sa". */
  lemma SwapLineTokens()
    ensures Tokens("sa\n") == ["sa"]
  {
    assert StripLeading("sa\n") == "sa\n" by {
      assert "sa\n"[0] == 's' && !IsSpace('s');
    }
    assert StripTrailing("sa\n") == "sa" by {
      assert "sa\n"[..2] == "sa" && IsSpace('\n');
      assert "sa"[1] == 'a' && !IsSpace('a');
    }
    SplitSingle("sa");
  }

  /** Input 2 1 3 with solver output "sa": one swap sorts A and leaves B empty. */
  lemma SwapSortsThree()
    ensures Replay(Tokens("sa\n"), Stacks([2, 1, 3], [])) == Stacks([1, 2, 3], [])
  {
    var start := Stacks([2, 1, 3], []);
    SwapLineTokens();
    assert Replay(["sa"], start) == Apply(SA, start) by {
      ReplayStep(["sa"], 0, start);
      assert ["sa"][..1] == ["sa"] && ["sa"][..0] == [];
    }
    assert SwapTop([2, 1, 3]) == [1, 2, 3];
  }

  /** Output whose line ends in CR LF reads as the same text with LF alone, so
      input 2 1 3 is still sorted by its single swap. */
  lemma CrLfLineSortsThree()
    ensures Replay(Tokens(Capture("sa\r\n")), Stacks([2, 1, 3], [])) == Stacks([1, 2, 3], [])
  {
    CaptureCrLf("sa", []);
    assert "sa" + "\r\n" + [] == "sa\r\n";
    assert "sa" + "\n" + Capture([]) == "sa\n";
    SwapSortsThree();
  }

  /** A lone CR separates lines just as LF does. */
  lemma LoneCarriageReturnSeparates()
    ensures Tokens(Capture("sa\rra")) == ["sa", "ra"]
  {
    LoneCarriageReturnCapture();
    TwoLineTokens();
  }

  lemma LoneCarriageReturnCapture()
    ensures Capture("sa\rra") == "sa\nra"
  {
    assert Capture("ra") == "ra" by {
      assert '\r' !in "ra";
    }
    assert Capture("sa" + "\r" + "ra") == "sa" + "\n" + "ra" by {
      CaptureLoneCr("sa", "ra");
    }
    assert "sa" + "\r" + "ra" == "sa\rra" && "sa" + "\n" + "ra" == "sa\nra";
  }

  lemma TwoLineTokens()
    ensures Tokens("sa\nra") == ["sa", "ra"]
  {
    assert "sa" + "\n" + "ra" == "sa\nra";
    assert '\n' !in "sa" && '\n' !in "ra";
    assert !IsSpace("sa"[0]) && !IsSpace("ra"[1]);
    TokensOfLines("sa", "ra");
  }

  /** Input 1 with empty solver output: no replay steps, A stays as it was. */
  lemma EmptyOutputNoSteps()
    ensures Tokens("") == []
    ensures Replay(Tokens(""), Stacks([1], [])) == Stacks([1], [])
  {
  }
}
