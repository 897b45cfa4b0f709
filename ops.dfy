/** The push_swap instruction vocabulary and the effect of one instruction on
    the two stacks A and B. Index 0 of each sequence is the top of its stack. */
module Ops {

  /** The eleven instructions, plus every other line of solver output. */
  datatype Op = SA | SB | SS | PA | PB | RA | RB | RR | RRA | RRB | RRR | Unknown

  /** The state of the replay: stack A and stack B, tops first. */
  datatype Stacks = Stacks(a: seq<int>, b: seq<int>)

  /** The tokens that name an instruction. */
  const Vocabulary: set<string> :=
    {"sa", "sb", "ss", "pa", "pb", "ra", "rb", "rr", "rra", "rrb", "rrr"}

  /** The token that names an instruction; a blank line stands for Unknown. */
  function Name(op: Op): (t: string)
    ensures op.Unknown? <==> t !in Vocabulary
  {
    match op
    case SA => "sa"
    case SB => "sb"
    case SS => "ss"
    case PA => "pa"
    case PB => "pb"
    case RA => "ra"
    case RB => "rb"
    case RR => "rr"
    case RRA => "rra"
    case RRB => "rrb"
    case RRR => "rrr"
    case Unknown => ""
  }

  /** Recognises a token by exact string equality, as the elif chain does. */
  function Decode(t: string): (op: Op)
    ensures op.Unknown? <==> t !in Vocabulary
    ensures !op.Unknown? ==> Name(op) == t
  {
    if t == "sa" then SA
    else if t == "sb" then SB
    else if t == "ss" then SS
    else if t == "pa" then PA
    else if t == "pb" then PB
    else if t == "ra" then RA
    else if t == "rb" then RB
    else if t == "rr" then RR
    else if t == "rra" then RRA
    else if t == "rrb" then RRB
    else if t == "rrr" then RRR
    else Unknown
  }

  /** Decoding is a left inverse of naming. */
  lemma DecodeName(op: Op)
    ensures Decode(Name(op)) == op
  {
  }

  /** Swap the top two elements when there are at least two. */
  function SwapTop(xs: seq<int>): (r: seq<int>)
    ensures |r| == |xs|
    ensures |xs| <= 1 ==> r == xs
  {
    if |xs| > 1 then [xs[1], xs[0]] + xs[2..] else xs
  }

  /** Rotate: the top moves to the bottom (no effect on an empty stack). */
  function RotateUp(xs: seq<int>): (r: seq<int>)
    ensures |r| == |xs|
    ensures |xs| > 0 ==> r[|r| - 1] == xs[0]
  {
    if |xs| > 0 then xs[1..] + [xs[0]] else xs
  }

  /** Reverse-rotate: the bottom moves to the top (no effect on an empty stack). */
  function RotateDown(xs: seq<int>): (r: seq<int>)
    ensures |r| == |xs|
    ensures |xs| > 0 ==> r[0] == xs[|xs| - 1]
  {
    if |xs| > 0 then [xs[|xs| - 1]] + xs[..|xs| - 1] else xs
  }

  /** A swap rearranges a stack without adding or losing values. */
  lemma SwapTopKeepsValues(xs: seq<int>)
    ensures multiset(SwapTop(xs)) == multiset(xs)
  {
    if |xs| > 1 {
      assert xs == xs[..2] + xs[2..];
      assert multiset(xs[..2]) == multiset([xs[1], xs[0]]) by {
        assert xs[..2] == [xs[0], xs[1]];
      }
    }
  }

  /** A rotation rearranges a stack without adding or losing values. */
  lemma RotateUpKeepsValues(xs: seq<int>)
    ensures multiset(RotateUp(xs)) == multiset(xs)
  {
    if |xs| > 0 {
      calc {
        multiset(RotateUp(xs));
        multiset(xs[1..]) + multiset([xs[0]]);
        { assert xs == [xs[0]] + xs[1..]; }
        multiset(xs);
      }
    }
  }

  /** A reverse rotation rearranges a stack without adding or losing values. */
  lemma RotateDownKeepsValues(xs: seq<int>)
    ensures multiset(RotateDown(xs)) == multiset(xs)
  {
    if |xs| > 0 {
      var n := |xs|;
      calc {
        multiset(RotateDown(xs));
        multiset([xs[n - 1]]) + multiset(xs[..n - 1]);
        { assert xs == xs[..n - 1] + [xs[n - 1]]; }
        multiset(xs);
      }
    }
  }

  /** After a swap, position k holds what position 1 - k held for the top
      two, and what it held before everywhere else. */
  lemma SwapTopAt(xs: seq<int>, k: int)
    requires |xs| > 1 && 0 <= k < |xs|
    ensures SwapTop(xs)[k] == xs[if k < 2 then 1 - k else k]
  {
  }

  /** After a rotation, position k holds what position k + 1 held, and the
      last position holds the old top. */
  lemma RotateUpAt(xs: seq<int>, k: int)
    requires 0 <= k < |xs|
    ensures RotateUp(xs)[k] == if k + 1 < |xs| then xs[k + 1] else xs[0]
  {
  }

  /** After a reverse rotation, position k holds what position k - 1 held,
      and the top holds the old bottom. */
  lemma RotateDownAt(xs: seq<int>, k: int)
    requires 0 <= k < |xs|
    ensures RotateDown(xs)[k] == if k == 0 then xs[|xs| - 1] else xs[k - 1]
  {
  }

  /** Whether the guard of an instruction lets at least one of its effects happen. */
  predicate Enabled(op: Op, s: Stacks)
  {
    match op
    case SA => |s.a| > 1
    case SB => |s.b| > 1
    case SS => |s.a| > 1 || |s.b| > 1
    case PA => |s.b| > 0
    case PB => |s.a| > 0
    case RA | RRA => |s.a| > 0
    case RB | RRB => |s.b| > 0
    case RR | RRR => |s.a| > 0 || |s.b| > 0
    case Unknown => false
  }

  /** One step of the replay: the transition table of the instruction set.
      The two stacks together keep their size. */
  function Apply(op: Op, s: Stacks): (r: Stacks)
    ensures |r.a| + |r.b| == |s.a| + |s.b|
  {
    match op
    case SA => Stacks(SwapTop(s.a), s.b)
    case SB => Stacks(s.a, SwapTop(s.b))
    case SS => Stacks(SwapTop(s.a), SwapTop(s.b))
    case PA => if |s.b| > 0 then Stacks([s.b[0]] + s.a, s.b[1..]) else s
    case PB => if |s.a| > 0 then Stacks(s.a[1..], [s.a[0]] + s.b) else s
    case RA => Stacks(RotateUp(s.a), s.b)
    case RB => Stacks(s.a, RotateUp(s.b))
    case RR => Stacks(RotateUp(s.a), RotateUp(s.b))
    case RRA => Stacks(RotateDown(s.a), s.b)
    case RRB => Stacks(s.a, RotateDown(s.b))
    case RRR => Stacks(RotateDown(s.a), RotateDown(s.b))
    case Unknown => s
  }

  /** No instruction creates or destroys a value: the multiset of A and B
      together is the same after every step. */
  lemma ApplyConserves(op: Op, s: Stacks)
    ensures var r := Apply(op, s);
      multiset(r.a) + multiset(r.b) == multiset(s.a) + multiset(s.b)
  {
    match op
    case SA => SwapTopKeepsValues(s.a);
    case SB => SwapTopKeepsValues(s.b);
    case SS => SwapTopKeepsValues(s.a); SwapTopKeepsValues(s.b);
    case PA =>
      if |s.b| > 0 {
        assert s.b == [s.b[0]] + s.b[1..];
      }
    case PB =>
      if |s.a| > 0 {
        assert s.a == [s.a[0]] + s.a[1..];
      }
    case RA => RotateUpKeepsValues(s.a);
    case RB => RotateUpKeepsValues(s.b);
    case RR => RotateUpKeepsValues(s.a); RotateUpKeepsValues(s.b);
    case RRA => RotateDownKeepsValues(s.a);
    case RRB => RotateDownKeepsValues(s.b);
    case RRR => RotateDownKeepsValues(s.a); RotateDownKeepsValues(s.b);
    case Unknown =>
  }

  /** An unrecognised token, or a recognised one whose guard fails, changes nothing. */
  lemma DisabledIsNoOp(op: Op, s: Stacks)
    requires !Enabled(op, s)
    ensures Apply(op, s) == s
  {
  }

  /** A token that meets none of the guarded cases of the transition table,
      tried in table order, leaves both stacks as they were. */
  lemma NoCaseMatches(t: string, s: Stacks)
    requires !(t == "sa" && |s.a| > 1) && !(t == "sb" && |s.b| > 1) && t != "ss"
    requires !(t == "pa" && |s.b| > 0) && !(t == "pb" && |s.a| > 0)
    requires !(t == "ra" && |s.a| > 0) && !(t == "rb" && |s.b| > 0) && t != "rr"
    requires !(t == "rra" && |s.a| > 0) && !(t == "rrb" && |s.b| > 0) && t != "rrr"
    ensures Apply(Decode(t), s) == s
  {
    DisabledIsNoOp(Decode(t), s);
  }

  /** Any token outside the vocabulary leaves both stacks as they were. */
  lemma UnknownTokenIsNoOp(t: string, s: Stacks)
    requires t !in Vocabulary
    ensures Apply(Decode(t), s) == s
  {
  }

  /** pa and pb change the stacks exactly when their source stack is non-empty. */
  lemma PushEffect(s: Stacks)
    ensures Apply(PA, s) == s <==> |s.b| == 0
    ensures Apply(PB, s) == s <==> |s.a| == 0
  {
    if |s.b| > 0 {
      assert |Apply(PA, s).a| == |s.a| + 1;
    }
    if |s.a| > 0 {
      assert |Apply(PB, s).b| == |s.b| + 1;
    }
  }

  /** The rotation and reverse rotation of one stack undo each other, in either order. */
  lemma RotateInverse(xs: seq<int>)
    ensures RotateDown(RotateUp(xs)) == xs
    ensures RotateUp(RotateDown(xs)) == xs
  {
    if |xs| > 0 {
      var n := |xs|;
      assert RotateDown(RotateUp(xs)) == xs by {
        var u := xs[1..] + [xs[0]];
        assert u[..n - 1] == xs[1..];
        assert [xs[0]] + xs[1..] == xs;
      }
      assert RotateUp(RotateDown(xs)) == xs by {
        var d := [xs[n - 1]] + xs[..n - 1];
        assert d[1..] == xs[..n - 1];
        assert xs[..n - 1] + [xs[n - 1]] == xs;
      }
    }
  }

  /** Swapping the top two elements twice restores one stack. */
  lemma SwapInvolution(xs: seq<int>)
    ensures SwapTop(SwapTop(xs)) == xs
  {
    if |xs| > 1 {
      var t := [xs[1], xs[0]] + xs[2..];
      assert t[2..] == xs[2..];
      assert [xs[0], xs[1]] + xs[2..] == xs;
    }
  }

  /** pa undoes pb when A was non-empty, and pb undoes pa when B was non-empty. */
  lemma PushRoundTrip(s: Stacks)
    ensures |s.b| > 0 ==> Apply(PB, Apply(PA, s)) == s
    ensures |s.a| > 0 ==> Apply(PA, Apply(PB, s)) == s
  {
    if |s.b| > 0 {
      assert [s.b[0]] + s.b[1..] == s.b;
    }
    if |s.a| > 0 {
      assert [s.a[0]] + s.a[1..] == s.a;
    }
  }

  /** The combined instructions apply each component, with its own guard, in
      either order. */
  lemma CombinedOps(s: Stacks)
    ensures Apply(SS, s) == Apply(SB, Apply(SA, s)) == Apply(SA, Apply(SB, s))
    ensures Apply(RR, s) == Apply(RB, Apply(RA, s)) == Apply(RA, Apply(RB, s))
    ensures Apply(RRR, s) == Apply(RRB, Apply(RRA, s)) == Apply(RRA, Apply(RRB, s))
  {
  }

  /** The instructions that act on A alone leave B untouched, and conversely. */
  lemma SingleStackOps(op: Op, s: Stacks)
    ensures op in {SA, RA, RRA} ==> Apply(op, s).b == s.b
    ensures op in {SB, RB, RRB} ==> Apply(op, s).a == s.a
  {
  }
}
