/** Replaying a list of instruction tokens, in order, against the two stacks. */
module Engine {
  import opened Ops

  /** The state after applying every token of `tokens`, first to last, to `s`.
      Whatever the tokens, the two stacks together keep their size. */
  function Replay(tokens: seq<string>, s: Stacks): (r: Stacks)
    ensures |r.a| + |r.b| == |s.a| + |s.b|
    decreases |tokens|
  {
    if tokens == [] then s
    else Apply(Decode(tokens[|tokens| - 1]), Replay(tokens[..|tokens| - 1], s))
  }

  /** Replaying one more token of a list is one more step. */
  lemma ReplayStep(tokens: seq<string>, i: nat, s: Stacks)
    requires i < |tokens|
    ensures Replay(tokens[..i + 1], s) == Apply(Decode(tokens[i]), Replay(tokens[..i], s))
  {
    assert tokens[..i + 1][..i] == tokens[..i];
  }

  /** Replaying any list of tokens keeps the multiset of A and B together. */
  lemma {:induction false} ReplayConserves(tokens: seq<string>, s: Stacks)
    ensures var r := Replay(tokens, s);
      multiset(r.a) + multiset(r.b) == multiset(s.a) + multiset(s.b)
    decreases |tokens|
  {
    if tokens != [] {
      var n := |tokens|;
      ReplayConserves(tokens[..n - 1], s);
      ApplyConserves(Decode(tokens[n - 1]), Replay(tokens[..n - 1], s));
    }
  }

  /** Replaying a concatenation is replaying its parts one after the other. */
  lemma {:induction false} ReplayConcat(xs: seq<string>, ys: seq<string>, s: Stacks)
    ensures Replay(xs + ys, s) == Replay(ys, Replay(xs, s))
    decreases |ys|
  {
    if ys == [] {
      assert xs + ys == xs;
    } else {
      var n := |ys|;
      assert (xs + ys)[..|xs + ys| - 1] == xs + ys[..n - 1];
      ReplayConcat(xs, ys[..n - 1], s);
    }
  }

  /** A token outside the vocabulary, anywhere in the list, does not change
      the outcome: replay goes on with the next token from the same state. */
  lemma UnknownTokenSkipped(xs: seq<string>, t: string, ys: seq<string>, s: Stacks)
    requires t !in Vocabulary
    ensures Replay(xs + [t] + ys, s) == Replay(xs + ys, s)
  {
    ReplayConcat(xs + [t], ys, s);
    ReplayConcat(xs, [t], s);
    assert [t][..0] == [];
    UnknownTokenIsNoOp(t, Replay(xs, s));
    ReplayConcat(xs, ys, s);
  }

  /** A list made only of unrecognised tokens leaves both stacks unchanged. */
  lemma {:induction false} UnknownTokensOnly(tokens: seq<string>, s: Stacks)
    requires forall k | 0 <= k < |tokens| :: tokens[k] !in Vocabulary
    ensures Replay(tokens, s) == s
    decreases |tokens|
  {
    if tokens != [] {
      UnknownTokensOnly(tokens[..|tokens| - 1], s);
      UnknownTokenIsNoOp(tokens[|tokens| - 1], s);
    }
  }

  /** Replaying a list of tokens without pa or pb and then the list of their
      inverses, in reverse order, restores both stacks. */
  lemma {:induction false} UndoRearrangements(tokens: seq<string>, s: Stacks)
    requires forall k | 0 <= k < |tokens| :: tokens[k] !in {"pa", "pb"}
    ensures Replay(Undo(tokens), Replay(tokens, s)) == s
    decreases |tokens|
  {
    if tokens != [] {
      var n := |tokens|;
      var init, last := tokens[..n - 1], tokens[n - 1];
      var mid := Replay(init, s);
      assert Undo(tokens) == [Name(Inverse(Decode(last)))] + Undo(init);
      ReplayConcat([Name(Inverse(Decode(last)))], Undo(init), Replay(tokens, s));
      assert [Name(Inverse(Decode(last)))][..0] == [];
      DecodeName(Inverse(Decode(last)));
      InverseUndoes(Decode(last), mid);
      UndoRearrangements(init, s);
    }
  }

  /** The instruction that undoes a swap or a rotation. */
  function Inverse(op: Op): (inv: Op)
    ensures inv.Unknown? <==> op.Unknown?
  {
    match op
    case RA => RRA
    case RB => RRB
    case RR => RRR
    case RRA => RA
    case RRB => RB
    case RRR => RR
    case PA => PB
    case PB => PA
    case _ => op
  }

  /** Each swap and rotation is undone by its inverse on every state: sa, sb
      and ss by themselves, ra/rra, rb/rrb and rr/rrr by each other in either
      order. */
  lemma InverseUndoes(op: Op, s: Stacks)
    requires op !in {PA, PB}
    ensures Apply(Inverse(op), Apply(op, s)) == s
  {
    SwapInvolution(s.a);
    SwapInvolution(s.b);
    RotateInverse(s.a);
    RotateInverse(s.b);
  }

  /** The tokens that undo `tokens`: the inverses, last first. */
  function Undo(tokens: seq<string>): (u: seq<string>)
    ensures |u| == |tokens|
    decreases |tokens|
  {
    if tokens == [] then []
    else [Name(Inverse(Decode(tokens[|tokens| - 1])))] + Undo(tokens[..|tokens| - 1])
  }
}
