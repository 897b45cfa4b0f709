# push_swap visualizer — a verified model of the replay engine

The push_swap visualizer runs the push_swap solver, reads the instructions it
prints, and replays them one by one against two integer stacks, A (seeded
with the numbers given on the command line) and B (empty), showing the state
after each step. This project models the part that decides what the state
is: the instruction interpreter (`apply_instruction`), the splitting of the
solver's output into instruction tokens, and the replay loop.

Index 0 of a list is the top of its stack, as in visualizer.py.

- `Ops` (ops.dfy) — the eleven instructions `sa sb ss pa pb ra rb rr rra rrb
  rrr` as a datatype, the decoding of a token by exact string equality, and
  the transition table `Apply` of one instruction on a pair of stacks. The
  effect of every instruction is stated and proved: what moves where, when a
  guard makes it a no-op, the inverse pairs, the combined instructions as
  compositions, and conservation of the values held.
- `Engine` (engine.dfy) — `Replay`, the state after a whole list of tokens,
  with its algebra: one step at a time, concatenation, unknown tokens are
  skipped, conservation, and undoing a list of swaps and rotations.
- `SolverOutput` (solver_output.dfy) — the solver's output as the visualizer
  sees it: read in text mode, where universal newlines turn every CR LF pair
  and every lone CR into LF (`Capture`), then Python's whitespace `strip` and
  newline `split`, giving the token list (empty when the output is blank),
  with `split` proved to be the inverse of a newline join.
- `Visualizer` (visualizer.dfy) — the imperative core: a `Stack` class whose
  list is updated in place by the same list operations the interpreter uses
  (index swap, pop from front or back, insert in front, append),
  `ApplyInstruction` with the same chain of guarded cases, and `Run`, the
  loop over the tokens of the captured output. Each method is proved to
  produce exactly the state the pure model predicts.

## Model

| member | source | states |
|---|---|---|
| Ops.Decode | visualizer.py:13-43 | a token is recognised exactly when it is one of the eleven instruction names, and then it decodes to the instruction of that name; every other line is Unknown |
| Ops.DecodeName | visualizer.py:13-43 | decoding the name of any instruction gives back that instruction |
| Ops.SwapTop | visualizer.py:13-16 | swapping the top two keeps the stack's length and leaves a stack of fewer than two elements unchanged |
| Ops.RotateUp | visualizer.py:26-29 | rotation keeps the length and puts the old top at the bottom |
| Ops.RotateDown | visualizer.py:35-38 | reverse rotation keeps the length and puts the old bottom on top |
| Ops.SwapTopKeepsValues | visualizer.py:13-16 | a swap only rearranges: the multiset of the stack is unchanged |
| Ops.RotateUpKeepsValues | visualizer.py:26-29 | a rotation only rearranges: the multiset of the stack is unchanged |
| Ops.RotateDownKeepsValues | visualizer.py:35-38 | a reverse rotation only rearranges: the multiset of the stack is unchanged |
| Ops.SwapTopAt | visualizer.py:14 | after a swap, positions 0 and 1 hold each other's old values and every other position is unchanged |
| Ops.RotateUpAt | visualizer.py:27 | after a rotation, position k holds the old position k + 1 and the last position holds the old top |
| Ops.RotateDownAt | visualizer.py:36 | after a reverse rotation, position k holds the old position k - 1 and the top holds the old bottom |
| Ops.Apply | visualizer.py:12-44 | one instruction keeps the total number of elements in A and B |
| Ops.ApplyConserves | visualizer.py:12-44 | one instruction neither creates nor loses values: the multiset of A and B together is unchanged |
| Ops.DisabledIsNoOp | visualizer.py:13-44 | an instruction whose guard fails (too few elements), or an unknown token, leaves both stacks unchanged |
| Ops.NoCaseMatches | visualizer.py:13-44 | a token that passes none of the guarded cases of the elif chain, tried in order, leaves both stacks unchanged |
| Ops.UnknownTokenIsNoOp | visualizer.py:13-44 | a token outside the vocabulary leaves both stacks unchanged |
| Ops.PushEffect | visualizer.py:22-25 | pa and pb each change the state if and only if their source stack is non-empty |
| Ops.RotateInverse | visualizer.py:26-38 | rotation and reverse rotation of one stack undo each other in either order |
| Ops.SwapInvolution | visualizer.py:13-16 | swapping the top two twice restores the stack |
| Ops.PushRoundTrip | visualizer.py:22-25 | pb after pa restores the state when B was non-empty, and pa after pb when A was non-empty |
| Ops.CombinedOps | visualizer.py:17-43 | ss, rr and rrr are the two single-stack instructions applied one after the other, each with its own guard, in either order |
| Ops.SingleStackOps | visualizer.py:13-38 | sa, ra, rra never change B and sb, rb, rrb never change A |
| Engine.Replay | visualizer.py:72-73 | replaying any token list keeps the total number of elements |
| Engine.ReplayStep | visualizer.py:72-73 | replaying one more token of the list is one more application of the transition table |
| Engine.ReplayConserves | visualizer.py:72-73 | replaying any token list keeps the multiset of A and B together |
| Engine.ReplayConcat | visualizer.py:72-73 | replaying two lists one after the other is replaying their concatenation |
| Engine.UnknownTokenSkipped | visualizer.py:72-73 | an unrecognised token anywhere in the list does not change the final state |
| Engine.UnknownTokensOnly | visualizer.py:72-73 | a list of only unrecognised tokens leaves both stacks unchanged |
| Engine.InverseUndoes | visualizer.py:13-43 | every swap and rotation instruction is undone by its inverse on every state: sa, sb and ss by themselves, ra/rra, rb/rrb and rr/rrr by each other in either order |
| Engine.UndoRearrangements | visualizer.py:72-73 | replaying a list without pa or pb and then the inverses of its tokens, last first, restores both stacks |
| SolverOutput.IsSpace | visualizer.py:71 | the characters Python's `strip` removes: the code points for which `str.isspace` holds |
| SolverOutput.Capture | visualizer.py:53 | text-mode reading leaves no CR in the text, and leaves output that holds no CR unchanged |
| SolverOutput.CaptureBlank | visualizer.py:53 | the captured text is blank exactly when the solver's output is |
| SolverOutput.CaptureKeeps | visualizer.py:53 | every character other than CR is read as itself |
| SolverOutput.CaptureCarriageReturn | visualizer.py:53 | a CR LF pair, or a CR not followed by LF, is read as one LF |
| SolverOutput.CaptureLoneCr | visualizer.py:53 | a CR-free line ending in a lone CR is read as that line ending in LF, followed by the reading of the rest |
| SolverOutput.CaptureCrLf | visualizer.py:53 | a CR-free line ending in CR LF is read as that line ending in LF, followed by the reading of the rest |
| SolverOutput.StripLeading | visualizer.py:71 | the result is a suffix of the input, what was removed is all whitespace, and the result is empty or starts with a non-whitespace character |
| SolverOutput.StripTrailing | visualizer.py:71 | the result is a prefix of the input, what was removed is all whitespace, and the result is empty or ends with a non-whitespace character |
| SolverOutput.Strip | visualizer.py:71 | stripping leaves nothing exactly when the text is all whitespace, otherwise neither end of the result is whitespace, and it never lengthens the text |
| SolverOutput.StripClean | visualizer.py:71 | text that neither starts nor ends with whitespace is left as it is |
| SolverOutput.StripIdempotent | visualizer.py:71 | stripping twice is stripping once |
| SolverOutput.Split | visualizer.py:71 | splitting on newlines gives one more piece than there are newlines, and no piece contains a newline |
| SolverOutput.JoinSplit | visualizer.py:71 | joining the pieces of a split with newlines gives back the text |
| SolverOutput.SplitSingle | visualizer.py:71 | a text without a newline splits into itself alone |
| SolverOutput.SplitAfterNewline | visualizer.py:71 | a text p + newline + t splits into p followed by the pieces of t |
| SolverOutput.SplitJoin | visualizer.py:71 | splitting a newline join of newline-free pieces gives back the pieces |
| SolverOutput.TokensOfLines | visualizer.py:71 | two newline-free lines without whitespace at the outer ends give exactly those two tokens |
| SolverOutput.Tokens | visualizer.py:71 | there are no tokens exactly when the output is blank; otherwise the tokens joined with newlines are the stripped output, and no token contains a newline |
| Visualizer.Stack.constructor | visualizer.py:63-68 | a new list holds the given values |
| Visualizer.Stack.SwapFirstTwo | visualizer.py:14 | the in-place index swap leaves the list equal to SwapTop of the old list |
| Visualizer.Stack.PopFirst | visualizer.py:23 | returns the first entry and removes it |
| Visualizer.Stack.PopLast | visualizer.py:36 | returns the last entry and removes it |
| Visualizer.Stack.InsertFirst | visualizer.py:23 | the list gains the entry in front |
| Visualizer.Stack.Append | visualizer.py:27 | the list gains the entry at the end |
| Visualizer.Stack.Rotate | visualizer.py:27 | popping the first entry and appending it leaves RotateUp of the old list |
| Visualizer.Stack.ReverseRotate | visualizer.py:36 | popping the last entry and inserting it in front leaves RotateDown of the old list |
| Visualizer.SwapFirstTwoIsSwapTop | visualizer.py:14 | exchanging entries 0 and 1 by index assignment is SwapTop |
| Visualizer.Push | visualizer.py:22-25 | the first entry of the source list moves to the front of the destination list |
| Visualizer.SwapEach | visualizer.py:17-21 | each list with at least two entries has its first two swapped; the others are unchanged |
| Visualizer.RotateEach | visualizer.py:30-34 | each non-empty list is rotated |
| Visualizer.ReverseRotateEach | visualizer.py:39-43 | each non-empty list is reverse-rotated |
| Visualizer.ApplyInstruction | visualizer.py:12-44 | the in-place update of both lists by one token is exactly Apply of the decoded token to the old state |
| Visualizer.Run | visualizer.py:53-74 | after the loop the lists are the replay of the tokens of the solver's output, read in text mode, from A = input and B empty; together they hold exactly the input values; blank output leaves A as the input and B empty |
| Visualizer.SwapLineTokens | visualizer.py:71 | the output consisting of "sa" and a newline is the single token "sa" |
| Visualizer.SwapSortsThree | visualizer.py:71-73 | replaying that output on 2 1 3 gives A = 1 2 3 and B empty |
| Visualizer.CrLfLineSortsThree | visualizer.py:53-73 | output "sa" ending in CR LF still sorts 2 1 3 into A = 1 2 3 with B empty |
| Visualizer.LoneCarriageReturnCapture | visualizer.py:53 | the output "sa", CR, "ra" is read as "sa", LF, "ra" |
| Visualizer.TwoLineTokens | visualizer.py:71 | the text "sa", LF, "ra" gives the tokens "sa" and "ra" |
| Visualizer.LoneCarriageReturnSeparates | visualizer.py:53-71 | a lone CR separates two instructions just as LF does |
| Visualizer.EmptyOutputNoSteps | visualizer.py:71-73 | empty solver output gives no tokens and leaves the initial state |

## Left out

- Running the solver as a subprocess, and its two error reports (program not found, non-zero exit status): the model takes the solver's output, already decoded to characters, as a parameter of `Run`; decoding its bytes with the locale's encoding is not modelled.
- Printing the stacks after every step, the 0.05 second pause between steps, and the final printout: output and timing only, with no effect on the state.
- The usage message when no numbers are given, and the conversion of the command-line words to integers with its error message: the model takes the input as a sequence of integers.
- Aliasing of the two lists: `ApplyInstruction`, `Push`, `SwapEach`, `RotateEach` and `ReverseRotateEach` require two distinct lists, which is what the replay loop always passes.
- Visualizer.Stack.PopFirst: requires a non-empty list (Python would raise an IndexError); the interpreter only pops from a list its guard has found non-empty.
- Visualizer.Stack.PopLast: requires a non-empty list, for the same reason.
- Visualizer.Stack.SwapFirstTwo: requires at least two entries, which every guard of the interpreter ensures before it swaps.
- Python's rebinding of `stack_a, stack_b` to the returned lists: `apply_instruction` returns the very lists it was given, so the model keeps the same two objects across the loop.
- Checking whether stack A ends sorted and B empty, a configurable delay between steps, and shell-style quoting of arguments are not in the visualizer's code, so they are not modelled.
