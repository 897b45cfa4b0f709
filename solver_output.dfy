/** Turning the solver's captured output into instruction tokens: Python's
    `str.strip()` followed by `str.split('\n')`, with no tokens at all when
    the stripped text is empty. */
module SolverOutput {

  /** Python's `str.isspace` for one character: the ASCII controls TAB to CR,
      the four information separators, SPACE, NEXT LINE, NO-BREAK SPACE and
      the Unicode space separators and line/paragraph separators. */
  predicate IsSpace(c: char)
  {
    var n := c as int;
    || 0x09 <= n <= 0x0D
    || 0x1C <= n <= 0x20
    || n == 0x85 || n == 0xA0 || n == 0x1680
    || 0x2000 <= n <= 0x200A
    || n == 0x2028 || n == 0x2029 || n == 0x202F || n == 0x205F || n == 0x3000
  }

  predicate AllSpace(s: string)
  {
    forall k | 0 <= k < |s| :: IsSpace(s[k])
  }

  /** The text the solver's output becomes when it is read in text mode, with
      universal newlines: each CR LF pair and each lone CR turns into one LF,
      and every other character is kept. The result never holds a CR, and is
      the output itself when that holds none. */
  function Capture(raw: string): (text: string)
    ensures '\r' !in text
    ensures '\r' !in raw ==> text == raw
    decreases |raw|
  {
    if raw == [] then []
    else if raw[0] == '\r' then
      var rest := if |raw| > 1 && raw[1] == '\n' then raw[2..] else raw[1..];
      "\n" + Capture(rest)
    else
      var t := Capture(raw[1..]);
      assert raw == [raw[0]] + raw[1..];
      [raw[0]] + t
  }

  /** Reading in text mode turns whitespace into whitespace and nothing else
      into whitespace: the text is blank exactly when the output is. */
  lemma {:induction false} CaptureBlank(raw: string)
    ensures AllSpace(Capture(raw)) <==> AllSpace(raw)
    decreases |raw|
  {
    if raw != [] {
      var k := if raw[0] == '\r' && |raw| > 1 && raw[1] == '\n' then 2 else 1;
      var head, rest := raw[..k], raw[k..];
      var out := if raw[0] == '\r' then "\n" else head;
      assert Capture(raw) == out + Capture(rest);
      CaptureBlank(rest);
      assert AllSpace(raw) <==> AllSpace(head) && AllSpace(rest) by {
        assert raw == head + rest;
        AllSpaceConcat(head, rest);
      }
      assert AllSpace(Capture(raw)) <==> AllSpace(out) && AllSpace(Capture(rest)) by {
        AllSpaceConcat(out, Capture(rest));
      }
      assert AllSpace(out) <==> AllSpace(head) by {
        assert IsSpace('\r') && IsSpace('\n');
      }
    }
  }

  /** A character other than CR is read as itself. */
  lemma CaptureKeeps(c: char, t: string)
    requires c != '\r'
    ensures Capture([c] + t) == [c] + Capture(t)
  {
    assert ([c] + t)[1..] == t;
  }

  /** A CR not followed by LF is read as LF, and a CR LF pair as one LF. */
  lemma CaptureCarriageReturn(t: string)
    ensures t == [] || t[0] != '\n' ==> Capture("\r" + t) == "\n" + Capture(t)
    ensures Capture("\r\n" + t) == "\n" + Capture(t)
  {
    assert ("\r" + t)[1..] == t;
    assert ("\r\n" + t)[2..] == t;
  }

  /** A line that holds no CR and ends in a CR not followed by LF is read
      with LF as its end, and the rest is read as usual. */
  lemma {:induction false} CaptureLoneCr(p: string, q: string)
    requires '\r' !in p
    requires q == [] || q[0] != '\n'
    ensures Capture(p + "\r" + q) == p + "\n" + Capture(q)
    decreases |p|
  {
    if p == [] {
      assert p + "\r" + q == "\r" + q;
      CaptureCarriageReturn(q);
    } else {
      var w, w' := p + "\r" + q, p[1..] + "\r" + q;
      var v, v' := p + "\n" + Capture(q), p[1..] + "\n" + Capture(q);
      assert w == [p[0]] + w' by {
        assert p == [p[0]] + p[1..];
      }
      assert v == [p[0]] + v' by {
        assert p == [p[0]] + p[1..];
      }
      assert '\r' !in p[1..] && p[0] != '\r';
      CaptureLoneCr(p[1..], q);
      CaptureKeeps(p[0], w');
    }
  }

  /** A line that holds no CR and ends in CR LF is read with LF alone as its
      end, and the rest is read as usual. */
  lemma {:induction false} CaptureCrLf(p: string, q: string)
    requires '\r' !in p
    ensures Capture(p + "\r\n" + q) == p + "\n" + Capture(q)
    decreases |p|
  {
    if p == [] {
      assert p + "\r\n" + q == "\r\n" + q;
      CaptureCarriageReturn(q);
    } else {
      var w, w' := p + "\r\n" + q, p[1..] + "\r\n" + q;
      var v, v' := p + "\n" + Capture(q), p[1..] + "\n" + Capture(q);
      assert w == [p[0]] + w' by {
        assert p == [p[0]] + p[1..];
      }
      assert v == [p[0]] + v' by {
        assert p == [p[0]] + p[1..];
      }
      assert '\r' !in p[1..] && p[0] != '\r';
      CaptureCrLf(p[1..], q);
      CaptureKeeps(p[0], w');
    }
  }

  /** A concatenation is all whitespace exactly when both parts are. */
  lemma AllSpaceConcat(x: string, y: string)
    ensures AllSpace(x + y) <==> AllSpace(x) && AllSpace(y)
  {
    if AllSpace(x + y) {
      assert forall k | 0 <= k < |x| :: (x + y)[k] == x[k];
      assert forall k | 0 <= k < |y| :: (x + y)[|x| + k] == y[k];
    }
  }

  /** `s` without its leading whitespace: the longest suffix that does not
      start with whitespace, everything before it being whitespace. */
  function StripLeading(s: string): (r: string)
    ensures |r| <= |s| && r == s[|s| - |r|..]
    ensures AllSpace(s[..|s| - |r|])
    ensures r == [] || !IsSpace(r[0])
  {
    if |s| > 0 && IsSpace(s[0]) then
      var r := StripLeading(s[1..]);
      assert s[..|s| - |r|] == [s[0]] + s[1..][..|s| - 1 - |r|];
      r
    else s
  }

  /** `s` without its trailing whitespace: the longest prefix that does not
      end with whitespace, everything after it being whitespace. */
  function StripTrailing(s: string): (r: string)
    ensures |r| <= |s| && r == s[..|r|]
    ensures AllSpace(s[|r|..])
    ensures r == [] || !IsSpace(r[|r| - 1])
  {
    if |s| > 0 && IsSpace(s[|s| - 1]) then
      var r := StripTrailing(s[..|s| - 1]);
      assert s[|r|..] == s[..|s| - 1][|r|..] + [s[|s| - 1]];
      r
    else s
  }

  /** Python's `s.strip()`: whitespace removed at both ends. Nothing is left
      exactly when `s` is all whitespace; otherwise what is left neither starts
      nor ends with whitespace, and is `s` with whitespace-only ends removed. */
  function Strip(s: string): (r: string)
    ensures r == [] <==> AllSpace(s)
    ensures r != [] ==> !IsSpace(r[0]) && !IsSpace(r[|r| - 1])
    ensures |r| <= |s|
  {
    StripTrailing(StripLeading(s))
  }

  /** Text that neither starts nor ends with whitespace is left as it is by
      Strip; in particular stripping twice is stripping once. */
  lemma StripClean(s: string)
    requires s != [] && !IsSpace(s[0]) && !IsSpace(s[|s| - 1])
    ensures Strip(s) == s
    ensures Strip(Strip(s)) == Strip(s)
  {
    assert StripLeading(s) == s;
    assert StripTrailing(s) == s;
  }

  /** Stripping is idempotent. */
  lemma StripIdempotent(s: string)
    ensures Strip(Strip(s)) == Strip(s)
  {
    if Strip(s) != [] {
      StripClean(Strip(s));
    }
  }

  /** Python's `s.split('\n')`: the pieces between newlines, in order; there
      is always one more piece than there are newlines. */
  function Split(s: string): (r: seq<string>)
    ensures |r| >= 1
    ensures forall k | 0 <= k < |r| :: '\n' !in r[k]
    ensures |r| == Count(s, '\n') + 1
  {
    if s == [] then [[]]
    else
      var rest := Split(s[1..]);
      if s[0] == '\n' then [[]] + rest
      else [[s[0]] + rest[0]] + rest[1..]
  }

  /** The number of occurrences of `c` in `s`. */
  function Count(s: string, c: char): (n: nat)
    ensures n <= |s|
    ensures n == 0 <==> c !in s
  {
    if s == [] then 0
    else (if s[0] == c then 1 else 0) + Count(s[1..], c)
  }

  /** `"\n".join(pieces)`, the inverse of Split. */
  function Join(pieces: seq<string>): (s: string)
    requires |pieces| >= 1
    ensures |s| >= |pieces| - 1
  {
    if |pieces| == 1 then pieces[0]
    else pieces[0] + "\n" + Join(pieces[1..])
  }

  /** Joining the pieces of a split gives back the text. */
  lemma {:induction false} JoinSplit(s: string)
    ensures Join(Split(s)) == s
  {
    if s != [] {
      var rest := Split(s[1..]);
      JoinSplit(s[1..]);
      if s[0] == '\n' {
        JoinEmptyFirst(rest);
      } else {
        JoinExtendFirst(s[0], rest);
      }
      assert s == [s[0]] + s[1..];
    }
  }

  /** An empty first piece puts a newline in front of the join of the rest. */
  lemma {:induction false} JoinEmptyFirst(pieces: seq<string>)
    requires |pieces| >= 1
    ensures Join([[]] + pieces) == "\n" + Join(pieces)
  {
    assert ([[]] + pieces)[1..] == pieces;
  }

  /** Extending the first piece by a character puts that character in front
      of the join. */
  lemma {:induction false} JoinExtendFirst(c: char, pieces: seq<string>)
    requires |pieces| >= 1
    ensures Join([[c] + pieces[0]] + pieces[1..]) == [c] + Join(pieces)
  {
    var ext := [[c] + pieces[0]] + pieces[1..];
    if |pieces| == 1 {
      assert ext == [[c] + pieces[0]];
    } else {
      var tail := Join(pieces[1..]);
      assert Join(ext) == ([c] + pieces[0]) + "\n" + tail by {
        assert ext[1..] == pieces[1..];
      }
      assert Join(pieces) == pieces[0] + "\n" + tail;
      assert ([c] + pieces[0]) + "\n" + tail == [c] + (pieces[0] + "\n" + tail);
    }
  }

  /** A text without newlines is a single piece. */
  lemma {:induction false} SplitSingle(p: string)
    requires '\n' !in p
    ensures Split(p) == [p]
  {
    if p != [] {
      SplitSingle(p[1..]);
      assert [p[0]] + p[1..] == p;
    }
  }

  /** A newline-free prefix followed by a newline is split off as one piece. */
  lemma {:induction false} SplitAfterNewline(p: string, t: string)
    requires '\n' !in p
    ensures Split(p + "\n" + t) == [p] + Split(t)
    decreases |p|
  {
    var w := p + "\n" + t;
    if p == [] {
      assert w[0] == '\n' && w[1..] == t;
    } else {
      var w' := p[1..] + "\n" + t;
      assert w[0] == p[0] && w[1..] == w' by {
        assert w == [p[0]] + w';
      }
      assert '\n' !in p[1..] && p[0] != '\n';
      SplitAfterNewline(p[1..], t);
      assert Split(w) == [[p[0]] + p[1..]] + Split(t);
      assert [p[0]] + p[1..] == p;
    }
  }

  /** Two lines with no whitespace at the outer ends give exactly those two
      tokens. */
  lemma {:induction false} TokensOfLines(p: string, q: string)
    requires '\n' !in p && '\n' !in q
    requires p != [] && q != [] && !IsSpace(p[0]) && !IsSpace(q[|q| - 1])
    ensures Tokens(p + "\n" + q) == [p, q]
  {
    StripOfLines(p, q);
    SplitOfLines(p, q);
  }

  lemma {:induction false} StripOfLines(p: string, q: string)
    requires p != [] && q != [] && !IsSpace(p[0]) && !IsSpace(q[|q| - 1])
    ensures Strip(p + "\n" + q) == p + "\n" + q
  {
    var text := p + "\n" + q;
    assert text[0] == p[0] && text[|text| - 1] == q[|q| - 1];
    StripClean(text);
  }

  lemma {:induction false} SplitOfLines(p: string, q: string)
    requires '\n' !in p && '\n' !in q
    ensures Split(p + "\n" + q) == [p, q]
  {
    SplitAfterNewline(p, q);
    SplitSingle(q);
    PairOfLines(p, q);
  }

  lemma {:induction false} PairOfLines(p: string, q: string)
    ensures [p] + [q] == [p, q]
  {
  }

  /** Splitting a join of newline-free pieces gives back the pieces. */
  lemma {:induction false} SplitJoin(pieces: seq<string>)
    requires |pieces| >= 1
    requires forall k | 0 <= k < |pieces| :: '\n' !in pieces[k]
    ensures Split(Join(pieces)) == pieces
    decreases |pieces|
  {
    if |pieces| == 1 {
      SplitSingle(pieces[0]);
    } else {
      SplitJoin(pieces[1..]);
      SplitAfterNewline(pieces[0], Join(pieces[1..]));
    }
  }

  /** The instruction tokens of the solver's captured output. No tokens when
      the output is empty or whitespace only; otherwise the newline-separated
      lines of the stripped output, which join back to it. */
  function Tokens(output: string): (r: seq<string>)
    ensures r == [] <==> AllSpace(output)
    ensures r != [] ==> Join(r) == Strip(output)
    ensures forall k | 0 <= k < |r| :: '\n' !in r[k]
  {
    var text := Strip(output);
    if text == [] then []
    else
      JoinSplit(text);
      Split(text)
  }
}
