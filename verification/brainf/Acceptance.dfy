/** Which sources compile: exactly the ones whose brackets balance. */
module BrainFAcceptance {
  import opened BrainFSource
  import opened BrainFEmitter
  import opened Wrappers
  import BrainFReference

  /** Text without brackets leaves the depth alone. */
  lemma {:induction false} DepthFlat(src: string, b: nat, e: nat)
    requires b <= e <= |src|
    requires forall k :: b <= k < e ==> Delta(src[k]) == 0
    ensures forall k :: b <= k <= e ==> Depth(src, b, k) == 0
    decreases e - b
  {
    if b < e {
      DepthFlat(src, b, e - 1);
    }
  }

  /** A token changes the depth only at its last character, and only if that is a bracket. */
  lemma TokenDepth(src: string, b: nat)
    requires b <= |src|
    ensures var t := TokenAt(src, b);
            && (forall k :: b <= k < t.end ==> Depth(src, b, k) == 0)
            && (t.sym == Loop ==> Depth(src, b, t.end) == 1 && src[t.end - 1] == '[')
            && (t.sym == EndLoop ==> Depth(src, b, t.end) == -1 && src[t.end - 1] == ']')
            && (t.sym != Loop && t.sym != EndLoop ==> Depth(src, b, t.end) == 0)
  {
    TokenCovers(src, b);
    var t := TokenAt(src, b);
    if t.sym == Eof || IsRun(t.sym) {
      DepthFlat(src, b, t.end);
    } else {
      DepthFlat(src, b, t.end - 1);
    }
  }

  /** Nesting over src[b..j] from nesting over src[b..m] and src[m..j]. */
  lemma DepthJoin(src: string, b: nat, m: nat, j: nat)
    requires b <= m <= j <= |src|
    ensures Depth(src, b, j) == Depth(src, b, m) + Depth(src, m, j)
    ensures NonNegative(src, b, m) && NonNegative(src, m, j) ==> NonNegative(src, b, j)
  {
    DepthSplit(src, b, m, j);
    forall k | m <= k <= j
      ensures Depth(src, b, k) == Depth(src, b, m) + Depth(src, m, k)
    {
      DepthSplit(src, b, m, k);
    }
  }

  ghost predicate ClosesTooMany(src: string, b: nat)
    requires b <= |src|
  {
    exists k :: b <= k <= |src| && Depth(src, b, k) < 0
  }

  /** What an outcome of `Emit` says about the nesting of src[b..]. */
  ghost predicate Explains(src: string, b: nat, nested: bool, r: Outcome)
    requires b <= |src|
  {
    match r
    case Ok(_, pos) =>
      if nested then
        && b < pos <= |src| && src[pos - 1] == ']'
        && Depth(src, b, pos - 1) == 0 && NonNegative(src, b, pos - 1)
      else NonNegative(src, b, |src|) && Depth(src, b, |src|) == 0
    case Failed(ExtraClose) => !nested && ClosesTooMany(src, b)
    case Failed(MissingClose) => NonNegative(src, b, |src|) && (nested || Depth(src, b, |src|) > 0)
  }

  /** Outcomes explained from `m` on are explained from `b` on, if src[b..m] is balanced. */
  lemma ExplainFrom(src: string, b: nat, m: nat, nested: bool, r: Outcome)
    requires b <= m <= |src| && NonNegative(src, b, m) && Depth(src, b, m) == 0
    requires Explains(src, m, nested, r)
    ensures Explains(src, b, nested, r)
  {
    DepthJoin(src, b, m, |src|);
    if r.Ok? && nested {
      DepthJoin(src, b, m, r.pos - 1);
    }
    if r.Failed? && r.error == ExtraClose {
      var k :| m <= k <= |src| && Depth(src, m, k) < 0;
      DepthSplit(src, b, m, k);
    }
  }

  /** What the token at `b` does to nesting, except for '['. */
  lemma TokenNesting(src: string, b: nat)
    requires b <= |src|
    ensures var t := TokenAt(src, b);
            && (t.sym == Eof ==> t.end == |src|)
            && (t.sym != Loop && t.sym != EndLoop ==> NonNegative(src, b, t.end) && Depth(src, b, t.end) == 0)
            && (t.sym == EndLoop ==>
                  && ClosesTooMany(src, b) && src[t.end - 1] == ']'
                  && NonNegative(src, b, t.end - 1) && Depth(src, b, t.end - 1) == 0)
  {
    TokenDepth(src, b);
    TokenCovers(src, b);
  }

  /** What a loop at `b` does to nesting, given what the nested call reports. */
  lemma LoopNesting(src: string, b: nat, body: Outcome)
    requires b <= |src|
    requires var t := TokenAt(src, b); t.sym == Loop && Explains(src, t.end, true, body)
    ensures if body.Ok? then NonNegative(src, b, body.pos) && Depth(src, b, body.pos) == 0
            else body.error == MissingClose && NonNegative(src, b, |src|) && Depth(src, b, |src|) > 0
  {
    var m := TokenAt(src, b).end;
    TokenDepth(src, b);
    if body.Ok? {
      DepthJoin(src, b, m, body.pos - 1);
    } else {
      DepthJoin(src, b, m, |src|);
    }
  }

  lemma {:induction false} EmitExplained(src: string, checked: bool, b: nat, e: Em, loop: Option<LoopFrame>, open: nat)
    requires b <= |src|
    ensures Explains(src, b, loop.Some?, Emit(src, checked, b, e, loop, open))
    decreases |src| - b
  {
    hide Plain, Opened, Closed, FrameOf, Extend, TokenAt, Depth, NonNegative, ClosesTooMany;
    var t := TokenAt(src, b);
    if t.sym == Loop {
      var body := Emit(src, checked, t.end, Opened(e, t.end), Some(FrameOf(e)), t.end - 1);
      EmitExplained(src, checked, t.end, Opened(e, t.end), Some(FrameOf(e)), t.end - 1);
      LoopNesting(src, b, body);
      if body.Ok? {
        EmitExplained(src, checked, body.pos, body.em, loop, open);
        ExplainFrom(src, b, body.pos, loop.Some?, Emit(src, checked, body.pos, body.em, loop, open));
      }
    } else {
      TokenNesting(src, b);
      if t.sym != Eof && t.sym != EndLoop {
        EmitExplained(src, checked, t.end, Plain(e, checked, t), loop, open);
        ExplainFrom(src, b, t.end, loop.Some?, Emit(src, checked, t.end, Plain(e, checked, t), loop, open));
      }
    }
  }

  /** A module comes back exactly for balanced sources; otherwise the error names the side
      that is wrong: some prefix closes too many, or input ends inside a loop. */
  lemma {:induction false} Acceptance(src: string, checked: bool, memtotal: nat)
    ensures var r := Compile(src, checked, memtotal);
            && (r.Ok? <==> Balanced(src))
            && (r == Failed(ExtraClose) <==> ClosesTooMany(src, 0))
            && (r == Failed(MissingClose) <==> !ClosesTooMany(src, 0) && Depth(src, 0, |src|) > 0)
  {
    hide Header, Mark, Emit;
    EmitExplained(src, checked, 0, Mark(Header(checked, memtotal), 0), None, 0);
  }

  // ----- Matching brackets, as the reference machine looks for them -----

  lemma {:induction false} FindCloseFrom(src: string, i: nat, c: nat, open: nat)
    requires i <= c < |src| && src[c] == ']'
    requires open + Depth(src, i, c) == 0
    requires forall k :: i <= k <= c ==> open + Depth(src, i, k) >= 0
    ensures BrainFReference.FindClose(src, i, open) == c
    decreases c - i
  {
    if i < c {
      DepthSplit(src, i, i + 1, c);
      forall k {:trigger Depth(src, i + 1, k)} | i + 1 <= k <= c
        ensures open + Delta(src[i]) + Depth(src, i + 1, k) >= 0
      {
        DepthSplit(src, i, i + 1, k);
        assert Depth(src, i, i) == 0;
      }
      assert open + Depth(src, i, i + 1) >= 0;
      FindCloseFrom(src, i + 1, c, open + Delta(src[i]));
    }
  }

  lemma {:induction false} FindOpenFrom(src: string, o: nat, i: nat, closed: nat)
    requires o < i <= |src| && src[o] == '['
    requires Depth(src, o + 1, i) == closed
    requires NonNegative(src, o + 1, i)
    ensures BrainFReference.FindOpen(src, i, closed) == o
    decreases i
  {
    if o + 1 < i {
      assert Depth(src, o + 1, i - 1) >= 0;
      FindOpenFrom(src, o, i - 1, closed - Delta(src[i - 1]));
    }
  }
}
