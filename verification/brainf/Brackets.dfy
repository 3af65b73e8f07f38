/** Every loop the compiler records is a pair of matching brackets of the source. */
module BrainFBrackets {
  import opened BrainFSource
  import opened BrainFIr
  import opened BrainFEmitter
  import opened BrainFAcceptance
  import opened Wrappers

  /** Between the bracket at `open` and `b` the text is balanced. */
  ghost predicate OpenSince(src: string, open: nat, b: nat) {
    open < b <= |src| && src[open] == '[' && NonNegative(src, open + 1, b) && Depth(src, open + 1, b) == 0
  }

  lemma OpenStill(src: string, open: nat, b: nat, m: nat)
    requires OpenSince(src, open, b) && b <= m <= |src| && NonNegative(src, b, m) && Depth(src, b, m) == 0
    ensures OpenSince(src, open, m)
  {
    DepthJoin(src, open + 1, b, m);
  }

  ghost predicate LoopsMatch(src: string, c: Cert) {
    forall o :: o in c.loops ==> Matching(src, o, c.loops[o].close)
  }

  /** A '[' token opens a loop with a balanced body so far. */
  lemma BeginsOpen(src: string, b: nat, e: Em)
    requires b <= |src| && TokenAt(src, b).sym == Loop && LoopsMatch(src, e.cert)
    ensures var t := TokenAt(src, b);
            OpenSince(src, t.end - 1, t.end) && LoopsMatch(src, Opened(e, t.end).cert)
  {
    TokenDepth(src, b);
  }

  lemma PlainMatches(src: string, checked: bool, t: Token, e: Em)
    requires LoopsMatch(src, e.cert)
    ensures LoopsMatch(src, Plain(e, checked, t).cert)
  {
    assert Plain(e, checked, t).cert.loops == e.cert.loops;
  }

  lemma EofMatches(src: string, e: Em)
    requires LoopsMatch(src, e.cert)
    ensures LoopsMatch(src, Extend(e, [Br(ENDBB)], []).cert)
  {
  }

  lemma CloseMatches(src: string, b: nat, e: Em, f: LoopFrame, open: nat)
    requires b <= |src| && TokenAt(src, b).sym == EndLoop && LoopsMatch(src, e.cert) && OpenSince(src, open, b)
    ensures LoopsMatch(src, Closed(e, f, open, TokenAt(src, b).end).cert)
  {
    var t := TokenAt(src, b);
    TokenNesting(src, b);
    OpenStill(src, open, b, t.end - 1);
    assert Matching(src, open, t.end - 1);
  }

  /** The enclosing loop, if any, is still open. */
  ghost predicate StillOpen(src: string, loop: Option<LoopFrame>, open: nat, b: nat) {
    loop.Some? ==> OpenSince(src, open, b)
  }

  lemma StaysOpen(src: string, loop: Option<LoopFrame>, open: nat, b: nat, m: nat)
    requires StillOpen(src, loop, open, b) && b <= m <= |src| && NonNegative(src, b, m) && Depth(src, b, m) == 0
    ensures StillOpen(src, loop, open, m)
  {
    if loop.Some? {
      OpenStill(src, open, b, m);
    }
  }

  lemma {:induction false} EmitMatches(src: string, checked: bool, b: nat, e: Em, loop: Option<LoopFrame>, open: nat)
    requires b <= |src| && LoopsMatch(src, e.cert) && StillOpen(src, loop, open, b)
    ensures var r := Emit(src, checked, b, e, loop, open);
            r.Ok? ==> LoopsMatch(src, r.em.cert)
    decreases |src| - b
  {
    hide TokenAt, Depth, NonNegative, Plain, Opened, Closed, Extend, FrameOf, OpenSince, LoopsMatch;
    var t := TokenAt(src, b);
    if t.sym == Eof {
      EofMatches(src, e);
    } else if t.sym == EndLoop {
      if loop.Some? {
        CloseMatches(src, b, e, loop.value, open);
      }
    } else if t.sym == Loop {
      var inner := Opened(e, t.end);
      var body := Emit(src, checked, t.end, inner, Some(FrameOf(e)), t.end - 1);
      BeginsOpen(src, b, e);
      EmitMatches(src, checked, t.end, inner, Some(FrameOf(e)), t.end - 1);
      EmitExplained(src, checked, t.end, inner, Some(FrameOf(e)), t.end - 1);
      LoopNesting(src, b, body);
      if body.Ok? {
        StaysOpen(src, loop, open, b, body.pos);
        EmitMatches(src, checked, body.pos, body.em, loop, open);
      }
    } else {
      TokenNesting(src, b);
      StaysOpen(src, loop, open, b, t.end);
      PlainMatches(src, checked, t, e);
      EmitMatches(src, checked, t.end, Plain(e, checked, t), loop, open);
    }
  }
}
