/** BrainF source text: the eight commands, the run-coalescing scanner with one
    symbol of lookahead, and bracket nesting. */
module BrainFSource {

  const ERROR_TEXT := "Error: The head has left the tape."

  datatype Symbol = NoSym | Read | Write | Move | Change | Loop | EndLoop | Eof

  function SymbolOf(c: char): Symbol {
    if c == '-' || c == '+' then Change
    else if c == '<' || c == '>' then Move
    else if c == ',' then Read
    else if c == '.' then Write
    else if c == '[' then Loop
    else if c == ']' then EndLoop
    else NoSym
  }

  function Direction(c: char): int {
    if c == '-' || c == '<' then -1 else 1
  }

  /** Symbols the scanner coalesces into one token. */
  predicate IsRun(s: Symbol) {
    s == Move || s == Change
  }

  /** A scanned token. `value` is the net sum of a run and 0 for the other
      symbols; `end` is the index of the first character after the token. */
  datatype Token = Token(sym: Symbol, value: int, end: nat)

  /** Continues a scan at `i` with the run read so far in (`sym`, `value`). */
  function Scan(src: string, i: nat, sym: Symbol, value: int): (t: Token)
    requires i <= |src|
    requires sym == NoSym || IsRun(sym)
    ensures i <= t.end <= |src|
    ensures if sym == NoSym then t.sym != NoSym && (t.sym == Eof || i < t.end) else t.sym == sym
    decreases |src| - i
  {
    if i == |src| then
      if sym == NoSym then Token(Eof, 0, i) else Token(sym, value, i)
    else
      var s := SymbolOf(src[i]);
      if s == NoSym then Scan(src, i + 1, sym, value)
      else if sym == NoSym then
        if IsRun(s) then Scan(src, i + 1, s, Direction(src[i])) else Token(s, 0, i + 1)
      else if s == sym then Scan(src, i + 1, sym, value + Direction(src[i]))
      else Token(sym, value, i)
  }

  function TokenAt(src: string, b: nat): (t: Token)
    requires b <= |src|
    ensures b <= t.end <= |src|
    ensures t.sym != NoSym && (t.sym == Eof || b < t.end)
  {
    Scan(src, b, NoSym, 0)
  }

  // ----- What a token covers -----

  /** Every character of src[i..j] is a comment or has symbol `s`. */
  ghost predicate Only(src: string, i: nat, j: nat, s: Symbol)
    requires j <= |src|
  {
    forall k :: i <= k < j ==> SymbolOf(src[k]) == NoSym || SymbolOf(src[k]) == s
  }

  /** Net direction of the characters of src[i..j] that have symbol `s`. */
  function Net(src: string, i: nat, j: nat, s: Symbol): int
    requires i <= j <= |src|
    decreases j - i
  {
    if i == j then 0
    else (if SymbolOf(src[i]) == s then Direction(src[i]) else 0) + Net(src, i + 1, j, s)
  }

  /** Number of characters of src[i..j] that have symbol `s`. */
  function Count(src: string, i: nat, j: nat, s: Symbol): nat
    requires i <= j <= |src|
    decreases j - i
  {
    if i == j then 0 else (if SymbolOf(src[i]) == s then 1 else 0) + Count(src, i + 1, j, s)
  }

  /** The token that `t` claims to be really lies at `b`, and a run is maximal. */
  ghost predicate Covers(src: string, b: nat, t: Token)
    requires b <= |src|
  {
    && b <= t.end <= |src|
    && match t.sym
       case Eof => t.end == |src| && Only(src, b, t.end, NoSym)
       case Move | Change =>
         && Only(src, b, t.end, t.sym)
         && (exists k :: b <= k < t.end && SymbolOf(src[k]) == t.sym)
         && (t.end == |src| || (SymbolOf(src[t.end]) != NoSym && SymbolOf(src[t.end]) != t.sym))
         && t.value == Net(src, b, t.end, t.sym)
       case NoSym => false
       case _ => b < t.end && Only(src, b, t.end - 1, NoSym) && SymbolOf(src[t.end - 1]) == t.sym
  }

  lemma {:induction false} ScanCovers(src: string, i: nat, sym: Symbol, value: int)
    requires i <= |src| && (sym == NoSym || IsRun(sym))
    ensures var t := Scan(src, i, sym, value);
            if sym == NoSym then Covers(src, i, t)
            else
              && t.sym == sym
              && Only(src, i, t.end, sym)
              && (t.end == |src| || (SymbolOf(src[t.end]) != NoSym && SymbolOf(src[t.end]) != sym))
              && t.value == value + Net(src, i, t.end, sym)
    decreases |src| - i
  {
    if i < |src| {
      var s := SymbolOf(src[i]);
      if s == NoSym {
        ScanCovers(src, i + 1, sym, value);
      } else if sym == NoSym && IsRun(s) {
        ScanCovers(src, i + 1, s, Direction(src[i]));
      } else if s == sym {
        ScanCovers(src, i + 1, sym, value + Direction(src[i]));
      }
    }
  }

  /** The token at `b` covers exactly the text it stands for. */
  lemma TokenCovers(src: string, b: nat)
    requires b <= |src|
    ensures Covers(src, b, TokenAt(src, b))
  {
    ScanCovers(src, b, NoSym, 0);
  }

  /** Runs, of moves and of changes, are shorter than 2^31 commands, so the scanner's `int` sum
      does not overflow. */
  ghost predicate ShortRuns(src: string) {
    forall i: nat, j: nat, s: Symbol ::
      IsRun(s) && i <= j <= |src| && Only(src, i, j, s) ==> Count(src, i, j, s) < 0x8000_0000
  }

  lemma {:induction false} NetBounded(src: string, i: nat, j: nat, s: Symbol)
    requires i <= j <= |src|
    ensures 0 - Count(src, i, j, s) <= Net(src, i, j, s) <= Count(src, i, j, s)
    decreases j - i
  {
    if i < j {
      NetBounded(src, i + 1, j, s);
    }
  }

  // ----- The scanner refines a filter followed by grouping -----

  /** The eight commands of src[b..], comments dropped. */
  function Commands(src: string, b: nat): string
    requires b <= |src|
    decreases |src| - b
  {
    if b == |src| then ""
    else if SymbolOf(src[b]) == NoSym then Commands(src, b + 1)
    else [src[b]] + Commands(src, b + 1)
  }

  /** Puts (s, v) in front of a token list, merging it into a first token with the same run symbol. */
  function Merge(s: Symbol, v: int, rest: seq<(Symbol, int)>): seq<(Symbol, int)> {
    if IsRun(s) && rest != [] && rest[0].0 == s then [(s, v + rest[0].1)] + rest[1..]
    else [(s, v)] + rest
  }

  /** Groups adjacent equal run commands into net sums. */
  function Group(cmds: string): seq<(Symbol, int)> {
    if cmds == "" then []
    else
      var s := SymbolOf(cmds[0]);
      Merge(s, if IsRun(s) then Direction(cmds[0]) else 0, Group(cmds[1..]))
  }

  /** All tokens of src[b..] in the order the scanner delivers them. */
  function Tokens(src: string, b: nat): seq<(Symbol, int)>
    requires b <= |src|
    decreases |src| - b
  {
    TokenCovers(src, b);
    var t := TokenAt(src, b);
    if t.sym == Eof then [] else [(t.sym, t.value)] + Tokens(src, t.end)
  }

  lemma {:induction false} GroupStep(src: string, i: nat)
    requires i < |src| && SymbolOf(src[i]) != NoSym
    ensures var s := SymbolOf(src[i]);
            Group(Commands(src, i)) == Merge(s, if IsRun(s) then Direction(src[i]) else 0, Group(Commands(src, i + 1)))
  {
    assert Commands(src, i)[1..] == Commands(src, i + 1);
  }

  lemma MergeTwice(s: Symbol, v: int, d: int, rest: seq<(Symbol, int)>)
    requires IsRun(s)
    ensures Merge(s, v, Merge(s, d, rest)) == Merge(s, v + d, rest)
  {
  }

  /** A run that the next command does not continue is a group of its own. */
  lemma {:induction false} RunEnds(src: string, i: nat, sym: Symbol, value: int)
    requires i <= |src| && IsRun(sym)
    requires i < |src| ==> SymbolOf(src[i]) != NoSym && SymbolOf(src[i]) != sym
    ensures Merge(sym, value, Group(Commands(src, i))) == [(sym, value)] + Group(Commands(src, i))
  {
    if i < |src| {
      GroupStep(src, i);
    }
  }

  lemma {:induction false} RunGroups(src: string, i: nat, sym: Symbol, value: int)
    requires i <= |src| && IsRun(sym)
    ensures var t := Scan(src, i, sym, value);
            [(sym, t.value)] + Group(Commands(src, t.end)) == Merge(sym, value, Group(Commands(src, i)))
    decreases |src| - i
  {
    hide Group, Merge;
    if i < |src| && SymbolOf(src[i]) == NoSym {
      RunGroups(src, i + 1, sym, value);
    } else if i < |src| && SymbolOf(src[i]) == sym {
      var d := Direction(src[i]);
      GroupStep(src, i);
      RunGroups(src, i + 1, sym, value + d);
      MergeTwice(sym, value, d, Group(Commands(src, i + 1)));
    } else {
      RunEnds(src, i, sym, value);
    }
  }

  lemma {:induction false} TokenGroups(src: string, b: nat)
    requires b <= |src|
    ensures var t := TokenAt(src, b);
            Group(Commands(src, b)) == if t.sym == Eof then [] else [(t.sym, t.value)] + Group(Commands(src, t.end))
    decreases |src| - b
  {
    if b < |src| {
      var s := SymbolOf(src[b]);
      if s == NoSym {
        TokenGroups(src, b + 1);
      } else {
        GroupStep(src, b);
        if IsRun(s) {
          RunGroups(src, b + 1, s, Direction(src[b]));
        }
      }
    }
  }

  /** The token stream is the command text filtered and grouped into maximal runs. */
  lemma {:induction false} ScannerRefinesGrouping(src: string, b: nat)
    requires b <= |src|
    ensures Tokens(src, b) == Group(Commands(src, b))
    decreases |src| - b
  {
    TokenCovers(src, b);
    TokenGroups(src, b);
    var t := TokenAt(src, b);
    if t.sym != Eof {
      ScannerRefinesGrouping(src, t.end);
    }
  }

  // ----- Bracket nesting -----

  function Delta(c: char): int {
    if c == '[' then 1 else if c == ']' then -1 else 0
  }

  /** Brackets opened minus brackets closed in src[i..j]. */
  function Depth(src: string, i: nat, j: nat): int
    requires i <= j <= |src|
  {
    if i == j then 0 else Depth(src, i, j - 1) + Delta(src[j - 1])
  }

  lemma {:induction false} DepthSplit(src: string, i: nat, k: nat, j: nat)
    requires i <= k <= j <= |src|
    ensures Depth(src, i, j) == Depth(src, i, k) + Depth(src, k, j)
    decreases j - k
  {
    if k < j {
      DepthSplit(src, i, k, j - 1);
    }
  }

  /** No prefix of src[i..j] closes more than it opens. */
  ghost predicate NonNegative(src: string, i: nat, j: nat)
    requires i <= j <= |src|
  {
    forall k :: i <= k <= j ==> Depth(src, i, k) >= 0
  }

  ghost predicate Balanced(src: string) {
    NonNegative(src, 0, |src|) && Depth(src, 0, |src|) == 0
  }

  /** src[o] and src[c] are a matching pair of brackets. */
  ghost predicate Matching(src: string, o: nat, c: nat) {
    && o < c < |src|
    && src[o] == '[' && src[c] == ']'
    && Depth(src, o + 1, c) == 0
    && NonNegative(src, o + 1, c)
  }
}
