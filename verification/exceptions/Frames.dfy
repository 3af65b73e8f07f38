/** Frames of generated functions, what their tables have to say for the code to work, and what
    the personality routine then decides on them. */
module ExceptionFrames {

  import opened ExceptionLeb128
  import opened ExceptionActions
  import opened ExceptionLsda
  import opened ExceptionTables
  import opened ExceptionCatchFunction

  /** An activation of a generated function that waits for its callee: the types it catches,
      its language specific data, where it stopped, where its code starts, and the address of
      block EXCEPTION in the code. */
  datatype Frame = Frame(kinds: seq<int>, lsda: nat, ip: nat, regionStart: nat, pad: nat)

  /** What the tables of a frame have to say for the generated code to work: the first entry
      that covers the call leads to the exception block, and its chain lists the frame's
      clauses in order, cleanups after them. The clauses are those of the landing pad in the
      frame's code, and there are cleanups only if it is marked as one. */
  ghost predicate DescribedBy(mem: seq<Byte>, f: Frame, sites: seq<Site>, chain: seq<nat>) {
    && HasTable(mem, f.lsda, sites)
    && var i := FirstCovering(sites, PcOffset(f.ip, f.regionStart));
       && i < |sites|
       && f.pad == Wrapped(f.regionStart + sites[i].landingPad)
       && Lists(mem, ParseHeader(mem, f.lsda), sites[i], chain, PadOf(CatchWrapped(f.kinds)))
  }

  /** The action of an entry lists what a landing pad asks for: its clauses, and nothing but
      cleanups besides, provided that it is marked as a cleanup. */
  ghost predicate Lists(mem: seq<Byte>, h: Header, site: Site, chain: seq<nat>, pad: Instr)
    requires h.Header?
  {
    && pad.LandingPad?
    && if site.action == 0 then pad.cleanup && pad.clauses == []
       else
         && ChainAt(mem, h.classInfo, h.end + site.action - 1, chain)
         && Caught(mem, h.classInfo, chain) == Somes(pad.clauses)
         && CleanupsLast(chain) && (0 in chain ==> pad.cleanup)
  }

  predicate CleanupsLast(chain: seq<nat>) {
    forall i, j :: 0 <= i < j < |chain| && chain[i] == 0 ==> chain[j] == 0
  }

  ghost predicate Described(mem: seq<Byte>, f: Frame) {
    exists sites, chain :: DescribedBy(mem, f, sites, chain)
  }

  predicate Ours(t: Thrown) {
    t.exceptionClass == OUR_BASE_EXCEPTION_CLASS
  }

  predicate Live(t: Thrown) {
    t.address != 0 && t.address in t.objects
  }

  /** The clause of a frame that catches an exception, or 0. */
  function ClauseFor(f: Frame, t: Thrown): nat
    requires Live(t)
  {
    if Ours(t) then ClauseOf(f.kinds, t.objects[t.address].kind) else 0
  }

  /** The landing pad of a generated function lists the types that it was made for. */
  lemma PadListsKinds(kinds: seq<int>)
    ensures PadOf(CatchWrapped(kinds)) == LandingPad(true, kinds)
  {
    hide Routes, CatchBlocks, Slots;
  }

  lemma {:induction false} ListedIsDefined(mem: seq<Byte>, h: Header, site: Site, chain: seq<nat>, pad: Instr,
                                           t: Thrown)
    requires h.Header? && Live(t) && Lists(mem, h, site, chain, pad)
    ensures ActionDefined(mem, h, site, t)
  {
    hide ChainAt, TrailAt, TrailOf, Caught, Somes, CleanupsLast;
    if Acts(site, t) {
      ChainHasTrail(mem, h.classInfo, h.end + site.action - 1, chain, t.objects[t.address].kind);
    }
  }

  /** Where the chain of an entry lists the clauses, the selector found in the bytes is the
      clause number. */
  lemma {:induction false} SelectorIsClause(mem: seq<Byte>, h: Header, site: Site, chain: seq<nat>, pad: Instr,
                                            t: Thrown, selector: nat)
    requires h.Header? && Live(t) && Selects(mem, h, site, t, selector) && Lists(mem, h, site, chain, pad)
    ensures selector == if Ours(t) then ClauseOf(pad.clauses, t.objects[t.address].kind) else 0
  {
    hide ChainAt, TrailAt, TrailOf, Caught, Somes, CleanupsLast, FirstMatch, Matches, CatchFirst;
    if Acts(site, t) {
      var kind := t.objects[t.address].kind;
      ChainHasTrail(mem, h.classInfo, h.end + site.action - 1, chain, kind);
      PositionIsClauseIff(mem, h.classInfo, chain, pad.clauses, kind);
      NoEarlyCleanup(mem, h.classInfo, chain, kind);
    }
  }

  lemma NoEarlyCleanup(mem: seq<Byte>, classInfo: nat, chain: seq<nat>, kind: int)
    requires CleanupsLast(chain)
    ensures CatchFirst(mem, classInfo, chain, kind)
  {
    hide TypeAt, CatchFirst;
    var r := FirstMatch(mem, classInfo, chain, kind);
    CatchFirstIff(mem, classInfo, chain, kind);
    assert r > 0 ==> chain[r - 1] > 0;
    hide FirstMatch, Matches;
  }

  /** Both verdicts of the personality routine on a described frame. */
  lemma {:induction false} FrameVerdicts(mem: seq<Byte>, f: Frame, t: Thrown)
    requires Described(mem, f) && Live(t)
    ensures Defined(mem, f.lsda, t, f.ip, f.regionStart)
    ensures Personality(mem, f.lsda, true, t, f.ip, f.regionStart) == if ClauseFor(f, t) > 0 then Handler else Continue
    ensures Personality(mem, f.lsda, false, t, f.ip, f.regionStart) == Install(t.address, ClauseFor(f, t), f.pad)
  {
    hide Personality, Defined, FirstCovering, Selects, ParseHeader, SitesAt, Lists, ActionDefined;
    var sites, chain :| DescribedBy(mem, f, sites, chain);
    var h, site := ParseHeader(mem, f.lsda), sites[FirstCovering(sites, PcOffset(f.ip, f.regionStart))];
    var pad := PadOf(CatchWrapped(f.kinds));
    PadListsKinds(f.kinds);
    ListedIsDefined(mem, h, site, chain, pad, t);
    TableIsDefined(mem, f.lsda, t, f.ip, f.regionStart, sites);
    TableDecides(mem, f.lsda, t, f.ip, f.regionStart, sites);
    var cleaning := Personality(mem, f.lsda, false, t, f.ip, f.regionStart);
    SelectorIsClause(mem, h, site, chain, pad, t, cleaning.selector);
  }
}
