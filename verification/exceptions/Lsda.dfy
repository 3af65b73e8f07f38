/** The language specific data area of a function and the personality routine's walk through
    it: `handleLsda`. */
module ExceptionLsda {

  import opened ExceptionLeb128
  import opened ExceptionEncodings
  import opened ExceptionPointers
  import opened ExceptionActions

  // ----- The header -----

  datatype Header = Header(classInfo: nat, encoding: Byte, first: nat, end: nat) | HeaderAborts | HeaderUndefined

  function SitesPart(mem: seq<Byte>, p: nat, classInfo: nat): Header {
    if p >= |mem| || !InInt(mem, p + 1) then HeaderUndefined
    else
      var first := p + 1 + Groups(mem, p + 1);
      Header(classInfo, mem[p], first, first + Unsigned(mem, p + 1))
  }

  function TypesPart(mem: seq<Byte>, p: nat): Header {
    if p >= |mem| then HeaderUndefined
    else if mem[p] == OMIT then SitesPart(mem, p + 1, 0)
    else if !InInt(mem, p + 1) then HeaderUndefined
    else
      var q := p + 1 + Groups(mem, p + 1);
      SitesPart(mem, q, q + Unsigned(mem, p + 1))
  }

  /** The header at `lsda`: an optional landing pad base, which is not used; the optional
      distance to the type infos; the encoding and the length of the call-site table. */
  function ParseHeader(mem: seq<Byte>, lsda: nat): Header {
    if lsda >= |mem| then HeaderUndefined
    else match (if mem[lsda] == OMIT then Value(0, lsda + 1) else DecodePointer(mem, lsda + 1, mem[lsda]))
         case Value(_, p) => TypesPart(mem, p)
         case Aborts => HeaderAborts
         case Undefined => HeaderUndefined
  }

  method ReadHeader(mem: seq<Byte>, lsda: nat)
    returns (aborted: bool, classInfo: nat, encoding: Byte, first: nat, end: nat)
    requires ParseHeader(mem, lsda) != HeaderUndefined
    ensures ParseHeader(mem, lsda) == if aborted then HeaderAborts else Header(classInfo, encoding, first, end)
  {
    hide DecodePointer, InInt, Groups, Unsigned, Pow2;
    aborted, classInfo, encoding, first, end := false, 0, 0, 0, 0;
    var p := lsda;
    var lpStartEncoding := mem[p];
    p := p + 1;
    if lpStartEncoding != OMIT {
      var unused;
      aborted, unused, p := ReadEncodedPointer(mem, p, lpStartEncoding);
      if aborted {
        return;
      }
    }
    var ttypeEncoding := mem[p];
    p := p + 1;
    if ttypeEncoding != OMIT {
      var classInfoOffset;
      classInfoOffset, p := ReadULEB128(mem, p);
      classInfo := p + classInfoOffset;
    }
    encoding := mem[p];
    var callSiteTableLength;
    UnsignedFits(mem, p + 1);
    Pow2Int();
    callSiteTableLength, first := ReadULEB128(mem, p + 1);
    end := first + callSiteTableLength % 0x1_0000_0000;
  }

  // ----- The call-site table -----

  datatype Site = Site(start: nat, length: nat, landingPad: nat, action: nat)

  datatype Entry = Entry(site: Site, next: nat) | EntryAborts | EntryUndefined

  function DecodeSite(mem: seq<Byte>, p: nat, encoding: Byte): (e: Entry)
    ensures e.Entry? ==> e.next > p
  {
    match DecodePointer(mem, p, encoding)
    case Aborts => EntryAborts
    case Undefined => EntryUndefined
    case Value(start, p1) =>
      match DecodePointer(mem, p1, encoding)
      case Aborts => EntryAborts
      case Undefined => EntryUndefined
      case Value(length, p2) =>
        match DecodePointer(mem, p2, encoding)
        case Aborts => EntryAborts
        case Undefined => EntryUndefined
        case Value(landingPad, p3) =>
          if InInt(mem, p3) then Entry(Site(start, length, landingPad, Unsigned(mem, p3)), p3 + Groups(mem, p3))
          else EntryUndefined
  }

  method ReadSite(mem: seq<Byte>, p: nat, encoding: Byte) returns (aborted: bool, site: Site, next: nat)
    requires DecodeSite(mem, p, encoding) != EntryUndefined
    ensures DecodeSite(mem, p, encoding) == if aborted then EntryAborts else Entry(site, next)
  {
    hide DecodePointer, InInt, Groups, Unsigned, Pow2;
    site, next := Site(0, 0, 0, 0), p;
    var start, length, landingPad, action;
    aborted, start, next := ReadEncodedPointer(mem, next, encoding);
    if aborted {
      return;
    }
    aborted, length, next := ReadEncodedPointer(mem, next, encoding);
    if aborted {
      return;
    }
    aborted, landingPad, next := ReadEncodedPointer(mem, next, encoding);
    if aborted {
      return;
    }
    action, next := ReadULEB128(mem, next);
    site := Site(start, length, landingPad, action);
  }

  /** An entry with a landing pad whose range holds the code offset. */
  predicate Covers(site: Site, pcOffset: nat) {
    site.landingPad != 0 && site.start <= pcOffset < Wrapped(site.start + site.length)
  }

  datatype Walk = At(site: Site) | Nowhere | WalkAborts | WalkUndefined

  /** The first entry from `p` to `end` that covers the offset. */
  function FindSite(mem: seq<Byte>, p: nat, end: nat, encoding: Byte, pcOffset: nat): Walk
    decreases end - p
  {
    if p >= end then Nowhere
    else match DecodeSite(mem, p, encoding)
         case EntryAborts => WalkAborts
         case EntryUndefined => WalkUndefined
         case Entry(site, next) =>
           if Covers(site, pcOffset) then At(site) else FindSite(mem, next, end, encoding, pcOffset)
  }

  // ----- What the personality routine decides -----

  /** Continue unwinding; handler found; landing pad installed with the exception object, the
      selector and the new instruction pointer; or the program aborts. */
  datatype Verdict = Continue | Handler | Install(exception: nat, selector: nat, ip: nat) | Abort

  ghost predicate HasTrail(mem: seq<Byte>, classInfo: nat, p: nat, kind: int) {
    exists trail :: TrailAt(mem, classInfo, p, trail, kind)
  }

  ghost function Trail(mem: seq<Byte>, classInfo: nat, p: nat, kind: int): (trail: seq<nat>)
    requires HasTrail(mem, classInfo, p, kind)
    ensures TrailAt(mem, classInfo, p, trail, kind)
  {
    var trail :| TrailAt(mem, classInfo, p, trail, kind);
    trail
  }

  datatype Thrown = Thrown(exceptionClass: nat, address: nat, objects: Objects)

  /** The entry sends our exceptions to an action chain. */
  predicate Acts(site: Site, t: Thrown) {
    t.exceptionClass == OUR_BASE_EXCEPTION_CLASS && t.address != 0 && site.action != 0
  }

  ghost predicate ActionDefined(mem: seq<Byte>, h: Header, site: Site, t: Thrown)
    requires h.Header?
  {
    Acts(site, t) ==>
      t.address in t.objects
      && HasTrail(mem, h.classInfo, h.end + site.action - 1, t.objects[t.address].kind)
  }

  /** The position of the first record of the entry's chain that catches the exception; 0 for
      a cleanup and for foreign exceptions. */
  ghost function Selector(mem: seq<Byte>, h: Header, site: Site, t: Thrown): nat
    requires h.Header? && ActionDefined(mem, h, site, t)
  {
    if Acts(site, t) then
      var kind := t.objects[t.address].kind;
      FirstMatch(mem, h.classInfo, Trail(mem, h.classInfo, h.end + site.action - 1, kind), kind)
    else 0
  }

  function PcOffset(ip: nat, regionStart: nat): nat {
    Wrapped(Wrapped(ip - 1) - regionStart)
  }

  ghost predicate Defined(mem: seq<Byte>, lsda: nat, t: Thrown, ip: nat, regionStart: nat) {
    lsda == 0 ||
    match ParseHeader(mem, lsda)
    case HeaderUndefined => false
    case HeaderAborts => true
    case Header(_, encoding, first, end) =>
      match FindSite(mem, first, end, encoding, PcOffset(ip, regionStart))
      case WalkUndefined => false
      case At(site) => ActionDefined(mem, ParseHeader(mem, lsda), site, t)
      case _ => true
  }

  ghost function Personality(mem: seq<Byte>, lsda: nat, search: bool, t: Thrown, ip: nat, regionStart: nat): Verdict
    requires Defined(mem, lsda, t, ip, regionStart)
  {
    if lsda == 0 then Continue
    else match ParseHeader(mem, lsda)
         case HeaderAborts => Abort
         case Header(_, encoding, first, end) =>
           match FindSite(mem, first, end, encoding, PcOffset(ip, regionStart))
           case WalkAborts => Abort
           case Nowhere => Continue
           case At(site) =>
             var selector := Selector(mem, ParseHeader(mem, lsda), site, t);
             if !search then Install(t.address, selector, Wrapped(regionStart + site.landingPad))
             else if selector > 0 then Handler
             else Continue
  }

  // ----- The routine -----

  datatype ReasonCode = HandlerFound | InstallContext | ContinueUnwind

  class Context {
    var ip: nat
    var gr0: nat
    var gr1: nat
    const regionStart: nat

    constructor (ip: nat, regionStart: nat)
      ensures this.ip == ip && this.regionStart == regionStart
    {
      this.ip := ip;
      this.gr0 := 0;
      this.gr1 := 0;
      this.regionStart := regionStart;
    }
  }

  const UA_SEARCH_PHASE: nat := 1
  const UA_CLEANUP_PHASE: nat := 2

  ghost predicate Obeys(v: Verdict, aborted: bool, ret: ReasonCode) {
    match v
    case Abort => aborted
    case Continue => !aborted && ret == ContinueUnwind
    case Handler => !aborted && ret == HandlerFound
    case Install(_, _, _) => !aborted && ret == InstallContext
  }

  method HandleLsda(mem: seq<Byte>, lsda: nat, actions: nat, t: Thrown, context: Context)
    returns (aborted: bool, ret: ReasonCode)
    requires Defined(mem, lsda, t, context.ip, context.regionStart)
    modifies context
    ensures var v := Personality(mem, lsda, actions % 2 == UA_SEARCH_PHASE, t, old(context.ip), context.regionStart);
            && Obeys(v, aborted, ret)
            && (v.Install? ==> context.gr0 == v.exception && context.gr1 == v.selector && context.ip == v.ip)
            && (!v.Install? ==> unchanged(context))
    ensures lsda == 0 ==> !aborted && ret == ContinueUnwind && unchanged(context)
  {
    hide ParseHeader, FindSite, Selector, ActionDefined, Trail;
    aborted, ret := false, ContinueUnwind;
    if lsda == 0 {
      return;
    }
    var pcOffset := PcOffset(context.ip, context.regionStart);
    var classInfo, encoding, first, end;
    aborted, classInfo, encoding, first, end := ReadHeader(mem, lsda);
    if aborted {
      return;
    }
    var found, site;
    aborted, found, site := WalkSites(mem, first, end, encoding, pcOffset);
    if aborted || !found {
      return;
    }
    ghost var h := ParseHeader(mem, lsda);
    var exceptionMatched, actionValue := MatchSite(mem, h, classInfo, end, site, t);
    if actions % 2 != UA_SEARCH_PHASE {
      context.gr0 := t.address;
      context.gr1 := if exceptionMatched then actionValue else 0;
      context.ip := Wrapped(context.regionStart + site.landingPad);
      ret := InstallContext;
    } else if exceptionMatched {
      ret := HandlerFound;
    }
  }

  /** The loop over the call-site table. */
  method WalkSites(mem: seq<Byte>, first: nat, end: nat, encoding: Byte, pcOffset: nat)
    returns (aborted: bool, found: bool, site: Site)
    requires FindSite(mem, first, end, encoding, pcOffset) != WalkUndefined
    ensures FindSite(mem, first, end, encoding, pcOffset) ==
              if aborted then WalkAborts else if found then At(site) else Nowhere
  {
    hide DecodeSite;
    aborted, found, site := false, false, Site(0, 0, 0, 0);
    var callSitePtr := first;
    while callSitePtr < end
      invariant !aborted && !found
      invariant FindSite(mem, first, end, encoding, pcOffset) == FindSite(mem, callSitePtr, end, encoding, pcOffset)
      decreases end - callSitePtr
    {
      ghost var before := callSitePtr;
      aborted, site, callSitePtr := ReadSite(mem, callSitePtr, encoding);
      if aborted {
        return;
      }
      if site.landingPad == 0 {
        continue;
      }
      if site.start <= pcOffset && pcOffset < Wrapped(site.start + site.length) {
        found := true;
        return;
      }
    }
  }

  /** The part of the loop body that looks at the action of the entry found. A foreign
      exception has no action. */
  method MatchSite(mem: seq<Byte>, ghost h: Header, classInfo: nat, actionTableStart: nat, site: Site, t: Thrown)
    returns (exceptionMatched: bool, actionValue: nat)
    requires h.Header? && h.classInfo == classInfo && h.end == actionTableStart
    requires ActionDefined(mem, h, site, t)
    ensures (if exceptionMatched then actionValue else 0) == Selector(mem, h, site, t)
    ensures exceptionMatched ==> actionValue > 0
  {
    hide TrailAt, FirstMatch;
    exceptionMatched, actionValue := false, 0;
    var actionEntry := site.action;
    if t.exceptionClass != OUR_BASE_EXCEPTION_CLASS {
      actionEntry := 0;
    }
    if actionEntry != 0 {
      actionEntry := actionEntry + actionTableStart - 1;
      ghost var trail :=
        if Acts(site, t) then Trail(mem, classInfo, actionEntry, t.objects[t.address].kind) else [];
      var value;
      exceptionMatched, value :=
        HandleActionValue(mem, classInfo, actionEntry, t.exceptionClass, t.address, t.objects, 0, trail);
      actionValue := if exceptionMatched then value else 0;
    }
  }
}
