/** What the personality routine decides on whole call-site tables. */
module ExceptionTables {

  import opened ExceptionLeb128
  import opened ExceptionEncodings
  import opened ExceptionPointers
  import opened ExceptionActions
  import opened ExceptionLsda

  /** The bytes from `p` to `end` hold exactly these entries. */
  ghost predicate SitesAt(mem: seq<Byte>, p: nat, end: nat, encoding: Byte, sites: seq<Site>)
    decreases |sites|
  {
    if sites == [] then p >= end
    else
      && p < end
      && var e := DecodeSite(mem, p, encoding);
         e.Entry? && e.site == sites[0] && SitesAt(mem, e.next, end, encoding, sites[1..])
  }

  /** The index of the first entry that covers an offset, or the number of entries. */
  function FirstCovering(sites: seq<Site>, pcOffset: nat): (i: nat)
    ensures i <= |sites|
    ensures i < |sites| ==> Covers(sites[i], pcOffset)
    ensures forall j :: 0 <= j < i ==> !Covers(sites[j], pcOffset)
  {
    if sites == [] || Covers(sites[0], pcOffset) then 0 else 1 + FirstCovering(sites[1..], pcOffset)
  }

  lemma {:induction false} WalkFindsFirst(mem: seq<Byte>, p: nat, end: nat, encoding: Byte, sites: seq<Site>,
                                          pcOffset: nat)
    requires SitesAt(mem, p, end, encoding, sites)
    ensures var i := FirstCovering(sites, pcOffset);
            FindSite(mem, p, end, encoding, pcOffset) == if i < |sites| then At(sites[i]) else Nowhere
    decreases |sites|
  {
    if sites != [] && !Covers(sites[0], pcOffset) {
      WalkFindsFirst(mem, DecodeSite(mem, p, encoding).next, end, encoding, sites[1..], pcOffset);
    }
  }

  // ----- Written tables -----

  predicate Writable(site: Site, encoding: Byte, k: nat) {
    && encoding < 16 && Encodable(site.action, ULEB, k)
    && Encodable(site.start, FormatOf(encoding), k) && site.start < WORD
    && Encodable(site.length, FormatOf(encoding), k) && site.length < WORD
    && Encodable(site.landingPad, FormatOf(encoding), k) && site.landingPad < WORD
  }

  function WriteSite(site: Site, encoding: Byte, k: nat): (bytes: seq<Byte>)
    requires Writable(site, encoding, k)
    ensures |bytes| > 0
  {
    EncodePlain(site.start, FormatOf(encoding), k)
    + (EncodePlain(site.length, FormatOf(encoding), k)
       + (EncodePlain(site.landingPad, FormatOf(encoding), k) + EncodeUnsigned(site.action, k)))
  }

  function WriteSites(sites: seq<Site>, encoding: Byte, k: nat): seq<Byte>
    requires forall i :: 0 <= i < |sites| ==> Writable(sites[i], encoding, k)
  {
    if sites == [] then [] else WriteSite(sites[0], encoding, k) + WriteSites(sites[1..], encoding, k)
  }

  lemma {:induction false} SiteUndoesWrite(mem: seq<Byte>, p: nat, site: Site, encoding: Byte, k: nat)
    requires Writable(site, encoding, k) && Lies(mem, p, WriteSite(site, encoding, k))
    ensures DecodeSite(mem, p, encoding) == Entry(site, p + |WriteSite(site, encoding, k)|)
  {
    hide Lies, DecodePointer, EncodePlain, EncodeUnsigned, FormatOf, Groups, Unsigned, InInt, Pow2, Wrapped;
    var f := FormatOf(encoding);
    FormatMeans(encoding, f);
    var a, b, c, d := EncodePlain(site.start, f, k), EncodePlain(site.length, f, k), EncodePlain(site.landingPad, f, k),
      EncodeUnsigned(site.action, k);
    LiesRest(mem, p, a, b + (c + d));
    LiesRest(mem, p + |a|, b, c + d);
    LiesRest(mem, p + |a| + |b|, c, d);
    PointerUndoesEncode(mem, p, encoding, f, site.start, k, 0);
    PointerUndoesEncode(mem, p + |a|, encoding, f, site.length, k, 0);
    PointerUndoesEncode(mem, p + |a| + |b|, encoding, f, site.landingPad, k, 0);
    assert p + |a| + |b| + |c| == p + |a + (b + c)|;
    ULEBUndoesEncode(mem, p + |a| + |b| + |c|, site.action, k);
    WrapsSmall(site.start);
    WrapsSmall(site.length);
    WrapsSmall(site.landingPad);
  }

  /** A table written entry by entry reads back as its entries, wherever it lies. */
  lemma {:induction false} SitesUndoWrite(mem: seq<Byte>, p: nat, sites: seq<Site>, encoding: Byte, k: nat)
    requires forall i :: 0 <= i < |sites| ==> Writable(sites[i], encoding, k)
    requires Lies(mem, p, WriteSites(sites, encoding, k))
    ensures SitesAt(mem, p, p + |WriteSites(sites, encoding, k)|, encoding, sites)
    decreases |sites|
  {
    hide Writable, WriteSite, DecodeSite;
    if sites != [] {
      var bytes := WriteSite(sites[0], encoding, k);
      LiesRest(mem, p, bytes, WriteSites(sites[1..], encoding, k));
      SiteUndoesWrite(mem, p, sites[0], encoding, k);
      SitesUndoWrite(mem, p + |bytes|, sites[1..], encoding, k);
    }
  }

  // ----- The two phases -----

  /** The area at `lsda` has a readable header and exactly these call sites. */
  ghost predicate HasTable(mem: seq<Byte>, lsda: nat, sites: seq<Site>) {
    && lsda != 0 && ParseHeader(mem, lsda).Header?
    && var h := ParseHeader(mem, lsda);
       SitesAt(mem, h.first, h.end, h.encoding, sites)
  }

  /** The selector is the position of the first matching record of the entry's chain, and 0
      for an entry without one and for a foreign exception. */
  ghost predicate Selects(mem: seq<Byte>, h: Header, site: Site, t: Thrown, selector: nat)
    requires h.Header?
  {
    if !Acts(site, t) then selector == 0
    else
      && t.address in t.objects
      && var kind := t.objects[t.address].kind;
         forall trail :: TrailAt(mem, h.classInfo, h.end + site.action - 1, trail, kind) ==>
           selector == FirstMatch(mem, h.classInfo, trail, kind)
  }

  lemma SelectorSelects(mem: seq<Byte>, h: Header, site: Site, t: Thrown)
    requires h.Header? && ActionDefined(mem, h, site, t)
    ensures Selects(mem, h, site, t, Selector(mem, h, site, t))
  {
    hide TrailAt, FirstMatch;
    if Acts(site, t) {
      var p := h.end + site.action - 1;
      var kind := t.objects[t.address].kind;
      forall trail | TrailAt(mem, h.classInfo, p, trail, kind) ensures trail == Trail(mem, h.classInfo, p, kind) {
        TrailUnique(mem, h.classInfo, p, trail, Trail(mem, h.classInfo, p, kind), kind);
      }
    }
  }

  /** On a table whose covering entry has a readable action, or none, the outcome is defined. */
  lemma {:induction false} TableIsDefined(mem: seq<Byte>, lsda: nat, t: Thrown, ip: nat, regionStart: nat,
                                          sites: seq<Site>)
    requires HasTable(mem, lsda, sites)
    requires var i := FirstCovering(sites, PcOffset(ip, regionStart));
             i < |sites| ==> ActionDefined(mem, ParseHeader(mem, lsda), sites[i], t)
    ensures Defined(mem, lsda, t, ip, regionStart)
  {
    hide ParseHeader, FindSite, SitesAt, FirstCovering, ActionDefined;
    var h := ParseHeader(mem, lsda);
    WalkFindsFirst(mem, h.first, h.end, h.encoding, sites, PcOffset(ip, regionStart));
  }

  /** Both phases act on the first covering entry of the table and on nothing else: the
      cleanup phase installs its landing pad, and the search phase reports a handler exactly
      if the selector installed is positive. */
  lemma {:induction false} TableDecides(mem: seq<Byte>, lsda: nat, t: Thrown, ip: nat, regionStart: nat,
                                        sites: seq<Site>)
    requires HasTable(mem, lsda, sites) && Defined(mem, lsda, t, ip, regionStart)
    ensures var i := FirstCovering(sites, PcOffset(ip, regionStart));
            var searching := Personality(mem, lsda, true, t, ip, regionStart);
            var cleaning := Personality(mem, lsda, false, t, ip, regionStart);
            if i == |sites| then searching == cleaning == Continue
            else
              && cleaning.Install? && cleaning.exception == t.address
              && cleaning.ip == Wrapped(regionStart + sites[i].landingPad)
              && searching == (if cleaning.selector > 0 then Handler else Continue)
              && Selects(mem, ParseHeader(mem, lsda), sites[i], t, cleaning.selector)
  {
    hide SitesAt, FindSite, ParseHeader, Selector, ActionDefined, Selects, FirstCovering;
    var h := ParseHeader(mem, lsda);
    WalkFindsFirst(mem, h.first, h.end, h.encoding, sites, PcOffset(ip, regionStart));
    var i := FirstCovering(sites, PcOffset(ip, regionStart));
    if i < |sites| {
      SelectorSelects(mem, h, sites[i], t);
    }
  }

  /** The entry's code is where the return address `ip` comes from: the call ends at `ip`, so it
      starts before it. */
  predicate ReturnsInto(site: Site, ip: nat, regionStart: nat) {
    regionStart + site.start < ip <= regionStart + site.start + site.length
  }

  /** Code that does not reach the end of the address space. */
  predicate Straight(site: Site, regionStart: nat) {
    regionStart + site.start + site.length < WORD
  }

  lemma CoversIff(site: Site, ip: nat, regionStart: nat)
    requires ip < WORD && Straight(site, regionStart)
    ensures Covers(site, PcOffset(ip, regionStart)) <==> site.landingPad != 0 && ReturnsInto(site, ip, regionStart)
  {
  }

  /** The first entry with a landing pad whose code the return address comes from. */
  predicate FirstInto(sites: seq<Site>, i: nat, ip: nat, regionStart: nat) {
    && ip < WORD && i <= |sites| && (forall j :: 0 <= j < |sites| ==> Straight(sites[j], regionStart))
    && (forall j :: 0 <= j < i ==> sites[j].landingPad == 0 || !ReturnsInto(sites[j], ip, regionStart))
    && (i < |sites| ==> sites[i].landingPad != 0 && ReturnsInto(sites[i], ip, regionStart))
  }

  lemma FirstByAddress(sites: seq<Site>, i: nat, ip: nat, regionStart: nat)
    requires FirstInto(sites, i, ip, regionStart)
    ensures FirstCovering(sites, PcOffset(ip, regionStart)) == i
  {
    hide Covers, PcOffset, ReturnsInto, Straight, FirstCovering;
    forall j | 0 <= j < |sites|
      ensures Covers(sites[j], PcOffset(ip, regionStart))
         <==> sites[j].landingPad != 0 && ReturnsInto(sites[j], ip, regionStart)
    {
      CoversIff(sites[j], ip, regionStart);
    }
  }

  /** By return address: the cleanup phase installs the landing pad of the first entry that has
      one and whose code the address comes from, and the search phase follows its action; if
      there is no such entry, both phases continue. */
  lemma ReturnAddressDecides(mem: seq<Byte>, lsda: nat, t: Thrown, ip: nat, regionStart: nat, sites: seq<Site>, i: nat)
    requires HasTable(mem, lsda, sites) && FirstInto(sites, i, ip, regionStart)
    requires Defined(mem, lsda, t, ip, regionStart)
    ensures var searching := Personality(mem, lsda, true, t, ip, regionStart);
            var cleaning := Personality(mem, lsda, false, t, ip, regionStart);
            if i == |sites| then searching == cleaning == Continue
            else
              && cleaning.Install? && cleaning.exception == t.address
              && cleaning.ip == (regionStart + sites[i].landingPad) % WORD
              && searching == (if cleaning.selector > 0 then Handler else Continue)
              && Selects(mem, ParseHeader(mem, lsda), sites[i], t, cleaning.selector)
  {
    hide HasTable, Defined, FirstInto, FirstCovering, Personality, Selects, ParseHeader, PcOffset;
    FirstByAddress(sites, i, ip, regionStart);
    TableDecides(mem, lsda, t, ip, regionStart, sites);
  }

  /** On any bytes at all the phases agree, and neither catches a foreign exception. */
  lemma PhasesAgree(mem: seq<Byte>, lsda: nat, t: Thrown, ip: nat, regionStart: nat)
    requires Defined(mem, lsda, t, ip, regionStart)
    ensures var searching := Personality(mem, lsda, true, t, ip, regionStart);
            var cleaning := Personality(mem, lsda, false, t, ip, regionStart);
            && !searching.Install? && cleaning != Handler && (lsda == 0 ==> searching == cleaning == Continue)
            && (searching == Abort <==> cleaning == Abort)
            && (searching == Handler <==> cleaning.Install? && cleaning.selector > 0)
            && (t.exceptionClass != OUR_BASE_EXCEPTION_CLASS ==> searching != Handler)
            && (t.exceptionClass != OUR_BASE_EXCEPTION_CLASS && cleaning.Install? ==> cleaning.selector == 0)
  {
  }

  /** The two calls the unwinder makes for one frame, on the routine itself: a handler is found
      exactly when the landing pad is then installed with a positive selector, and a foreign
      exception finds none and gets selector 0. */
  method SearchThenCleanUp(mem: seq<Byte>, lsda: nat, t: Thrown, context: Context)
    returns (aborted: bool, searching: ReasonCode, cleaning: ReasonCode)
    requires Defined(mem, lsda, t, context.ip, context.regionStart)
    modifies context
    ensures !aborted ==> (searching == HandlerFound <==> cleaning == InstallContext && context.gr1 > 0)
    ensures !aborted && cleaning == InstallContext ==> context.gr0 == t.address
    ensures !aborted && t.exceptionClass != OUR_BASE_EXCEPTION_CLASS ==>
              searching != HandlerFound && (cleaning == InstallContext ==> context.gr1 == 0)
    ensures !aborted && cleaning != InstallContext ==> unchanged(context)
  {
    PhasesAgree(mem, lsda, t, context.ip, context.regionStart);
    hide Personality, Defined;
    aborted, searching := HandleLsda(mem, lsda, UA_SEARCH_PHASE, t, context);
    cleaning := ContinueUnwind;
    if !aborted {
      aborted, cleaning := HandleLsda(mem, lsda, UA_CLEANUP_PHASE, t, context);
    }
  }
}
