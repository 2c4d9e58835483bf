/**
 * The achievement engine: loading the achievements of a game from the
 * server's patch document, deactivating those the player already unlocked,
 * and testing the loaded ones once per frame.
 */
module CheevosEngine {
  import opened CheevosTypes
  import opened CheevosUtil
  import opened CheevosMemory
  import opened CheevosParse
  import opened CheevosEval
  import opened Cheevos
  import opened CheevosJson

  // ---------------------------------------------------------------------
  // One achievement as `cheevos_new_cheevo` builds it

  /** A condition of a zero-filled array: every field of `cheevos_cond_t` is 0. */
  const ZERO_COND := Cond(Standard, 0, 0, Var(Address, Bit(0), 0, 0, 0), Equals, Var(Address, Bit(0), 0, 0, 0))

  /**
   * The sets `cheevos_new_cheevo` builds from a MemAddr string: as many sets
   * as the string has, but every condition of every set lands in set 0 and
   * the others stay empty, because the per-set count never advances past
   * set 0 and the condition parser reads the whole string.
   */
  function LoadedSets(memaddr: string, layout: MemoryLayout): (r: seq<seq<Cond>>)
    requires ScanMemaddr(memaddr, layout).Parsed?
  {
    var scan := ScanMemaddr(memaddr, layout);
    seq(scan.sets, k requires 0 <= k < scan.sets => if k == 0 then scan.conds else [])
  }

  /** The state of a freshly loaded achievement: id read by `strtol` into an `unsigned`, active, clean. */
  function LoadedState(f: Fields, layout: MemoryLayout): CheevoState
    requires ScanMemaddr(f.memaddr, layout).Parsed?
  {
    CheevoState(Wrap32(Strtol(f.id)), true, 0, LoadedSets(f.memaddr, layout))
  }

  /** The descriptive fields copied out of the document; points read by `strtol` into an `unsigned`. */
  function LoadedInfo(f: Fields): CheevoInfo
  {
    CheevoInfo(f.title, f.desc, f.author, f.badge, Wrap32(Strtol(f.points)))
  }

  /**
   * `cheevos_new_cheevo` for one object of the achievements array: a fresh
   * achievement with its own fresh condition arrays; set 0 keeps the MemAddr
   * string as its expression, the empty sets have none.
   */
  method NewCheevo(f: Fields, layout: MemoryLayout) returns (c: Cheevo)
    requires ScanMemaddr(f.memaddr, layout).Parsed?
    ensures fresh(c) && fresh(c.Arrays) && c.Valid()
    ensures c.State() == LoadedState(f, layout) && c.info == LoadedInfo(f)
    ensures forall k :: 0 <= k < |c.condsets| ==> c.condsets[k].expression == if k == 0 then Some(f.memaddr) else None
  {
    ghost var sts := LoadedSets(f.memaddr, layout);
    var count := CountCondSets(f.memaddr, layout);
    var sets: seq<CondSet> := [];
    for k := 0 to count
      invariant |sets| == k && DistinctArrays(sets)
      invariant forall j :: 0 <= j < k ==> fresh(sets[j].conds)
      invariant forall j :: 0 <= j < k ==> sets[j].conds[..] == sts[j]
      invariant forall j :: 0 <= j < k ==> sets[j].expression == if j == 0 then Some(f.memaddr) else None
    {
      var condset := NewCondSet(f.memaddr, layout, k);
      sets := sets + [condset];
    }
    c := new Cheevo(Wrap32(Strtol(f.id)), LoadedInfo(f), true, sets);
    assert forall o :: o in c.Arrays ==> exists k :: 0 <= k < |sets| && o == sets[k].conds;
  }

  /** Set `k` of `cheevos_new_cheevo`: a fresh array of the counted size, filled by the condition parser when not empty. */
  method NewCondSet(memaddr: string, layout: MemoryLayout, k: nat) returns (condset: CondSet)
    requires ScanMemaddr(memaddr, layout).Parsed? && k < ScanMemaddr(memaddr, layout).sets
    ensures fresh(condset.conds) && condset.conds[..] == LoadedSets(memaddr, layout)[k]
    ensures condset.expression == if k == 0 then Some(memaddr) else None
  {
    ghost var scan := ScanMemaddr(memaddr, layout);
    ScanHasConditions(memaddr, layout);
    var n := CountCondsInSet(memaddr, layout, k);
    var conds := new Cond[n](_ => ZERO_COND);
    if n > 0 {
      ParseMemaddr(conds, memaddr, layout);
      assert conds[..] == conds[..|scan.conds|];
      condset := CondSet(conds, Some(memaddr));
    } else {
      condset := CondSet(conds, None);
    }
  }

  /**
   * A loaded achievement unlocks exactly when every condition of its MemAddr
   * string, of every set, holds together as one set: all of them sit in the
   * core set and the empty alternatives are always valid.
   */
  lemma LoadedUnlocksOnEveryCondition(memaddr: string, layout: MemoryLayout, mem: Memory)
    requires ScanMemaddr(memaddr, layout).Parsed?
    ensures var scan, sts := ScanMemaddr(memaddr, layout), LoadedSets(memaddr, layout);
            |sts| == scan.sets >= 1 && sts[0] == scan.conds
            && (forall k :: 1 <= k < |sts| ==> sts[k] == [])
            && EvalCheevo(sts, mem).result == EvalCondSet(scan.conds, mem, false).valid
  {
    ScanHasConditions(memaddr, layout);
    EmptyAlternativesDefer(LoadedSets(memaddr, layout), mem);
  }

  /** What `memset` leaves in an achievement slot no object filled: id 0, inactive, no condition sets. */
  const ZERO_STATE := CheevoState(0, false, 0, [])
  const ZERO_INFO := CheevoInfo("", "", "", "", 0)

  /** The states of the achievements, in order. */
  ghost function States(cheevos: seq<Cheevo>): (r: seq<CheevoState>)
    reads Footprint(cheevos)
    requires Owned(cheevos)
    ensures |r| == |cheevos| && forall i :: 0 <= i < |cheevos| ==> r[i] == cheevos[i].State()
  {
    seq(|cheevos|, i requires 0 <= i < |cheevos| && Owned(cheevos) reads Footprint(cheevos) => cheevos[i].State())
  }

  /** The descriptive fields of the achievements, in order. */
  function Infos(cheevos: seq<Cheevo>): (r: seq<CheevoInfo>)
    ensures |r| == |cheevos| && forall i :: 0 <= i < |cheevos| ==> r[i] == cheevos[i].info
  {
    seq(|cheevos|, i requires 0 <= i < |cheevos| => cheevos[i].info)
  }

  /** `n` zero-filled `cheevo_t` slots, as `memset` leaves them. */
  method ZeroCheevos(n: nat) returns (cheevos: seq<Cheevo>)
    ensures Owned(cheevos)
    ensures forall i :: 0 <= i < |cheevos| ==> fresh(cheevos[i]) && fresh(cheevos[i].Arrays)
    ensures States(cheevos) == seq(n, _ => ZERO_STATE) && Infos(cheevos) == seq(n, _ => ZERO_INFO)
  {
    cheevos := [];
    for k := 0 to n
      invariant |cheevos| == k && Owned(cheevos)
      invariant forall i :: 0 <= i < k ==> fresh(cheevos[i]) && fresh(cheevos[i].Arrays)
      invariant forall i :: 0 <= i < k ==> cheevos[i].State() == ZERO_STATE && cheevos[i].info == ZERO_INFO
    {
      var c := new Cheevo(0, ZERO_INFO, false, []);
      cheevos := cheevos + [c];
    }
  }

  // ---------------------------------------------------------------------
  // Loading a patch document

  /**
   * Every MemAddr string the reading pass files scans, with the console id current
   * when its object ended (otherwise the condition counter never stops).
   */
  predicate Loadable(events: seq<Event>, consoleId: int, layout: MemoryLayout)
  {
    var read := ReadCheevos(events, consoleId);
    Parses(read.core, read.coreConsoles, layout) && Parses(read.unofficial, read.unofficialConsoles, layout)
  }

  /** Each record's MemAddr string scans with the console id beside it. */
  predicate Parses(records: seq<Fields>, consoles: seq<int>, layout: MemoryLayout)
  {
    |records| == |consoles|
    && forall i :: 0 <= i < |records| ==> ScanMemaddr(records[i].memaddr, layout.(consoleId := consoles[i])).Parsed?
  }

  lemma ParsesPrefix(records: seq<Fields>, consoles: seq<int>, records': seq<Fields>, consoles': seq<int>, layout: MemoryLayout)
    requires Parses(records, consoles, layout) && records' <= records && consoles' <= consoles && |records'| == |consoles'|
    ensures Parses(records', consoles', layout)
  {
    forall i | 0 <= i < |records'|
      ensures records'[i] == records[i] && consoles'[i] == consoles[i]
    {
    }
  }

  /**
   * The states the loader leaves in an array of `n` slots: the records
   * filed into it, in order, each loaded for the console id beside it, then
   * zero-filled slots.
   */
  function LoadedStates(records: seq<Fields>, consoles: seq<int>, layout: MemoryLayout, n: nat): (r: seq<CheevoState>)
    requires Parses(records, consoles, layout) && |records| <= n
    ensures |r| == n
  {
    seq(n, i requires 0 <= i < n =>
      if i < |records| then LoadedState(records[i], layout.(consoleId := consoles[i])) else ZERO_STATE)
  }

  /** The descriptive fields the loader leaves in an array of `n` slots. */
  function LoadedInfos(records: seq<Fields>, n: nat): (r: seq<CheevoInfo>)
    requires |records| <= n
    ensures |r| == n
  {
    seq(n, i requires 0 <= i < n => if i < |records| then LoadedInfo(records[i]) else ZERO_INFO)
  }

  /** Filing one more record changes exactly the first zero-filled slot. */
  lemma LoadedStatesSnoc(records: seq<Fields>, consoles: seq<int>, layout: MemoryLayout, n: nat, f: Fields, console: int)
    requires Parses(records, consoles, layout) && Parses(records + [f], consoles + [console], layout) && |records| < n
    requires ScanMemaddr(f.memaddr, layout.(consoleId := console)).Parsed?
    ensures LoadedStates(records + [f], consoles + [console], layout, n)
            == LoadedStates(records, consoles, layout, n)[|records| := LoadedState(f, layout.(consoleId := console))]
    ensures LoadedInfos(records + [f], n) == LoadedInfos(records, n)[|records| := LoadedInfo(f)]
  {
    assert (records + [f])[|records|] == f && (consoles + [console])[|records|] == console;
  }

  /** The reading pass only ever appends: its lists so far are prefixes of the final ones. */
  lemma {:induction false} ReadGrows(st: Loaded, events: seq<Event>)
    ensures var r := ReadFrom(st, events);
            st.core <= r.core && st.unofficial <= r.unofficial
            && st.coreConsoles <= r.coreConsoles && st.unofficialConsoles <= r.unofficialConsoles
    decreases |events|
  {
    if |events| > 0 {
      ReadGrows(st, events[..|events| - 1]);
    }
  }

  /** After `k` events the reading pass holds prefixes of what it holds at the end. */
  lemma ReadPrefix(st: Loaded, events: seq<Event>, k: nat)
    requires k <= |events|
    ensures var r, p := ReadFrom(st, events), ReadFrom(st, events[..k]);
            p.core <= r.core && p.unofficial <= r.unofficial
            && p.coreConsoles <= r.coreConsoles && p.unofficialConsoles <= r.unofficialConsoles
  {
    assert events == events[..k] + events[k..];
    ReadAppend(st, events[..k], events[k..]);
    ReadGrows(ReadFrom(st, events[..k]), events[k..]);
  }

  /** One frame's test of `cheevos`, which leaves the achievements of another set apart from it alone. */
  method TestBeside(cheevos: seq<Cheevo>, others: seq<Cheevo>, mem: Memory, ghost before: seq<CheevoState>)
    returns (awarded: seq<u32>)
    requires Owned(cheevos) && Owned(others) && Apart(cheevos, others) && |before| == |cheevos|
    requires forall i :: 0 <= i < |cheevos| ==> cheevos[i].State() == before[i]
    modifies Footprint(cheevos)
    ensures forall i :: 0 <= i < |cheevos| ==> cheevos[i].State() == StepCheevo(before[i], mem).0
    ensures forall i :: 0 <= i < |others| ==> others[i].State() == old(others[i].State())
    ensures awarded == AwardedIds(before, mem)
  {
    awarded := TestCheevoSet(cheevos, mem, before);
    forall i | 0 <= i < |others|
      ensures others[i].State() == old(others[i].State())
    {
      Untouched(cheevos, others, i);
    }
  }

  /** Achievements of `b` are apart from those of `a` when those of `a` are apart from them. */
  lemma ApartSym(a: seq<Cheevo>, b: seq<Cheevo>)
    requires Apart(a, b)
    ensures Apart(b, a)
  {
  }

  /**
   * The store into the next free slot of one array: a fresh achievement
   * loaded from `f` for the console `console` takes the first zero-filled
   * slot; every other slot keeps its achievement.
   */
  method FileNext(cheevos: seq<Cheevo>, ghost others: seq<Cheevo>, ghost records: seq<Fields>, ghost consoles: seq<int>,
                  i: nat, f: Fields, layout: MemoryLayout, console: int)
      returns (r: seq<Cheevo>)
    requires Owned(cheevos) && Owned(others) && Apart(cheevos, others) && i == |records| < |cheevos|
    requires Parses(records, consoles, layout) && Parses(records + [f], consoles + [console], layout)
    requires States(cheevos) == LoadedStates(records, consoles, layout, |cheevos|)
    requires Infos(cheevos) == LoadedInfos(records, |cheevos|)
    ensures |r| == |cheevos| && Owned(r) && Apart(r, others)
    ensures States(r) == LoadedStates(records + [f], consoles + [console], layout, |r|)
    ensures Infos(r) == LoadedInfos(records + [f], |r|)
  {
    assert (records + [f])[i] == f && (consoles + [console])[i] == console;
    var c := NewCheevo(f, layout.(consoleId := console));
    Replace(cheevos, others, i, c);
    r := cheevos[i := c];
    LoadedStatesSnoc(records, consoles, layout, |cheevos|, f, console);
  }

  /** A valid achievement sharing nothing with `cheevos` and `others` can take slot `i` of `cheevos`. */
  lemma Replace(cheevos: seq<Cheevo>, others: seq<Cheevo>, i: nat, c: Cheevo)
    requires Owned(cheevos) && Owned(others) && Apart(cheevos, others) && i < |cheevos| && c.Valid()
    requires forall j :: 0 <= j < |cheevos| ==> c != cheevos[j] && c.Arrays !! cheevos[j].Arrays
    requires forall j :: 0 <= j < |others| ==> c != others[j] && c.Arrays !! others[j].Arrays
    ensures Owned(cheevos[i := c]) && Apart(cheevos[i := c], others)
    ensures States(cheevos[i := c]) == States(cheevos)[i := c.State()]
    ensures Infos(cheevos[i := c]) == Infos(cheevos)[i := c.info]
  {
  }

  /**
   * One event of the reading pass: the end of an object inside the
   * achievements array files it as `cheevos_new_cheevo` does, into the next
   * free core slot when its flags read 3 and the next free unofficial slot
   * otherwise; any other event goes to the key, string, number or
   * end-of-array handler.
   */
  method ReadEvent(e: Event, ud: ReadState, cores: seq<Cheevo>, unofficials: seq<Cheevo>,
                   coreCount: nat, unofficialCount: nat, layout: MemoryLayout, ghost st: Loaded)
      returns (ud': ReadState, cores': seq<Cheevo>, unofficials': seq<Cheevo>, coreCount': nat, unofficialCount': nat)
    requires ud == st.ud && coreCount == |st.core| && unofficialCount == |st.unofficial|
    requires Owned(cores) && Owned(unofficials) && Apart(cores, unofficials)
    requires var next := ReadStep(st, e);
             |next.core| <= |cores| && |next.unofficial| <= |unofficials|
             && Parses(st.core, st.coreConsoles, layout) && Parses(st.unofficial, st.unofficialConsoles, layout)
             && Parses(next.core, next.coreConsoles, layout) && Parses(next.unofficial, next.unofficialConsoles, layout)
    requires States(cores) == LoadedStates(st.core, st.coreConsoles, layout, |cores|)
    requires States(unofficials) == LoadedStates(st.unofficial, st.unofficialConsoles, layout, |unofficials|)
    requires Infos(cores) == LoadedInfos(st.core, |cores|) && Infos(unofficials) == LoadedInfos(st.unofficial, |unofficials|)
    ensures var next := ReadStep(st, e);
            ud' == next.ud && coreCount' == |next.core| && unofficialCount' == |next.unofficial|
            && |cores'| == |cores| && |unofficials'| == |unofficials|
            && Owned(cores') && Owned(unofficials') && Apart(cores', unofficials')
            && States(cores') == LoadedStates(next.core, next.coreConsoles, layout, |cores|)
            && States(unofficials') == LoadedStates(next.unofficial, next.unofficialConsoles, layout, |unofficials|)
            && Infos(cores') == LoadedInfos(next.core, |cores|) && Infos(unofficials') == LoadedInfos(next.unofficial, |unofficials|)
  {
    ud', cores', unofficials', coreCount', unofficialCount' := ud, cores, unofficials, coreCount, unofficialCount;
    if !e.EndObject? {
      ud' := ReadUd(ud, e);
    } else if ud.inCheevos {
      var flags := Int32(Strtol(ud.fields.flags));
      ghost var next := ReadStep(st, e);
      if flags == 3 {
        assert next.core == st.core + [ud.fields] && next.coreConsoles == st.coreConsoles + [ud.consoleId];
        cores' := FileNext(cores, unofficials, st.core, st.coreConsoles, coreCount, ud.fields, layout, ud.consoleId);
        coreCount' := coreCount + 1;
      } else {
        assert next.unofficial == st.unofficial + [ud.fields] && next.unofficialConsoles == st.unofficialConsoles + [ud.consoleId];
        ApartSym(cores, unofficials);
        unofficials' := FileNext(unofficials, cores, st.unofficial, st.unofficialConsoles, unofficialCount, ud.fields, layout, ud.consoleId);
        ApartSym(unofficials', cores);
        unofficialCount' := unofficialCount + 1;
      }
    }
  }

  /**
   * The reading pass of `cheevos_parse` over zero-filled arrays: each
   * object of the achievements array is filed into the next free slot of
   * the array its flags select.
   */
  method ReadPass(events: seq<Event>, consoleId: int, layout: MemoryLayout, cores: seq<Cheevo>, unofficials: seq<Cheevo>)
      returns (ud: ReadState, cores': seq<Cheevo>, unofficials': seq<Cheevo>)
    requires var read := ReadCheevos(events, consoleId);
             |read.core| <= |cores| && |read.unofficial| <= |unofficials|
             && Parses(read.core, read.coreConsoles, layout) && Parses(read.unofficial, read.unofficialConsoles, layout)
    requires Owned(cores) && Owned(unofficials) && Apart(cores, unofficials)
    requires States(cores) == seq(|cores|, _ => ZERO_STATE) && Infos(cores) == seq(|cores|, _ => ZERO_INFO)
    requires States(unofficials) == seq(|unofficials|, _ => ZERO_STATE) && Infos(unofficials) == seq(|unofficials|, _ => ZERO_INFO)
    ensures var read := ReadCheevos(events, consoleId);
            ud == read.ud && Owned(cores') && Owned(unofficials') && Apart(cores', unofficials')
            && States(cores') == LoadedStates(read.core, read.coreConsoles, layout, |cores|)
            && States(unofficials') == LoadedStates(read.unofficial, read.unofficialConsoles, layout, |unofficials|)
            && Infos(cores') == LoadedInfos(read.core, |cores|)
            && Infos(unofficials') == LoadedInfos(read.unofficial, |unofficials|)
  {
    ud := ReadState(false, false, consoleId, None, NO_FIELDS);
    ghost var st0 := Loaded(ud, [], [], [], []);
    ghost var read := ReadFrom(st0, events);
    cores', unofficials' := cores, unofficials;
    var coreCount, unofficialCount := 0, 0;
    ghost var st := st0;
    for k := 0 to |events|
      invariant st == ReadFrom(st0, events[..k]) && ud == st.ud
      invariant coreCount == |st.core| <= |cores'| == |cores|
      invariant unofficialCount == |st.unofficial| <= |unofficials'| == |unofficials|
      invariant Parses(st.core, st.coreConsoles, layout) && Parses(st.unofficial, st.unofficialConsoles, layout)
      invariant Owned(cores') && Owned(unofficials') && Apart(cores', unofficials')
      invariant States(cores') == LoadedStates(st.core, st.coreConsoles, layout, |cores|)
      invariant States(unofficials') == LoadedStates(st.unofficial, st.unofficialConsoles, layout, |unofficials|)
      invariant Infos(cores') == LoadedInfos(st.core, |cores|) && Infos(unofficials') == LoadedInfos(st.unofficial, |unofficials|)
    {
      ghost var next := ReadStep(st, events[k]);
      assert events[..k + 1][..k] == events[..k];
      ReadPrefix(st0, events, k + 1);
      ParsesPrefix(read.core, read.coreConsoles, next.core, next.coreConsoles, layout);
      ParsesPrefix(read.unofficial, read.unofficialConsoles, next.unofficial, next.unofficialConsoles, layout);
      ud, cores', unofficials', coreCount, unofficialCount :=
        ReadEvent(events[k], ud, cores', unofficials', coreCount, unofficialCount, layout, st);
      st := next;
    }
    assert events[..|events|] == events;
  }

  /** The engine object is none of the achievements and none of their arrays. */
  lemma Outside(e: Engine, cheevos: seq<Cheevo>)
    requires Owned(cheevos)
    ensures e !in Footprint(cheevos)
  {
    forall i | 0 <= i < |cheevos|
      ensures e !in cheevos[i].Arrays
    {
      var c := cheevos[i];
      assert forall o :: o in c.Arrays ==> exists k :: 0 <= k < |c.condsets| && o == c.condsets[k].conds;
    }
  }

  // ---------------------------------------------------------------------
  // Finding achievements by id

  /** The first index whose id is `id`, if any. */
  function FirstWithId(ids: seq<u32>, id: u32): (r: Option<nat>)
    ensures r.Some? ==> r.value < |ids| && ids[r.value] == id && forall j :: 0 <= j < r.value ==> ids[j] != id
    ensures r.None? ==> forall j :: 0 <= j < |ids| ==> ids[j] != id
    decreases |ids|
  {
    if |ids| == 0 then None
    else if ids[0] == id then Some(0)
    else match FirstWithId(ids[1..], id)
      case None => None
      case Some(i) => Some(i + 1)
  }

  function Ids(cheevos: seq<Cheevo>): (r: seq<u32>)
    ensures |r| == |cheevos| && forall i :: 0 <= i < |cheevos| ==> r[i] == cheevos[i].id
  {
    seq(|cheevos|, i requires 0 <= i < |cheevos| => cheevos[i].id)
  }

  /** The `active` flags of the achievements. */
  function Actives(cheevos: seq<Cheevo>): (r: seq<bool>)
    reads set i | 0 <= i < |cheevos| :: cheevos[i]
    ensures |r| == |cheevos| && forall i :: 0 <= i < |cheevos| ==> r[i] == cheevos[i].active
  {
    seq(|cheevos|, i requires 0 <= i < |cheevos| reads set j | 0 <= j < |cheevos| :: cheevos[j] => cheevos[i].active)
  }

  /** The flags with the one at `index` (if any) cleared. */
  function Cleared(actives: seq<bool>, index: Option<nat>): (r: seq<bool>)
    ensures |r| == |actives|
  {
    if index.Some? && index.value < |actives| then actives[index.value := false] else actives
  }

  /**
   * The global state of `cheevos_locals`: whether the achievements were
   * loaded, the console id addresses are translated for, and the core and
   * unofficial achievements.
   */
  class Engine {
    var loaded: bool
    var consoleId: int
    var core: seq<Cheevo>
    var unofficial: seq<Cheevo>

    ghost predicate Valid()
      reads this
    {
      Owned(core) && Owned(unofficial) && Apart(core, unofficial)
    }

    constructor()
      ensures !loaded && consoleId == 0 && core == [] && unofficial == []
      ensures Valid()
    {
      loaded := false;
      consoleId := 0;
      core := [];
      unofficial := [];
    }

    /**
     * `cheevos_parse`: nothing happens when achievements are disabled;
     * otherwise the counting pass sizes a zero-filled array of core and one
     * of unofficial achievements, and the reading pass files each object of
     * the achievements array into the next free slot of the array its flags
     * select, translating its addresses for the console id current at that
     * point.  The console id the document names is kept.  The counting pass
     * here counts what the reading pass files, object by object; the
     * source's own count, which can fall short, is the subject of
     * `CheevosJson.PassesAgreeIffKnownFlags`, and on a well-formed document `CheevosJson.CorrectedCountsFit` shows
     * the per-flags count agrees with this one.
     */
    method Load(events: seq<Event>, enable: bool, layout: MemoryLayout)
      requires enable ==> Loadable(events, consoleId, layout)
      modifies this
      ensures loaded == old(loaded)
      ensures !enable ==> core == old(core) && unofficial == old(unofficial) && consoleId == old(consoleId)
      ensures enable ==>
                var read := ReadCheevos(events, old(consoleId));
                Valid() && consoleId == read.ud.consoleId
                && States(core) == LoadedStates(read.core, read.coreConsoles, layout, |read.core|)
                && States(unofficial) == LoadedStates(read.unofficial, read.unofficialConsoles, layout, |read.unofficial|)
                && Infos(core) == LoadedInfos(read.core, |read.core|)
                && Infos(unofficial) == LoadedInfos(read.unofficial, |read.unofficial|)
    {
      if !enable {
        return;
      }
      var sizes := ReadCheevos(events, consoleId);
      var cores := ZeroCheevos(|sizes.core|);
      var unofficials := ZeroCheevos(|sizes.unofficial|);
      var ud;
      ud, cores, unofficials := ReadPass(events, consoleId, layout, cores, unofficials);
      Install(cores, unofficials, ud.consoleId);
    }

    /** Stores the loaded arrays and the console id into `cheevos_locals`. */
    method Install(cores: seq<Cheevo>, unofficials: seq<Cheevo>, id: int)
      requires Owned(cores) && Owned(unofficials) && Apart(cores, unofficials)
      modifies this
      ensures Valid() && core == cores && unofficial == unofficials && consoleId == id && loaded == old(loaded)
      ensures States(core) == old(States(cores)) && States(unofficial) == old(States(unofficials))
    {
      Outside(this, cores);
      Outside(this, unofficials);
      core, unofficial, consoleId := cores, unofficials, id;
    }

    /**
     * `cheevos_deactivate_unlocks` once the list of unlocked achievements
     * arrived: each number that follows an array index deactivates the
     * achievement with that id, in order.
     */
    method DeactivateUnlocks(events: seq<Event>)
      requires Valid()
      modifies set i | 0 <= i < |core| :: core[i], set i | 0 <= i < |unofficial| :: unofficial[i]
      ensures Flags(Actives(core), Actives(unofficial))
              == DeactivateIds(Ids(core), Ids(unofficial), old(Flags(Actives(core), Actives(unofficial))), UnlockedIds(events))
      ensures forall i :: 0 <= i < |core| ==> core[i].dirty == old(core[i].dirty)
      ensures forall i :: 0 <= i < |unofficial| ==> unofficial[i].dirty == old(unofficial[i].dirty)
    {
      ghost var before := Flags(Actives(core), Actives(unofficial));
      var isElement := false;
      ghost var ids: seq<int> := [];
      for k := 0 to |events|
        invariant UnlocksFrom(Unlocks(false, []), events[..k]) == Unlocks(isElement, ids)
        invariant Flags(Actives(core), Actives(unofficial)) == DeactivateIds(Ids(core), Ids(unofficial), before, ids)
        invariant forall i :: 0 <= i < |core| ==> core[i].dirty == old(core[i].dirty)
        invariant forall i :: 0 <= i < |unofficial| ==> unofficial[i].dirty == old(unofficial[i].dirty)
      {
        assert events[..k + 1][..k] == events[..k];
        isElement, ids := UnlockEvent(events[k], isElement, ids, before);
      }
      assert events[..|events|] == events;
    }

    /** The index and number handlers of the deactivation pass. */
    method UnlockEvent(e: Event, isElement: bool, ghost ids: seq<int>, ghost before: Flags)
        returns (isElement': bool, ghost ids': seq<int>)
      requires Valid()
      requires Flags(Actives(core), Actives(unofficial)) == DeactivateIds(Ids(core), Ids(unofficial), before, ids)
      modifies set i | 0 <= i < |core| :: core[i], set i | 0 <= i < |unofficial| :: unofficial[i]
      ensures Unlocks(isElement', ids') == UnlockStep(Unlocks(isElement, ids), e)
      ensures Flags(Actives(core), Actives(unofficial)) == DeactivateIds(Ids(core), Ids(unofficial), before, ids')
      ensures forall i :: 0 <= i < |core| ==> core[i].dirty == old(core[i].dirty)
      ensures forall i :: 0 <= i < |unofficial| ==> unofficial[i].dirty == old(unofficial[i].dirty)
    {
      isElement', ids' := isElement, ids;
      match e
      case Index(_) =>
        isElement' := true;
      case Number(t) =>
        if isElement {
          isElement' := false;
          var id := Strtol(t);
          DeactivateIdsSnoc(Ids(core), Ids(unofficial), before, ids, id);
          Deactivate(id);
          ids' := ids + [id];
        }
      case _ =>
    }

    /**
     * `cheevos_test`: nothing is tested before the achievements are loaded,
     * while cheats are or were enabled, or when achievements are disabled;
     * otherwise the core achievements are tested, then the unofficial ones
     * when `testUnofficial` is set.  The result is false exactly when the
     * achievements are not loaded, or cheats are off and achievements are
     * disabled.
     */
    method Test(mem: Memory, cheatsAreEnabled: bool, cheatsWereEnabled: bool, enable: bool, testUnofficial: bool,
                ghost coreBefore: seq<CheevoState>, ghost unofficialBefore: seq<CheevoState>)
      returns (r: bool, awarded: seq<u32>)
      requires Valid() && |coreBefore| == |core| && |unofficialBefore| == |unofficial|
      requires forall i :: 0 <= i < |core| ==> core[i].State() == coreBefore[i]
      requires forall i :: 0 <= i < |unofficial| ==> unofficial[i].State() == unofficialBefore[i]
      modifies Footprint(core), Footprint(unofficial)
      ensures r <==> loaded && (cheatsAreEnabled || cheatsWereEnabled || enable)
      ensures var tests := loaded && !cheatsAreEnabled && !cheatsWereEnabled && enable;
              (forall i :: 0 <= i < |core| ==>
                 core[i].State() == if tests then StepCheevo(coreBefore[i], mem).0 else coreBefore[i])
              && (forall i :: 0 <= i < |unofficial| ==>
                 unofficial[i].State() == if tests && testUnofficial then StepCheevo(unofficialBefore[i], mem).0 else unofficialBefore[i])
              && awarded == (if tests then AwardedIds(coreBefore, mem) else [])
                             + (if tests && testUnofficial then AwardedIds(unofficialBefore, mem) else [])
    {
      if !loaded {
        return false, [];
      }
      awarded := [];
      if !cheatsAreEnabled && !cheatsWereEnabled {
        if !enable {
          return false, [];
        }
        awarded := TestSets(mem, testUnofficial, coreBefore, unofficialBefore);
      }
      r := true;
    }

    /** The testing branch of `cheevos_test`: the core set, then optionally the unofficial one. */
    method TestSets(mem: Memory, testUnofficial: bool,
                    ghost coreBefore: seq<CheevoState>, ghost unofficialBefore: seq<CheevoState>)
      returns (awarded: seq<u32>)
      requires Valid() && |coreBefore| == |core| && |unofficialBefore| == |unofficial|
      requires forall i :: 0 <= i < |core| ==> core[i].State() == coreBefore[i]
      requires forall i :: 0 <= i < |unofficial| ==> unofficial[i].State() == unofficialBefore[i]
      modifies Footprint(core), Footprint(unofficial)
      ensures forall i :: 0 <= i < |core| ==> core[i].State() == StepCheevo(coreBefore[i], mem).0
      ensures forall i :: 0 <= i < |unofficial| ==>
                unofficial[i].State() == if testUnofficial then StepCheevo(unofficialBefore[i], mem).0 else unofficialBefore[i]
      ensures awarded == AwardedIds(coreBefore, mem) + (if testUnofficial then AwardedIds(unofficialBefore, mem) else [])
    {
      var c, u := core, unofficial;
      awarded := TestBeside(c, u, mem, coreBefore);
      assert core == c && unofficial == u;
      if testUnofficial {
        ApartSym(c, u);
        var more := TestBeside(u, c, mem, unofficialBefore);
        assert core == c && unofficial == u;
        awarded := awarded + more;
      } else {
        assert AwardedIds(coreBefore, mem) + [] == AwardedIds(coreBefore, mem);
      }
    }

    /**
     * The deactivation of an unlocked achievement by id: the first core
     * achievement with that id is deactivated; only when there is none, the
     * first unofficial one.  The id is converted to `unsigned` as in C.
     */
    method Deactivate(id: int)
      requires Valid()
      modifies set i | 0 <= i < |core| :: core[i], set i | 0 <= i < |unofficial| :: unofficial[i]
      ensures var x := Wrap32(id);
              var inCore := FirstWithId(Ids(core), x);
              Actives(core) == Cleared(old(Actives(core)), inCore)
              && Actives(unofficial) == Cleared(old(Actives(unofficial)), if inCore.None? then FirstWithId(Ids(unofficial), x) else None)
      ensures forall i :: 0 <= i < |core| ==> core[i].dirty == old(core[i].dirty)
      ensures forall i :: 0 <= i < |unofficial| ==> unofficial[i].dirty == old(unofficial[i].dirty)
    {
      var x := Wrap32(id);
      label L:
      var found := DeactivateFirst(core, x);
      forall j | 0 <= j < |unofficial|
        ensures unofficial[j].active == old@L(unofficial[j].active) && unofficial[j].dirty == old@L(unofficial[j].dirty)
      {
        assert Apart(core, unofficial);
      }
      if !found {
        label M:
        found := DeactivateFirst(unofficial, x);
        forall j | 0 <= j < |core|
          ensures core[j].active == old@M(core[j].active) && core[j].dirty == old@M(core[j].dirty)
        {
          assert Apart(core, unofficial);
        }
      }
    }
  }

  /** One loop of the deactivation: clears `active` on the first achievement with id `x`. */
  method DeactivateFirst(cheevos: seq<Cheevo>, x: u32) returns (found: bool)
    requires Owned(cheevos)
    modifies set i | 0 <= i < |cheevos| :: cheevos[i]
    ensures found <==> FirstWithId(Ids(cheevos), x).Some?
    ensures Actives(cheevos) == Cleared(old(Actives(cheevos)), FirstWithId(Ids(cheevos), x))
    ensures forall i :: 0 <= i < |cheevos| ==> cheevos[i].dirty == old(cheevos[i].dirty)
  {
    var i := FindId(cheevos, x);
    found := i < |cheevos|;
    if found {
      cheevos[i].active := false;
    }
  }

  /** The search loop of the deactivation: the first index with id `x`, or `|cheevos|`. */
  method FindId(cheevos: seq<Cheevo>, x: u32) returns (i: nat)
    ensures i <= |cheevos|
    ensures i == match FirstWithId(Ids(cheevos), x) case Some(k) => k case None => |cheevos|
  {
    i := 0;
    while i < |cheevos| && cheevos[i].id != x
      invariant i <= |cheevos|
      invariant forall j :: 0 <= j < i ==> cheevos[j].id != x
    {
      i := i + 1;
    }
  }

  // ---------------------------------------------------------------------
  // The list of unlocked achievements

  /** The userdata of the deactivation pass, with the ids it acted on so far. */
  datatype Unlocks = Unlocks(isElement: bool, ids: seq<int>)

  /** An index marks the next number as an element; that number is an unlocked id. */
  function UnlockStep(u: Unlocks, e: Event): Unlocks
  {
    match e
    case Index(_) => u.(isElement := true)
    case Number(t) => if u.isElement then Unlocks(false, u.ids + [Strtol(t)]) else u
    case _ => u
  }

  function UnlocksFrom(u: Unlocks, events: seq<Event>): Unlocks
    decreases |events|
  {
    if |events| == 0 then u else UnlockStep(UnlocksFrom(u, events[..|events| - 1]), events[|events| - 1])
  }

  /** The ids, in order, that the deactivation pass deactivates. */
  function UnlockedIds(events: seq<Event>): seq<int>
  {
    UnlocksFrom(Unlocks(false, []), events).ids
  }

  /** The events of an array of ids, each written in decimal. */
  function IdArrayEvents(ids: seq<nat>): seq<Event>
    decreases |ids|
  {
    if |ids| == 0 then []
    else IdArrayEvents(ids[..|ids| - 1]) + [Index(|ids| - 1), Number(Decimal(ids[|ids| - 1]))]
  }

  lemma {:induction false} UnlocksAppend(u: Unlocks, a: seq<Event>, b: seq<Event>)
    ensures UnlocksFrom(u, a + b) == UnlocksFrom(UnlocksFrom(u, a), b)
    decreases |b|
  {
    if |b| > 0 {
      assert (a + b)[..|a + b| - 1] == a + b[..|b| - 1];
      UnlocksAppend(u, a, b[..|b| - 1]);
    } else {
      assert a + b == a;
    }
  }

  lemma {:induction false} IdArrayRead(ids: seq<nat>)
    ensures UnlocksFrom(Unlocks(false, []), IdArrayEvents(ids)) == Unlocks(false, ids)
    decreases |ids|
  {
    if |ids| > 0 {
      var n := |ids| - 1;
      IdArrayRead(ids[..n]);
      var tail := [Index(n), Number(Decimal(ids[n]))];
      UnlocksAppend(Unlocks(false, []), IdArrayEvents(ids[..n]), tail);
      var u := Unlocks(false, ids[..n]);
      assert [Index(n)][..0] == [];
      assert UnlocksFrom(u, [Index(n)]) == Unlocks(true, ids[..n]);
      assert tail[..1] == [Index(n)];
      assert UnlocksFrom(u, tail) == UnlockStep(Unlocks(true, ids[..n]), tail[1]);
      StrtolDecimal(ids[n]);
      assert ids[..n] + [ids[n]] == ids;
    }
  }

  /** The deactivation pass reads back every id of an array of decimal ids, in order. */
  lemma UnlockedIdsRoundTrip(ids: seq<nat>)
    ensures UnlockedIds([StartArray] + IdArrayEvents(ids) + [EndArray]) == ids
  {
    var doc := [StartArray] + IdArrayEvents(ids) + [EndArray];
    UnlocksAppend(Unlocks(false, []), [StartArray], IdArrayEvents(ids));
    UnlocksAppend(Unlocks(false, []), [StartArray] + IdArrayEvents(ids), [EndArray]);
    assert [StartArray][..0] == [];
    IdArrayRead(ids);
  }

  /** The `active` flags of the core and of the unofficial achievements. */
  datatype Flags = Flags(core: seq<bool>, unofficial: seq<bool>)

  /** One deactivation by id: the first core achievement with the id, or failing that the first unofficial one. */
  function DeactivateOne(coreIds: seq<u32>, unofficialIds: seq<u32>, f: Flags, id: int): (r: Flags)
    ensures |r.core| == |f.core| && |r.unofficial| == |f.unofficial|
  {
    var x := Wrap32(id);
    var inCore := FirstWithId(coreIds, x);
    Flags(Cleared(f.core, inCore), Cleared(f.unofficial, if inCore.None? then FirstWithId(unofficialIds, x) else None))
  }

  /** The deactivations of `ids`, in order. */
  function DeactivateIds(coreIds: seq<u32>, unofficialIds: seq<u32>, f: Flags, ids: seq<int>): (r: Flags)
    ensures |r.core| == |f.core| && |r.unofficial| == |f.unofficial|
    decreases |ids|
  {
    if |ids| == 0 then f
    else DeactivateOne(coreIds, unofficialIds, DeactivateIds(coreIds, unofficialIds, f, ids[..|ids| - 1]), ids[|ids| - 1])
  }

  lemma DeactivateIdsSnoc(coreIds: seq<u32>, unofficialIds: seq<u32>, f: Flags, ids: seq<int>, id: int)
    ensures DeactivateIds(coreIds, unofficialIds, f, ids + [id])
            == DeactivateOne(coreIds, unofficialIds, DeactivateIds(coreIds, unofficialIds, f, ids), id)
  {
    assert (ids + [id])[..|ids|] == ids;
  }

  /** The flag a deactivation targets: the first core achievement with the id, else the first unofficial one. */
  predicate Targets(coreIds: seq<u32>, unofficialIds: seq<u32>, id: int, inCore: bool, i: nat)
  {
    var x := Wrap32(id);
    if inCore then FirstWithId(coreIds, x) == Some(i)
    else FirstWithId(coreIds, x).None? && FirstWithId(unofficialIds, x) == Some(i)
  }

  /** The core flags when `inCore`, the unofficial ones otherwise. */
  function Side(f: Flags, inCore: bool): seq<bool>
  {
    if inCore then f.core else f.unofficial
  }

  /** Every flag a listed id targets ends cleared. */
  lemma {:induction false} DeactivateIdsClears(coreIds: seq<u32>, unofficialIds: seq<u32>, f: Flags, ids: seq<int>,
                                               n: nat, inCore: bool, i: nat)
    requires |f.core| == |coreIds| && |f.unofficial| == |unofficialIds|
    requires n < |ids| && Targets(coreIds, unofficialIds, ids[n], inCore, i)
    ensures var r := DeactivateIds(coreIds, unofficialIds, f, ids);
            i < |Side(r, inCore)| && !Side(r, inCore)[i]
    decreases |ids|
  {
    var m := |ids| - 1;
    var prev := DeactivateIds(coreIds, unofficialIds, f, ids[..m]);
    if n < m {
      assert ids[..m][n] == ids[n];
      DeactivateIdsClears(coreIds, unofficialIds, f, ids[..m], n, inCore, i);
    }
  }

  /** A flag that changes was set and is targeted by some listed id. */
  lemma {:induction false} DeactivateIdsOnlyTargets(coreIds: seq<u32>, unofficialIds: seq<u32>, f: Flags, ids: seq<int>,
                                                    inCore: bool, i: nat)
    requires |f.core| == |coreIds| && |f.unofficial| == |unofficialIds| && i < |Side(f, inCore)|
    requires Side(DeactivateIds(coreIds, unofficialIds, f, ids), inCore)[i] != Side(f, inCore)[i]
    ensures Side(f, inCore)[i] && exists n :: 0 <= n < |ids| && Targets(coreIds, unofficialIds, ids[n], inCore, i)
    decreases |ids|
  {
    var m := |ids| - 1;
    var prev := DeactivateIds(coreIds, unofficialIds, f, ids[..m]);
    if Side(prev, inCore)[i] != Side(f, inCore)[i] {
      DeactivateIdsOnlyTargets(coreIds, unofficialIds, f, ids[..m], inCore, i);
      var n :| 0 <= n < m && Targets(coreIds, unofficialIds, ids[..m][n], inCore, i);
      assert ids[..m][n] == ids[n];
    } else {
      assert Targets(coreIds, unofficialIds, ids[m], inCore, i);
    }
  }
}
