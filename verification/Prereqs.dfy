/** Caching whether the tools an agent needs are usable, over a world in which that changes. */
module Prereqs {
  import opened Wrappers

  /** Instants and durations in seconds. */
  type Instant = nat

  const CACHE_TTL: nat := 300

  datatype AgentPrereq = Gh

  datatype Profile = Implement | Triage | Design | Answer | Unattended

  /** What each profile needs. */
  function Required(profile: Option<Profile>): seq<AgentPrereq> {
    if profile == Some(Implement) then [Gh] else []
  }

  /** What a probe would find at each instant. */
  type World<!T> = (T, Instant) -> bool

  datatype Entry = Entry(checked: Instant, answer: bool)

  datatype Probe<T> = Probe(tool: T, at: Instant)

  /** `Instant::duration_since`, which saturates at zero. */
  function Since(now: Instant, earlier: Instant): nat {
    if now >= earlier then now - earlier else 0
  }

  predicate IsFresh<T(==)>(entries: map<T, Entry>, tool: T, now: Instant) {
    tool in entries && Since(now, entries[tool].checked) < CACHE_TTL
  }

  /** Every entry is what a probe really found; the last probe of its tool. */
  predicate Faithful<T(!new, ==)>(world: World<T>, entries: map<T, Entry>, probes: seq<Probe<T>>) {
    && (forall tool :: tool in entries ==>
          entries[tool].answer == world(tool, entries[tool].checked) && Probe(tool, entries[tool].checked) in probes)
    && (forall i :: 0 <= i < |probes| ==> probes[i].tool in entries && probes[i].at <= entries[probes[i].tool].checked)
  }

  /** Two real probes of one tool lie at least one TTL apart. */
  predicate Spaced<T(==)>(probes: seq<Probe<T>>) {
    forall i, j :: 0 <= i < j < |probes| && probes[i].tool == probes[j].tool ==>
      probes[i].at + CACHE_TTL <= probes[j].at
  }

  predicate NoLaterThan<T>(probes: seq<Probe<T>>, now: Instant) {
    forall i :: 0 <= i < |probes| ==> probes[i].at <= now
  }

  /** The answer is the real availability at an instant less than one TTL before `now`. */
  predicate Recent<T(!new)>(world: World<T>, tool: T, now: Instant, answer: bool) {
    exists at: Instant :: at <= now < at + CACHE_TTL && answer == world(tool, at)
  }

  lemma ProbeIsFaithful<T(!new)>(world: World<T>, entries: map<T, Entry>, probes: seq<Probe<T>>, tool: T, now: Instant)
    requires Faithful(world, entries, probes) && NoLaterThan(probes, now)
    ensures Faithful(world, entries[tool := Entry(now, world(tool, now))], probes + [Probe(tool, now)])
    ensures NoLaterThan(probes + [Probe(tool, now)], now)
  {
    var after, all := entries[tool := Entry(now, world(tool, now))], probes + [Probe(tool, now)];
    assert all[|probes|] == Probe(tool, now);
    forall t | t in after ensures Probe(t, after[t].checked) in all {
      if t != tool {
        assert Probe(t, entries[t].checked) in probes;
      }
    }
  }

  lemma ProbeIsSpaced<T(!new)>(world: World<T>, entries: map<T, Entry>, probes: seq<Probe<T>>, tool: T, now: Instant)
    requires Faithful(world, entries, probes) && Spaced(probes) && NoLaterThan(probes, now)
    requires !IsFresh(entries, tool, now)
    ensures Spaced(probes + [Probe(tool, now)])
  {
    var all := probes + [Probe(tool, now)];
    forall i, j | 0 <= i < j < |all| && all[i].tool == all[j].tool ensures all[i].at + CACHE_TTL <= all[j].at {
      assert all[i] == probes[i];
      if j == |probes| {
        assert Probe(tool, entries[tool].checked) in probes;
      } else {
        assert all[j] == probes[j];
      }
    }
  }

  /** Answers of availability probes, with what was really probed kept beside them. */
  class PrereqCache<T(!new, ==)> {
    var entries: map<T, Entry>
    ghost const world: World<T>
    ghost var probes: seq<Probe<T>>
    ghost var clock: Instant

    ghost predicate Valid()
      reads this
    {
      && Faithful(world, entries, probes)
      && Spaced(probes)
      && NoLaterThan(probes, clock)
    }

    constructor (ghost world: World<T>)
      ensures Valid() && entries == map[] && probes == [] && clock == 0 && this.world == world
    {
      entries := map[];
      this.world := world;
      probes := [];
      clock := 0;
    }

    /**
     * Whether `tool` looks usable, from the cache within the TTL. `found` is what a probe would find
     * now. The clock does not run backwards.
     */
    method Available(tool: T, now: Instant, found: bool) returns (answer: bool)
      requires Valid() && clock <= now && found == world(tool, now)
      modifies this
      ensures Valid() && clock == now
      ensures Recent(world, tool, now, answer)
      ensures entries.Keys == old(entries.Keys) + {tool} && entries[tool].answer == answer
      ensures forall other :: other in old(entries) && other != tool ==> entries[other] == old(entries)[other]
      ensures IsFresh(entries, tool, now)
      ensures if old(IsFresh(entries, tool, now)) then entries == old(entries) && probes == old(probes)
              else probes == old(probes) + [Probe(tool, now)]
    {
      clock := now;
      if tool in entries && Since(now, entries[tool].checked) < CACHE_TTL {
        answer := entries[tool].answer;
        assert Probe(tool, entries[tool].checked) in probes;
        assert entries[tool].checked <= now < entries[tool].checked + CACHE_TTL;
        return;
      }
      answer := found;
      ProbeIsFaithful(world, entries, probes, tool, now);
      ProbeIsSpaced(world, entries, probes, tool, now);
      entries := entries[tool := Entry(now, answer)];
      probes := probes + [Probe(tool, now)];
      assert now <= now < now + CACHE_TTL;
    }

    /** Ask for one more tool; `asked` are those asked for before, `unusable` the ones of them that are not usable. */
    method AskMore(ghost asked: seq<T>, unusable: seq<T>, tool: T, now: Instant, found: bool) returns (missing: seq<T>)
      requires Valid() && clock <= now && found == world(tool, now)
      requires Answered(world, asked, entries, now) && unusable == Unusable(asked, entries)
      modifies this
      ensures Valid() && clock == now
      ensures Answered(world, asked + [tool], entries, now) && missing == Unusable(asked + [tool], entries)
      ensures |probes| <= old(|probes|) + 1
    {
      ghost var before := entries;
      var usable := Available(tool, now, found);
      AnsweredMore(world, asked, before, entries, tool, now);
      UnusableStays(asked, before, entries, tool, now);
      UnusableSnoc(asked, tool, entries);
      missing := if usable then unusable else unusable + [tool];
    }

    /** Asking for several tools in turn; `finds` is what probes would find now. */
    method Missing(required: seq<T>, now: Instant, finds: T -> bool) returns (missing: seq<T>)
      requires Valid() && clock <= now && forall tool :: finds(tool) == world(tool, now)
      modifies this
      ensures Valid() && clock == (if required == [] then old(clock) else now)
      ensures Answered(world, required, entries, now)
      ensures missing == Unusable(required, entries)
      ensures |probes| <= old(|probes|) + |required|
      ensures required == [] ==> entries == old(entries) && probes == old(probes)
    {
      missing := [];
      for i := 0 to |required|
        invariant Valid() && clock == (if i == 0 then old(clock) else now)
        invariant Answered(world, required[..i], entries, now)
        invariant missing == Unusable(required[..i], entries)
        invariant |probes| <= old(|probes|) + i
        invariant i == 0 ==> entries == old(entries) && probes == old(probes)
      {
        assert required[..i + 1] == required[..i] + [required[i]];
        missing := AskMore(required[..i], missing, required[i], now, finds(required[i]));
      }
      assert required[..|required|] == required;
    }
  }

  /** Each of the tools has a cached answer that is real and recent. */
  ghost predicate Answered<T(!new)>(world: World<T>, tools: seq<T>, entries: map<T, Entry>, now: Instant) {
    forall tool :: tool in tools ==>
      tool in entries && IsFresh(entries, tool, now) && Recent(world, tool, now, entries[tool].answer)
  }

  lemma AnsweredMore<T(!new)>(world: World<T>, tools: seq<T>, before: map<T, Entry>, after: map<T, Entry>, tool: T, now: Instant)
    requires Answered(world, tools, before, now)
    requires after.Keys == before.Keys + {tool} && forall t :: t in before && t != tool ==> after[t] == before[t]
    requires IsFresh(after, tool, now) && Recent(world, tool, now, after[tool].answer)
    ensures Answered(world, tools + [tool], after, now)
  {
  }

  /** The tools answered false, in order. */
  function Unusable<T(==)>(tools: seq<T>, entries: map<T, Entry>): seq<T> {
    if |tools| == 0 then []
    else
      var last := tools[|tools| - 1];
      Unusable(tools[..|tools| - 1], entries) + if last in entries && !entries[last].answer then [last] else []
  }

  lemma UnusableSnoc<T>(tools: seq<T>, last: T, entries: map<T, Entry>)
    ensures Unusable(tools + [last], entries)
         == Unusable(tools, entries) + if last in entries && !entries[last].answer then [last] else []
  {
    assert (tools + [last])[..|tools|] == tools;
  }

  /** A later query changes no answer already given in the same call. */
  lemma {:induction false} UnusableStays<T>(tools: seq<T>, before: map<T, Entry>, after: map<T, Entry>, tool: T, now: Instant)
    requires forall t :: t in tools ==> t in before && IsFresh(before, t, now)
    requires after.Keys == before.Keys + {tool}
    requires forall t :: t in before && t != tool ==> after[t] == before[t]
    requires IsFresh(before, tool, now) ==> after == before
    ensures Unusable(tools, after) == Unusable(tools, before)
  {
    if |tools| > 0 {
      var last := tools[|tools| - 1];
      assert last in tools;
      UnusableStays(tools[..|tools| - 1], before, after, tool, now);
    }
  }

  /** Asking for what a profile needs: nothing is looked at for one that needs nothing. */
  method MissingFor(cache: PrereqCache<AgentPrereq>, profile: Option<Profile>, now: Instant, finds: AgentPrereq -> bool)
    returns (missing: seq<AgentPrereq>)
    requires cache.Valid() && cache.clock <= now && forall tool :: finds(tool) == cache.world(tool, now)
    modifies cache
    ensures cache.Valid()
    ensures Answered(cache.world, Required(profile), cache.entries, now)
    ensures missing == Unusable(Required(profile), cache.entries)
    ensures profile != Some(Implement) ==> missing == [] && cache.probes == old(cache.probes)
  {
    missing := cache.Missing(Required(profile), now, finds);
  }

  /**
   * An entry is fresh until its TTL is over, however early one asks: with a clock that runs backwards it is
   * believed outside its TTL exactly at the instants before it was made.
   */
  lemma BackwardsClock<T>(entries: map<T, Entry>, tool: T, now: Instant)
    requires tool in entries
    ensures IsFresh(entries, tool, now) <==> now < entries[tool].checked + CACHE_TTL
    ensures IsFresh(entries, tool, now) && !(entries[tool].checked <= now < entries[tool].checked + CACHE_TTL)
            <==> now < entries[tool].checked
  {
  }

  // ---- by the numbers ------------------------------------------------------------------------

  /** An answer is believed for five minutes. */
  lemma BelievedForFiveMinutes<T>(entries: map<T, Entry>, tool: T, now: Instant)
    ensures IsFresh(entries, tool, now) <==> tool in entries && now < entries[tool].checked + 300
  {
  }

  /** An implementer needs `gh`; nobody else is checked for anything. */
  lemma OnlyImplementersNeed(profile: Option<Profile>)
    ensures Required(profile) == match profile
      case Some(Implement) => [Gh]
      case Some(Triage) => []
      case Some(Design) => []
      case Some(Answer) => []
      case Some(Unattended) => []
      case None => []
  {
  }

  /** Which tools are named unusable: those whose entry says so, each where it is required. */
  lemma {:induction false} UnusableExactly<T>(tools: seq<T>, more: seq<T>, tool: T, entries: map<T, Entry>)
    ensures tool in Unusable(tools, entries) <==> tool in tools && tool in entries && !entries[tool].answer
    ensures Unusable(tools + more, entries) == Unusable(tools, entries) + Unusable(more, entries)
  {
    if |more| > 0 {
      var all := tools + more;
      assert all[..|all| - 1] == tools + more[..|more| - 1];
      UnusableExactly(tools, more[..|more| - 1], tool, entries);
    } else {
      assert tools + more == tools;
      if |tools| > 0 {
        UnusableExactly(tools[..|tools| - 1], [], tool, entries);
        assert tools == tools[..|tools| - 1] + [tools[|tools| - 1]];
      }
    }
  }
}
