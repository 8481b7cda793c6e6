/**
  The game event manager: which events are active, and which spawns are in the grid.

  Spawn lists are stored in one vector indexed by size + id - 1, where a positive id holds
  what appears during the event and a negative id what appears outside it.
 */
module GameEvents {
  import opened Basics
  import opened EventWindow

  type Guid = nat
  type SpawnLists = seq<seq<Guid>>

  const IN_MILLISECONDS: nat := 1000

  // ---- Loading -----------------------------------------------------------------------------------

  /** A slot of the table that no row has filled; number 0 always is one. */
  const EMPTY_SLOT: GameEvent := GameEvent(1, 0, 0, 0, 0, false, false)

  /**
    A row of the table; `outdated` tells that it is for other content patches, `leaps` counts leap
    years since its start.
   */
  datatype Row = Row(entry: nat, start: int, end: int, occurence: nat, length: nat, leaps: nat,
                     hardcoded: bool, disabled: bool, outdated: bool)

  /** A row of length zero is not read to its end. */
  function FromRow(r: Row): (e: GameEvent)
    ensures e.Loaded() && (e.IsValid() <==> r.length > 0)
    ensures (e.start, e.end, e.occurence, e.length) == (r.start, r.end, r.occurence, r.length) && e.leapDays < 256
    ensures r.length > 0 ==>
              && e.hardcoded == r.hardcoded && (!e.disabled <==> !r.disabled && !r.outdated)
              && (r.occurence == YEAR_LENGTH && r.length < YEAR_LENGTH ==> (r.leaps - e.leapDays) % 256 == 0)
  {
    if r.length == 0 then GameEvent(r.start, r.end, r.occurence, 0, 0, false, false)
    else
      var leapDays := if r.occurence == YEAR_LENGTH && r.length < YEAR_LENGTH then r.leaps % 256 else 0;
      GameEvent(r.start, r.end, r.occurence, r.length, leapDays, r.hardcoded, r.disabled || r.outdated)
  }

  /** Reads all rows; row 0 is reserved and skipped. */
  method LoadFromDB(rows: seq<Row>, maxEntry: nat) returns (events: seq<GameEvent>)
    requires forall r :: r in rows ==> r.entry <= maxEntry
    requires forall i, j :: 0 <= i < j < |rows| ==> rows[i].entry != rows[j].entry
    ensures |events| == maxEntry + 1 && events[0] == EMPTY_SLOT
    ensures forall r :: r in rows && r.entry != 0 ==> events[r.entry] == FromRow(r)
    ensures forall e :: 0 <= e < |events| && (forall r :: r in rows ==> r.entry != e) ==> events[e] == EMPTY_SLOT
    ensures forall e :: 0 <= e < |events| ==> events[e].Loaded()
  {
    events := seq(maxEntry + 1, _ => EMPTY_SLOT);
    for i := 0 to |rows|
      invariant |events| == maxEntry + 1 && events[0] == EMPTY_SLOT
      invariant forall k :: 0 <= k < i && rows[k].entry != 0 ==> events[rows[k].entry] == FromRow(rows[k])
      invariant forall e :: 0 <= e < |events| && (forall k :: 0 <= k < i ==> rows[k].entry != e) ==>
                events[e] == EMPTY_SLOT
      invariant forall e :: 0 <= e < |events| ==> events[e].Loaded()
    {
      if rows[i].entry != 0 { events := events[rows[i].entry := FromRow(rows[i])]; }
    }
  }

  predicate Scheduled(e: GameEvent) { !e.hardcoded && !e.disabled }

  /** A pass at this moment divides by zero nowhere: it looks at the scheduled events only. */
  predicate PassDefined(events: seq<GameEvent>, now: int) {
    forall i :: 1 <= i < |events| && Scheduled(events[i]) ==> events[i].DefinedAt(now)
  }

  /** No pass ever divides by zero, exactly if every scheduled event has a period or ends before it starts. */
  lemma PassesDefinedIff(events: seq<GameEvent>)
    ensures (forall now :: PassDefined(events, now)) <==>
            forall i :: 1 <= i < |events| && Scheduled(events[i]) ==>
              events[i].Period() > 0 || events[i].end < events[i].start
  {
    if i :| 1 <= i < |events| && Scheduled(events[i]) && !(events[i].Period() > 0 || events[i].end < events[i].start) {
      DefinedIff(events[i]);
      assert !PassDefined(events, events[i].start);
    }
  }

  /** The events the scheduler switches on at time now. */
  predicate IsOn(events: seq<GameEvent>, e: nat, now: int)
    requires PassDefined(events, now)
  {
    && 1 <= e < |events| && Scheduled(events[e]) && events[e].IsValid()
    && CheckOneGameEvent(events[e], now)
  }

  /** Events left alone by the scheduler keep their state; all others follow their window. */
  function UpdatedActive(events: seq<GameEvent>, active: set<nat>, now: int): (r: set<nat>)
    requires PassDefined(events, now)
  {
    (set e | e in active && !(1 <= e < |events| && Scheduled(events[e]))) +
    (set e | 1 <= e < |events| && IsOn(events, e, now))
  }

  /** The loop over all events has come to event k. */
  ghost predicate UpdatedBelow(events: seq<GameEvent>, before: set<nat>, active: set<nat>, now: int, k: nat)
    requires PassDefined(events, now) && k <= |events|
  {
    forall e :: e in active <==> if 1 <= e < k && Scheduled(events[e]) then IsOn(events, e, now) else e in before
  }

  lemma BelowIsUntouched(events: seq<GameEvent>, before: set<nat>, active: set<nat>, now: int, k: nat)
    requires PassDefined(events, now) && k <= |events| && UpdatedBelow(events, before, active, now, k)
    ensures k in active <==> k in before
  {
  }

  lemma UpdatedNext(events: seq<GameEvent>, before: set<nat>, active: set<nat>, active': set<nat>, now: int, k: nat)
    requires PassDefined(events, now) && k < |events| && k > 0 && UpdatedBelow(events, before, active, now, k)
    requires active' == if !Scheduled(events[k]) then active
                        else if IsOn(events, k, now) then active + {k} else active - {k}
    ensures UpdatedBelow(events, before, active', now, k + 1)
  {
  }

  lemma AllUpdated(events: seq<GameEvent>, before: set<nat>, active: set<nat>, now: int)
    requires PassDefined(events, now) && UpdatedBelow(events, before, active, now, |events|)
    ensures active == UpdatedActive(events, before, now)
  {
  }

  /** The shortest of the given delay and the predictions for events 1 .. k-1. */
  function Shortest(events: seq<GameEvent>, now: int, base: nat, k: nat): (d: nat)
    requires PassDefined(events, now) && 1 <= k <= |events|
    ensures d <= base
  {
    if k == 1 then base
    else
      var d := Shortest(events, now, base, k - 1);
      if !Scheduled(events[k - 1]) then d
      else
        var c := NextCheck(events[k - 1], now);
        if c < d then c else d
  }

  lemma {:induction false} ShortestBounds(events: seq<GameEvent>, now: int, base: nat, k: nat, e: nat)
    requires PassDefined(events, now) && 1 <= e < k <= |events| && Scheduled(events[e])
    ensures Shortest(events, now, base, k) <= NextCheck(events[e], now)
  {
    if e < k - 1 { ShortestBounds(events, now, base, k - 1, e); }
  }

  /** Hardcoded events as a pass sees them: (event id, delay asked for) pairs. */
  type Hardcoded = seq<(nat, nat)>

  predicate KnownIds(events: seq<GameEvent>, hd: Hardcoded) { forall h :: h in hd ==> h.0 < |events| }

  /** The shortest delay asked for by the enabled hardcoded events, at most a day. */
  function HardcodedBase(events: seq<GameEvent>, hd: Hardcoded): (d: nat)
    requires KnownIds(events, hd)
    ensures d <= MAX_CHECK_DELAY
  {
    if hd == [] then MAX_CHECK_DELAY
    else
      var d := HardcodedBase(events, hd[..|hd| - 1]);
      var last := hd[|hd| - 1];
      if !events[last.0].disabled && last.1 < d then last.1 else d
  }

  /** A pass may be asked to come back after a day, by an enabled hardcoded event, or by a scheduled event. */
  ghost predicate AskedFor(events: seq<GameEvent>, hd: Hardcoded, now: int, d: nat)
    requires PassDefined(events, now) && KnownIds(events, hd)
  {
    || d == MAX_CHECK_DELAY
    || (exists h :: h in hd && !events[h.0].disabled && h.1 == d)
    || (exists e :: 1 <= e < |events| && !events[e].hardcoded && !events[e].disabled && NextCheck(events[e], now) == d)
  }

  /** The delay is the shortest that anybody asks for. */
  ghost predicate IsShortest(events: seq<GameEvent>, hd: Hardcoded, now: int, d: nat)
    requires PassDefined(events, now) && KnownIds(events, hd)
  {
    AskedFor(events, hd, now, d) && forall d' :: AskedFor(events, hd, now, d') ==> d <= d'
  }

  lemma {:induction false} HardcodedBaseIsShortest(events: seq<GameEvent>, hd: Hardcoded)
    requires KnownIds(events, hd)
    ensures forall h :: h in hd && !events[h.0].disabled ==> HardcodedBase(events, hd) <= h.1
    ensures HardcodedBase(events, hd) == MAX_CHECK_DELAY ||
            exists h :: h in hd && !events[h.0].disabled && h.1 == HardcodedBase(events, hd)
  {
    if hd != [] {
      var rest, last := hd[..|hd| - 1], hd[|hd| - 1];
      HardcodedBaseIsShortest(events, rest);
      assert hd == rest + [last] && last in hd;
    }
  }

  lemma {:induction false} ShortestIsAsked(events: seq<GameEvent>, now: int, base: nat, k: nat)
    requires PassDefined(events, now) && 1 <= k <= |events|
    ensures var d := Shortest(events, now, base, k);
            d == base || exists e :: 1 <= e < k && Scheduled(events[e]) && NextCheck(events[e], now) == d
  {
    if k > 1 { ShortestIsAsked(events, now, base, k - 1); }
  }

  /** What the pass works out is the shortest delay that anybody asks for. */
  lemma ShortestIsShortest(events: seq<GameEvent>, hd: Hardcoded, now: int)
    requires |events| >= 1 && PassDefined(events, now) && KnownIds(events, hd)
    ensures IsShortest(events, hd, now, Shortest(events, now, HardcodedBase(events, hd), |events|))
  {
    var base := HardcodedBase(events, hd);
    HardcodedBaseIsShortest(events, hd);
    ShortestIsAsked(events, now, base, |events|);
    forall d | AskedFor(events, hd, now, d) ensures Shortest(events, now, base, |events|) <= d {
      if e :| 1 <= e < |events| && Scheduled(events[e]) && NextCheck(events[e], now) == d {
        ShortestBounds(events, now, base, |events|, e);
      }
    }
  }

  // ---- Whole runs of the scheduler ----------------------------------------------------------

  /** What the world sees at one second: the active set, and when the next Update is due. */
  datatype Moment = Moment(active: set<nat>, due: int)

  /** From t0 on, every pass is defined, and hardcoded events are in the table. */
  ghost predicate RunDefined(events: seq<GameEvent>, hd: int -> Hardcoded, t0: int) {
    |events| >= 1 && forall t :: t0 <= t ==> PassDefined(events, t) && KnownIds(events, hd(t))
  }

  ghost function Tick(events: seq<GameEvent>, hd: int -> Hardcoded, active: set<nat>, now: int): Moment
    requires |events| >= 1 && PassDefined(events, now) && KnownIds(events, hd(now))
  {
    var delay := Shortest(events, now, HardcodedBase(events, hd(now)), |events|) + 1;
    Moment(UpdatedActive(events, active, now), now + delay)
  }

  /** The moment t, when Update runs at t0 and from then on exactly when it asked to. */
  ghost function At(events: seq<GameEvent>, hd: int -> Hardcoded, active0: set<nat>, t0: int, t: int): Moment
    requires RunDefined(events, hd, t0) && t0 <= t
    decreases t - t0
  {
    if t == t0 then Tick(events, hd, active0, t0)
    else
      var before := At(events, hd, active0, t0, t - 1);
      if before.due == t then Tick(events, hd, before.active, t) else before
  }

  /** The most recent Update, seen from any second t of a run. */
  lemma {:induction false} LastUpdate(events: seq<GameEvent>, hd: int -> Hardcoded, active0: set<nat>, t0: int, t: int)
    returns (u: int, active: set<nat>)
    requires RunDefined(events, hd, t0) && t0 <= t
    ensures t0 <= u <= t < At(events, hd, active0, t0, t).due
    ensures At(events, hd, active0, t0, t) == Tick(events, hd, active, u)
    decreases t - t0
  {
    if t == t0 {
      u, active := t0, active0;
    } else {
      u, active := LastUpdate(events, hd, active0, t0, t - 1);
      var before := At(events, hd, active0, t0, t - 1);
      if before.due == t {
        u, active := t, before.active;
      }
    }
  }

  /**
    In a run where every Update comes exactly when the previous one asked for it, every
    scheduled event is active precisely while its window is open, at every second except
    possibly the single second just before the next Update.
   */
  lemma ActiveSetFollowsWindows(
      events: seq<GameEvent>, hd: int -> Hardcoded, active0: set<nat>, t0: int, t: int, e: nat)
    requires RunDefined(events, hd, t0) && t0 <= t
    requires 1 <= e < |events| && !events[e].hardcoded && !events[e].disabled && events[e].Loaded()
    ensures PassDefined(events, t)
    ensures
      var m := At(events, hd, active0, t0, t);
      m.due == t + 1 || (e in m.active <==> CheckOneGameEvent(events[e], t))
  {
    var m := At(events, hd, active0, t0, t);
    var u, active := LastUpdate(events, hd, active0, t0, t);
    ShortestBounds(events, u, HardcodedBase(events, hd(u)), |events|, e);
    if m.due != t + 1 {
      NextCheckSound(events[e], u, t);
    }
    if !events[e].IsValid() { EmptyIsOff(events[e], u); }
    assert e in m.active <==> IsOn(events, e, u);
  }

  // ---- The manager ---------------------------------------------------------------------------

  /** Where list id lives. */
  function Slot(size: nat, id: int): int { size + id - 1 }

  /** The list of what appears during event e, and of what appears outside it. */
  function During(size: nat, e: nat): int { Slot(size, e) }
  function Outside(size: nat, e: nat): int { Slot(size, -(e as int)) }

  /** Every guid is listed at most once over all lists. */
  ghost predicate ListedOnce(lists: SpawnLists) {
    forall i, j, a, b ::
      (0 <= i < |lists| && 0 <= j < |lists| && 0 <= a < |lists[i]| && 0 <= b < |lists[j]| && lists[i][a] == lists[j][b])
      ==> i == j && a == b
  }

  /** Spawns on list +e are in the grid iff e is active, those on list -e iff it is not. */
  ghost predicate InStep(lists: SpawnLists, known: set<Guid>, grid: set<Guid>, size: nat, active: set<nat>, e: nat)
    requires 1 <= e < size && |lists| == 2 * size - 1
  {
    && (forall g :: g in known && g in lists[During(size, e)] ==> (g in grid <==> e in active))
    && (forall g :: g in known && g in lists[Outside(size, e)] ==> (g in grid <==> e !in active))
  }

  /** Spawns on list +e are in the grid iff the window of e is open, those on list -e iff it is not. */
  ghost predicate Follows(lists: SpawnLists, known: set<Guid>, grid: set<Guid>, events: seq<GameEvent>, e: nat, t: int)
    requires 1 <= e < |events| && |lists| == 2 * |events| - 1 && events[e].DefinedAt(t)
  {
    InStep(lists, known, grid, |events|, if CheckOneGameEvent(events[e], t) then {e} else {}, e)
  }

  /** Before the first Update: e is inactive and nothing it lists is in the grid. */
  ghost predicate Asleep(lists: SpawnLists, known: set<Guid>, grid: set<Guid>, size: nat, active: set<nat>, e: nat)
    requires 1 <= e < size && |lists| == 2 * size - 1
  {
    && e !in active
    && (forall g :: g in known && g in lists[During(size, e)] ==> g !in grid)
    && (forall g :: g in known && g in lists[Outside(size, e)] ==> g !in grid)
  }

  /** Spawning or removing other events' lists does not disturb an event. */
  lemma OtherEventFrame(lists: SpawnLists, known: set<Guid>, grid: set<Guid>, grid': set<Guid>,
                    size: nat, active: set<nat>, active': set<nat>, e: nat, e': nat)
    requires 1 <= e < size && 1 <= e' < size && e != e' && |lists| == 2 * size - 1
    requires ListedOnce(lists)
    requires e' in active <==> e' in active'
    requires forall g :: g !in lists[During(size, e)] && g !in lists[Outside(size, e)] ==> (g in grid <==> g in grid')
    ensures InStep(lists, known, grid, size, active, e') ==> InStep(lists, known, grid', size, active', e')
    ensures Asleep(lists, known, grid, size, active, e') ==> Asleep(lists, known, grid', size, active', e')
  {
  }

  ghost predicate AllInStep(lists: SpawnLists, known: set<Guid>, grid: set<Guid>, size: nat, active: set<nat>,
                            es: set<nat>)
    requires |lists| == 2 * size - 1
  {
    forall e :: e in es ==> 1 <= e < size && InStep(lists, known, grid, size, active, e)
  }

  ghost predicate AllAsleep(lists: SpawnLists, known: set<Guid>, grid: set<Guid>, size: nat, active: set<nat>,
                            es: set<nat>)
    requires |lists| == 2 * size - 1
  {
    forall e :: e in es ==> 1 <= e < size && Asleep(lists, known, grid, size, active, e)
  }

  /** With nothing active and nothing listed in the grid, every event is dormant. */
  lemma AllDormant(lists: SpawnLists, known: set<Guid>, grid: set<Guid>, size: nat, es: set<nat>)
    requires |lists| == 2 * size - 1 && forall e :: e in es ==> 1 <= e < size
    requires forall i, g :: 0 <= i < |lists| && g in lists[i] ==> g !in grid
    ensures AllAsleep(lists, known, grid, size, {}, es) && AllInStep(lists, known, grid, size, {}, {})
  {
  }

  /** The spawns of a list that have spawn data. */
  function Known(list: seq<Guid>, known: set<Guid>): set<Guid> { set g | g in list && g in known }

  /** Exchanging the two lists of event e puts e in step and disturbs no other event. */
  lemma SwitchKeepsInStep(lists: SpawnLists, known: set<Guid>, grid: set<Guid>, grid': set<Guid>,
                          size: nat, active: set<nat>, e: nat, on: bool, settled: set<nat>, asleep: set<nat>)
    requires 1 <= e < size && |lists| == 2 * size - 1 && ListedOnce(lists)
    requires
      var during := Known(lists[During(size, e)], known);
      var outside := Known(lists[Outside(size, e)], known);
      grid' == if on then (grid + during) - outside else (grid - during) + outside
    requires AllInStep(lists, known, grid, size, active, settled)
    requires AllAsleep(lists, known, grid, size, active, asleep)
    ensures
      var active' := if on then active + {e} else active - {e};
      && AllInStep(lists, known, grid', size, active', settled + {e})
      && AllAsleep(lists, known, grid', size, active', asleep - {e})
  {
    var active' := if on then active + {e} else active - {e};
    assert During(size, e) != Outside(size, e);
    assert InStep(lists, known, grid', size, active', e);
    forall e' | e' in settled && e' != e
      ensures InStep(lists, known, grid', size, active', e')
    {
      OtherEventFrame(lists, known, grid, grid', size, active, active', e, e');
    }
    forall e' | e' in asleep && e' != e
      ensures Asleep(lists, known, grid', size, active', e')
    {
      OtherEventFrame(lists, known, grid, grid', size, active, active', e, e');
    }
  }

  /** Spawning what appears outside a dormant event puts it in step and disturbs no other event. */
  lemma FirstSpawnKeepsInStep(lists: SpawnLists, known: set<Guid>, grid: set<Guid>, grid': set<Guid>,
                              size: nat, active: set<nat>, e: nat, settled: set<nat>, asleep: set<nat>)
    requires 1 <= e < size && |lists| == 2 * size - 1 && ListedOnce(lists) && e in asleep
    requires grid' == grid + Known(lists[Outside(size, e)], known)
    requires AllInStep(lists, known, grid, size, active, settled) && AllAsleep(lists, known, grid, size, active, asleep)
    ensures AllInStep(lists, known, grid', size, active, settled + {e}) &&
            AllAsleep(lists, known, grid', size, active, asleep - {e})
  {
  }

  /** A dormant event is in step exactly if it replaces nothing. */
  lemma DormantInStepIff(lists: SpawnLists, known: set<Guid>, grid: set<Guid>, size: nat, active: set<nat>, e: nat)
    requires 1 <= e < size && |lists| == 2 * size - 1 && Asleep(lists, known, grid, size, active, e)
    ensures InStep(lists, known, grid, size, active, e) <==> Known(lists[Outside(size, e)], known) == {}
  {
    assert forall g :: g in Known(lists[Outside(size, e)], known) <==> g in lists[Outside(size, e)] && g in known;
    if g :| g in Known(lists[Outside(size, e)], known) { assert g !in grid; }
  }

  /** An event that lists nothing is in step whatever happens. */
  lemma NothingListed(lists: SpawnLists, known: set<Guid>, grid: set<Guid>, size: nat, active: set<nat>, e: nat,
                      settled: set<nat>)
    requires 1 <= e < size && |lists| == 2 * size - 1
    requires lists[During(size, e)] == lists[Outside(size, e)] == [] &&
             AllInStep(lists, known, grid, size, active, settled)
    ensures AllInStep(lists, known, grid, size, active, settled + {e})
  {
  }

  method AddToGrid(list: seq<Guid>, known: set<Guid>, grid: set<Guid>) returns (grid': set<Guid>)
    ensures grid' == grid + Known(list, known)
  {
    grid' := grid;
    for i := 0 to |list|
      invariant grid' == grid + Known(list[..i], known)
    {
      if list[i] in known { grid' := grid' + {list[i]}; }
    }
    assert list[..|list|] == list;
  }

  method RemoveFromGrid(list: seq<Guid>, known: set<Guid>, grid: set<Guid>) returns (grid': set<Guid>)
    ensures grid' == grid - Known(list, known)
  {
    grid' := grid;
    for i := 0 to |list|
      invariant grid' == grid - Known(list[..i], known)
    {
      if list[i] in known { grid' := grid' - {list[i]}; }
    }
    assert list[..|list|] == list;
  }

  /**
    Whatever is requested, no pass divides by zero over this event: it is left to others, or has
    a period, or is no event and ends before it starts.
   */
  predicate Lasting(e: GameEvent) { e.hardcoded || e.Period() > 0 || (!e.IsValid() && e.end < e.start) }

  predicate AllLast(events: seq<GameEvent>) { forall i :: 1 <= i < |events| ==> Lasting(events[i]) }

  /** What loading makes of the tables: slot 0 is no event, and only events have spawns. */
  ghost predicate Consistent(events: seq<GameEvent>, creatureLists: SpawnLists, gameobjectLists: SpawnLists) {
    && 1 <= |events| <= 32768 && !events[0].IsValid()
    && |creatureLists| == |gameobjectLists| == 2 * |events| - 1
    && ListedOnce(creatureLists) && ListedOnce(gameobjectLists)
    && creatureLists[|events| - 1] == gameobjectLists[|events| - 1] == []
    && (forall e :: 1 <= e < |events| && !events[e].IsValid() ==>
          && creatureLists[During(|events|, e)] == creatureLists[Outside(|events|, e)] == []
          && gameobjectLists[During(|events|, e)] == gameobjectLists[Outside(|events|, e)] == [])
  }

  /** Reserved slot 0 and every gap in the numbering divide by zero nowhere. */
  lemma EmptySlotLasts()
    ensures Lasting(EMPTY_SLOT) && EMPTY_SLOT.Loaded() && !EMPTY_SLOT.IsValid() && forall t :: EMPTY_SLOT.DefinedAt(t)
  {
  }

  /** A restarted event ends after it starts; if it did so before, at the same time, otherwise after its length. */
  lemma RestartedEndsLater(e: GameEvent, start: int)
    requires e.IsValid()
    ensures var r := GameEventMgr.Restarted(e, start);
            && r.start == start < r.end && (start < e.end ==> r.end == e.end)
            && (e.end <= start ==> r.end == start + e.length)
  {
  }

  /** Restarting a valid event without a period makes the next pass divide by zero, so that the period is needed. */
  lemma RestartedIsDefinedIff(e: GameEvent, now: int)
    requires e.IsValid()
    ensures (forall t :: GameEventMgr.Restarted(e, now).DefinedAt(t)) <==> e.Period() > 0
  {
    DefinedIff(GameEventMgr.Restarted(e, now));
  }

  /** Exactly those events have become settled that have become active, as far as they are events at all. */
  ghost predicate Woken(events: seq<GameEvent>, before: set<nat>, settled: set<nat>, active: set<nat>) {
    forall e :: 0 <= e < |events| && events[e].IsValid() ==> (e in settled <==> e in before || e in active)
  }

  lemma WokenNext(events: seq<GameEvent>, before: set<nat>, settled: set<nat>, active: set<nat>, settled': set<nat>,
                  active': set<nat>, e: nat)
    requires Woken(events, before, settled, active) && e < |events|
    requires active' - {e} == active - {e} && settled' - {e} == settled - {e} && (e in active ==> e in before)
    requires events[e].IsValid() ==> (e in settled' <==> e in settled || e in active')
    ensures Woken(events, before, settled', active')
  {
    assert forall x :: x != e ==> (x in active' <==> x in active' - {e}) && (x in active <==> x in active - {e});
    assert forall x :: x != e ==> (x in settled' <==> x in settled' - {e}) && (x in settled <==> x in settled - {e});
  }

  /** Event changes requested from outside. */
  datatype Request =
    | RunUpdate(now: int, hardcodedDelays: Hardcoded)
    | Start(id: nat, overwrite: bool, now: int)
    | Stop(id: nat, overwrite: bool, now: int)
    | Enable(id: nat, enable: bool, now: int)

  class GameEventMgr {
    var events: seq<GameEvent>             // index 0 is reserved
    var active: set<nat>
    var initialised: bool
    var creatureGrid: set<Guid>
    var gameobjectGrid: set<Guid>
    const creatureLists: SpawnLists
    const gameobjectLists: SpawnLists
    const knownCreatures: set<Guid>        // guids with spawn data
    const knownGameobjects: set<Guid>
    const hardcodedList: set<nat>
    ghost var settled: set<nat>            // events known to be in step with the grid
    ghost var asleep: set<nat>             // events known to be dormant

    ghost predicate Valid()
      reads this
    {
      Consistent(events, creatureLists, gameobjectLists) && forall e :: e in active ==> IsValidEvent(e)
    }

    /** The manager as it is once tables are loaded: nothing is active, and nothing is in the grid. */
    constructor (events: seq<GameEvent>, creatureLists: SpawnLists, gameobjectLists: SpawnLists,
                 knownCreatures: set<Guid>, knownGameobjects: set<Guid>, hardcodedList: set<nat>)
      requires Consistent(events, creatureLists, gameobjectLists)
      ensures Valid() && !initialised && active == {} && creatureGrid == gameobjectGrid == {}
      ensures this.events == events && this.creatureLists == creatureLists && this.gameobjectLists == gameobjectLists
      ensures this.knownCreatures == knownCreatures && this.knownGameobjects == knownGameobjects
    {
      this.events, this.creatureLists, this.gameobjectLists := events, creatureLists, gameobjectLists;
      this.knownCreatures, this.knownGameobjects, this.hardcodedList := knownCreatures, knownGameobjects, hardcodedList;
      active, initialised, creatureGrid, gameobjectGrid, settled, asleep := {}, false, {}, {}, {}, {};
    }

    predicate IsValidEvent(id: nat)
      reads this
    {
      id < |events| && events[id].IsValid()
    }

    predicate IsActiveEvent(id: nat)
      reads this
    {
      id in active
    }

    method GameEventSpawn(id: int)
      requires Valid() && -|events| < id < |events|
      modifies this`creatureGrid, this`gameobjectGrid
      ensures 0 <= Slot(|events|, id) < |creatureLists|
      ensures creatureGrid == old(creatureGrid) + Known(creatureLists[Slot(|events|, id)], knownCreatures)
      ensures gameobjectGrid == old(gameobjectGrid) + Known(gameobjectLists[Slot(|events|, id)], knownGameobjects)
    {
      var slot := Slot(|events|, id);
      creatureGrid := AddToGrid(creatureLists[slot], knownCreatures, creatureGrid);
      gameobjectGrid := AddToGrid(gameobjectLists[slot], knownGameobjects, gameobjectGrid);
    }

    method GameEventUnspawn(id: int)
      requires Valid() && -|events| < id < |events|
      modifies this`creatureGrid, this`gameobjectGrid
      ensures 0 <= Slot(|events|, id) < |creatureLists|
      ensures creatureGrid == old(creatureGrid) - Known(creatureLists[Slot(|events|, id)], knownCreatures)
      ensures gameobjectGrid == old(gameobjectGrid) - Known(gameobjectLists[Slot(|events|, id)], knownGameobjects)
    {
      var slot := Slot(|events|, id);
      creatureGrid := RemoveFromGrid(creatureLists[slot], knownCreatures, creatureGrid);
      gameobjectGrid := RemoveFromGrid(gameobjectLists[slot], knownGameobjects, gameobjectGrid);
    }

    /** The manager's invariant: every settled event is in step, every sleeping one dormant. */
    ghost predicate Tracked()
      reads this
    {
      && Valid()
      && AllInStep(creatureLists, knownCreatures, creatureGrid, |events|, active, settled)
      && AllInStep(gameobjectLists, knownGameobjects, gameobjectGrid, |events|, active, settled)
      && AllAsleep(creatureLists, knownCreatures, creatureGrid, |events|, active, asleep)
      && AllAsleep(gameobjectLists, knownGameobjects, gameobjectGrid, |events|, active, asleep)
      && forall e :: 1 <= e < |events| ==> e in settled || e in asleep
    }

    /** An event that has ever been active is settled. */
    lemma ActiveIsSettled()
      requires Tracked()
      ensures forall e :: e in active ==> e in settled
    {
      assert !IsValidEvent(0);
    }

    method ApplyNewEvent(e: nat)
      requires Tracked() && 1 <= e < |events| && IsValidEvent(e)
      modifies this`active, this`creatureGrid, this`gameobjectGrid, this`settled, this`asleep
      ensures Tracked() && active == old(active) + {e}
      ensures settled == old(settled) + {e} && asleep == old(asleep) - {e}
    {
      hide ListedOnce, AllInStep, AllAsleep, Known;
      active := active + {e};
      GameEventSpawn(e);
      GameEventUnspawn(-(e as int));
      SwitchKeepsInStep(creatureLists, knownCreatures, old(creatureGrid), creatureGrid, |events|, old(active), e, true,
                        settled, asleep);
      SwitchKeepsInStep(gameobjectLists, knownGameobjects, old(gameobjectGrid), gameobjectGrid, |events|, old(active),
                        e, true, settled, asleep);
      settled, asleep := settled + {e}, asleep - {e};
    }

    method UnApplyEvent(e: nat)
      requires Tracked() && 1 <= e < |events| && IsValidEvent(e)
      modifies this`active, this`creatureGrid, this`gameobjectGrid, this`settled, this`asleep
      ensures Tracked() && active == old(active) - {e}
      ensures settled == old(settled) + {e} && asleep == old(asleep) - {e}
    {
      hide ListedOnce, AllInStep, AllAsleep, Known;
      active := active - {e};
      GameEventUnspawn(e);
      GameEventSpawn(-(e as int));
      SwitchKeepsInStep(creatureLists, knownCreatures, old(creatureGrid), creatureGrid, |events|, old(active), e,
                        false, settled, asleep);
      SwitchKeepsInStep(gameobjectLists, knownGameobjects, old(gameobjectGrid), gameobjectGrid, |events|, old(active),
                        e, false, settled, asleep);
      settled, asleep := settled + {e}, asleep - {e};
    }

    /** The schedule after a manual start or stop that overwrites it. */
    static function Restarted(e: GameEvent, start: int): GameEvent {
      e.(start := start, end := if e.end <= start then start + e.length else e.end)
    }

    method StartEvent(id: nat, overwrite: bool, now: int)
      requires Tracked()
      modifies this`active, this`creatureGrid, this`gameobjectGrid, this`events, this`settled, this`asleep
      ensures Tracked() && |events| == old(|events|) && (old(AllLast(events)) ==> AllLast(events))
      ensures !old(IsValidEvent(id)) ==> unchanged(this)
      ensures old(IsValidEvent(id)) ==>
        && active == old(active) + {id} && settled == old(settled) + {id} && asleep == old(asleep) - {id}
        && events == if overwrite then old(events)[id := Restarted(old(events)[id], now)] else old(events)
    {
      if !IsValidEvent(id) { return; }
      ApplyNewEvent(id);
      if overwrite {
        events := events[id := Restarted(events[id], now)];
      }
    }

    method StopEvent(id: nat, overwrite: bool, now: int)
      requires Tracked()
      modifies this`active, this`creatureGrid, this`gameobjectGrid, this`events, this`settled, this`asleep
      ensures Tracked() && |events| == old(|events|) && (old(AllLast(events)) ==> AllLast(events))
      ensures !old(IsValidEvent(id)) ==> unchanged(this)
      ensures old(IsValidEvent(id)) ==>
        && active == old(active) - {id} && settled == old(settled) + {id} && asleep == old(asleep) - {id}
        && events == if overwrite then old(events)[id := Restarted(old(events)[id], now - old(events)[id].Duration())]
                     else old(events)
    {
      if !IsValidEvent(id) { return; }
      UnApplyEvent(id);
      if overwrite {
        events := events[id := Restarted(events[id], now - events[id].Duration())];
      }
    }

    /** Disabling an active event stops it at once; everything else waits for the next Update. */
    method EnableEvent(id: nat, enable: bool, now: int)
      requires Tracked()
      modifies this`active, this`creatureGrid, this`gameobjectGrid, this`events, this`settled, this`asleep
      ensures Tracked() && |events| == old(|events|) && (old(AllLast(events)) ==> AllLast(events))
      ensures !old(IsValidEvent(id)) || old(events)[id].disabled == !enable ==> unchanged(this)
      ensures old(IsValidEvent(id)) ==> events[id].disabled == !enable
      ensures settled == old(settled)
      ensures active == if old(IsValidEvent(id)) && old(events)[id].disabled == enable && id !in hardcodedList
                        then old(active) - {id} else old(active)
    {
      ActiveIsSettled();
      if !IsValidEvent(id) || events[id].disabled == !enable { return; }
      events := events[id := events[id].(disabled := !enable)];
      if !IsActiveEvent(id) { return; }
      if id !in hardcodedList {
        StopEvent(id, true, now);
      }
    }

    /**
      One scheduler pass. Hardcoded events enter only through the delays they ask for,
      given as (event id, delay) pairs. Returns the delay to the next pass in milliseconds.
     */
    method Update(now: int, hd: Hardcoded) returns (delay: nat)
      requires Tracked() && KnownIds(events, hd) && PassDefined(events, now)
      requires !initialised ==> forall e :: 1 <= e < |events| ==> e in asleep
      modifies this`active, this`creatureGrid, this`gameobjectGrid, this`events, this`settled, this`asleep
      ensures Tracked() && events == old(events)
      ensures active == UpdatedActive(events, old(active), now)
      ensures forall e :: 1 <= e < |events| && !events[e].hardcoded && !events[e].disabled && events[e].IsValid() ==>
                (e in active <==> CheckOneGameEvent(events[e], now))
      ensures forall e :: 1 <= e < |events| && (events[e].hardcoded || events[e].disabled) ==>
                (e in active <==> e in old(active))
      ensures delay == (Shortest(events, now, HardcodedBase(events, hd), |events|) + 1) * IN_MILLISECONDS
      ensures exists d: nat :: IsShortest(events, hd, now, d) && delay == (d + 1) * 1000
      ensures old(settled) <= settled
      ensures !initialised ==> forall e :: 1 <= e < |events| && Scheduled(events[e]) ==> e in settled
      ensures initialised ==> Woken(events, old(settled), settled, active)
    {
      var next := MAX_CHECK_DELAY;
      for i := 0 to |hd|
        invariant next == HardcodedBase(events, hd[..i])
      {
        assert hd[..i + 1][..i] == hd[..i];
        if !events[hd[i].0].disabled && hd[i].1 < next { next := hd[i].1; }
      }
      assert hd[..|hd|] == hd;
      next := UpdateAll(now, next);
      ShortestIsShortest(events, hd, now);
      delay := (next + 1) * IN_MILLISECONDS;
    }

    /** The loop over all events; the delay found so far goes in, the shortest comes out. */
    method UpdateAll(now: int, base: nat) returns (next: nat)
      requires Tracked() && PassDefined(events, now)
      requires !initialised ==> forall e :: 1 <= e < |events| ==> e in asleep
      modifies this`active, this`creatureGrid, this`gameobjectGrid, this`events, this`settled, this`asleep
      ensures Tracked() && events == old(events)
      ensures active == UpdatedActive(events, old(active), now)
      ensures next == Shortest(events, now, base, |events|)
      ensures old(settled) <= settled
      ensures !initialised ==> forall e :: 1 <= e < |events| && Scheduled(events[e]) ==> e in settled
      ensures initialised ==> Woken(events, old(settled), settled, active)
    {
      ActiveIsSettled();
      assert Woken(events, settled, settled, active) && UpdatedBelow(events, active, active, now, 1);
      hide ListedOnce, AllInStep, AllAsleep, Known, Woken, UpdatedBelow, UpdatedActive, IsOn;
      next := base;
      for itr := 1 to |events|
        invariant Tracked() && events == old(events)
        invariant UpdatedBelow(events, old(active), active, now, itr)
        invariant next == Shortest(events, now, base, itr)
        invariant old(settled) <= settled
        invariant !initialised ==> forall e :: itr <= e < |events| ==> e in asleep
        invariant !initialised ==> forall e :: 1 <= e < itr && Scheduled(events[e]) ==> e in settled
        invariant initialised ==> Woken(events, old(settled), settled, active)
      {
        UpdateNext(itr, now, old(active), old(settled));
        if Scheduled(events[itr]) {
          var c := NextCheck(events[itr], now);
          if c < next { next := c; }
        }
      }
      AllUpdated(events, old(active), active, now);
    }

    /** One round of that loop, given what was active and settled before it. */
    method UpdateNext(e: nat, now: int, ghost active0: set<nat>, ghost settled0: set<nat>)
      requires Tracked() && 1 <= e < |events| && PassDefined(events, now) && (!initialised ==> e in asleep)
      requires UpdatedBelow(events, active0, active, now, e)
      requires initialised ==> active0 <= settled0 && Woken(events, settled0, settled, active)
      modifies this`active, this`creatureGrid, this`gameobjectGrid, this`events, this`settled, this`asleep
      ensures Tracked() && events == old(events)
      ensures UpdatedBelow(events, active0, active, now, e + 1)
      ensures initialised ==> Woken(events, settled0, settled, active)
      ensures old(settled) <= settled && old(asleep) - {e} <= asleep
      ensures !initialised && Scheduled(events[e]) ==> e in settled
    {
      hide ListedOnce, AllInStep, AllAsleep, Known, Woken, UpdatedBelow, UpdatedActive, IsOn;
      BelowIsUntouched(events, active0, active, now, e);
      if Scheduled(events[e]) {
        UpdateOne(e, now);
        if initialised { WokenNext(events, settled0, old(settled), old(active), settled, active, e); }
      }
      UpdatedNext(events, active0, old(active), active, now, e);
    }

    method UpdateOne(e: nat, now: int)
      requires Tracked() && 1 <= e < |events| && Scheduled(events[e]) && PassDefined(events, now)
      requires !initialised ==> e in asleep
      modifies this`active, this`creatureGrid, this`gameobjectGrid, this`events, this`settled, this`asleep
      ensures Tracked() && events == old(events)
      ensures active == if IsOn(events, e, now) then old(active) + {e} else old(active) - {e}
      ensures settled == old(settled) || settled == old(settled) + {e}
      ensures old(asleep) - {e} <= asleep
      ensures !initialised ==> e in settled
      ensures initialised && IsValidEvent(e) ==> (e in settled <==> e in old(settled) || e in active)
    {
      ActiveIsSettled();
      assert !initialised ==> e !in active;
      hide ListedOnce, AllInStep, AllAsleep, Known;
      if CheckOneGameEvent(events[e], now) {
        if !IsActiveEvent(e) {
          StartEvent(e, false, now);
          if !IsValidEvent(e) {
            NothingListed(creatureLists, knownCreatures, creatureGrid, |events|, active, e, settled);
            NothingListed(gameobjectLists, knownGameobjects, gameobjectGrid, |events|, active, e, settled);
            settled := settled + {e};
          }
        }
      } else if IsActiveEvent(e) {
        StopEvent(e, false, now);
      } else if !initialised {
        SpawnOutside(e);
      }
    }

    /** At start, an event that is not on spawns what appears outside it. */
    method SpawnOutside(e: nat)
      requires Tracked() && e in asleep
      modifies this`creatureGrid, this`gameobjectGrid, this`settled, this`asleep
      ensures Tracked() && settled == old(settled) + {e} && asleep == old(asleep) - {e}
    {
      assert 1 <= e < |events| && e !in active;
      hide ListedOnce, AllInStep, AllAsleep, Known;
      GameEventSpawn(-(e as int));
      FirstSpawnKeepsInStep(creatureLists, knownCreatures, old(creatureGrid), creatureGrid, |events|, active, e,
                            settled, asleep);
      FirstSpawnKeepsInStep(gameobjectLists, knownGameobjects, old(gameobjectGrid), gameobjectGrid, |events|, active,
                            e, settled, asleep);
      settled, asleep := settled + {e}, asleep - {e};
    }

    /** Server start: nothing is active and no listed guid is in the grid yet. */
    method Initialize(now: int, hd: Hardcoded) returns (delay: nat)
      requires Valid() && !initialised && KnownIds(events, hd) && PassDefined(events, now)
      requires forall i, g :: 0 <= i < |creatureLists| && g in creatureLists[i] ==> g !in creatureGrid
      requires forall i, g :: 0 <= i < |gameobjectLists| && g in gameobjectLists[i] ==> g !in gameobjectGrid
      modifies this
      ensures Tracked() && initialised && events == old(events)
      ensures active == UpdatedActive(events, {}, now)
      ensures delay == (Shortest(events, now, HardcodedBase(events, hd), |events|) + 1) * IN_MILLISECONDS
      ensures forall e :: 1 <= e < |events| && Scheduled(events[e]) ==> e in settled
    {
      active := {};
      settled, asleep := {}, set e | 1 <= e < |events| && e !in active;
      AllDormant(creatureLists, knownCreatures, creatureGrid, |events|, asleep);
      AllDormant(gameobjectLists, knownGameobjects, gameobjectGrid, |events|, asleep);
      assert Tracked();
      hide ListedOnce, AllInStep, AllAsleep, Known, Shortest, UpdatedActive;
      delay := Update(now, hd);
      initialised := true;
    }

    /** Every pass is defined, whatever the time and whatever is requested. */
    lemma PassIsDefined(now: int)
      requires Valid() && AllLast(events)
      ensures PassDefined(events, now)
    {
    }

    /**
      Server start at t0, and from then on an update exactly when the previous one asked for it:
      at every second t but the one before an update, what a scheduled event brings is in the
      grid while its window is open, and what it replaces while it is not.
     */
    method RunFromStart(t0: int, t: int, hd: int -> Hardcoded) returns (due: int)
      requires Valid() && !initialised && t0 <= t && RunDefined(events, hd, t0)
      requires forall i, g :: 0 <= i < |creatureLists| && g in creatureLists[i] ==> g !in creatureGrid
      requires forall i, g :: 0 <= i < |gameobjectLists| && g in gameobjectLists[i] ==> g !in gameobjectGrid
      modifies this
      ensures Valid() && events == old(events) && PassDefined(events, t)
      ensures Moment(active, due) == At(events, hd, {}, t0, t)
      ensures forall e :: 1 <= e < |events| && Scheduled(events[e]) && events[e].Loaded() && due != t + 1 ==>
                Follows(creatureLists, knownCreatures, creatureGrid, events, e, t) &&
                Follows(gameobjectLists, knownGameobjects, gameobjectGrid, events, e, t)
    {
      var delay := Initialize(t0, hd(t0));
      due := t0 + delay / IN_MILLISECONDS;
      for s := t0 to t
        invariant Tracked() && initialised && events == old(events)
        invariant forall e :: 1 <= e < |events| && Scheduled(events[e]) ==> e in settled
        invariant Moment(active, due) == At(events, hd, {}, t0, s)
      {
        hide AllInStep, AllAsleep, ListedOnce;
        if due == s + 1 {
          delay := Update(s + 1, hd(s + 1));
          due := s + 1 + delay / IN_MILLISECONDS;
        }
      }
      assert PassDefined(events, t);
      forall e | 1 <= e < |events| && Scheduled(events[e]) && events[e].Loaded() && due != t + 1
        ensures Follows(creatureLists, knownCreatures, creatureGrid, events, e, t)
        ensures Follows(gameobjectLists, knownGameobjects, gameobjectGrid, events, e, t)
      {
        hide InStep, AllInStep, AllAsleep, ListedOnce, At, Follows, CheckOneGameEvent;
        ActiveSetFollowsWindows(events, hd, {}, t0, t, e);
        SettledFollows(e, t);
      }
    }

    lemma SettledFollows(e: nat, t: int)
      requires Tracked() && 1 <= e < |events| && e in settled && PassDefined(events, t) && Scheduled(events[e])
      requires e in active <==> CheckOneGameEvent(events[e], t)
      ensures Follows(creatureLists, knownCreatures, creatureGrid, events, e, t)
      ensures Follows(gameobjectLists, knownGameobjects, gameobjectGrid, events, e, t)
    {
      assert InStep(creatureLists, knownCreatures, creatureGrid, |events|, active, e);
      assert InStep(gameobjectLists, knownGameobjects, gameobjectGrid, |events|, active, e);
    }

    /** The grid holds what the event demands. */
    ghost predicate IsInStep(e: nat)
      requires Valid() && 1 <= e < |events|
      reads this
    {
      && InStep(creatureLists, knownCreatures, creatureGrid, |events|, active, e)
      && InStep(gameobjectLists, knownGameobjects, gameobjectGrid, |events|, active, e)
    }

    /** The event replaces nothing. */
    ghost predicate NothingOutside(e: nat)
      requires Valid() && 1 <= e < |events|
      reads this
    {
      && Known(creatureLists[Outside(|events|, e)], knownCreatures) == {}
      && Known(gameobjectLists[Outside(|events|, e)], knownGameobjects) == {}
    }

    /**
      An event that was not scheduled at start, and has been neither active nor stopped since, is
      out of step exactly if it replaces anything: nobody has spawned that.
     */
    lemma InStepIff(e: nat)
      requires Tracked() && 1 <= e < |events|
      ensures IsInStep(e) <==> e in settled || NothingOutside(e)
    {
      if e in settled {
        assert InStep(creatureLists, knownCreatures, creatureGrid, |events|, active, e);
        assert InStep(gameobjectLists, knownGameobjects, gameobjectGrid, |events|, active, e);
      } else {
        DormantInStepIff(creatureLists, knownCreatures, creatureGrid, |events|, active, e);
        DormantInStepIff(gameobjectLists, knownGameobjects, gameobjectGrid, |events|, active, e);
      }
    }

    method Serve(r: Request)
      requires Tracked() && initialised && AllLast(events)
      requires r.RunUpdate? ==> KnownIds(events, r.hardcodedDelays)
      modifies this`active, this`creatureGrid, this`gameobjectGrid, this`events, this`settled, this`asleep
      ensures Tracked() && |events| == old(|events|) && AllLast(events) && old(settled) <= settled
      ensures forall e :: IsValidEvent(e) ==>
                (e in settled <==> e in old(settled) || e in active || (r.Stop? && r.id == e))
      ensures r.RunUpdate? ==> active == UpdatedActive(old(events), old(active), r.now) && events == old(events)
      ensures r.Start? && old(IsValidEvent(r.id)) ==> active == old(active) + {r.id}
      ensures r.Stop? && old(IsValidEvent(r.id)) ==> active == old(active) - {r.id}
      ensures r.Enable? && old(IsValidEvent(r.id)) ==> events[r.id].disabled == !r.enable
    {
      ActiveIsSettled();
      match r
      case RunUpdate(now, hd) =>
        PassIsDefined(now);
        var _ := Update(now, hd);
      case Start(id, overwrite, now) => StartEvent(id, overwrite, now);
      case Stop(id, overwrite, now) => StopEvent(id, overwrite, now);
      case Enable(id, enable, now) => EnableEvent(id, enable, now);
    }

    /**
      From server start on, through any mix of updates and manual requests: every event that
      was scheduled at start has its own spawns in the grid exactly while it is active, and
      its replaced spawns exactly while it is not.
     */
    method ServeFromStart(now: int, hd: Hardcoded, reqs: seq<Request>)
      requires Valid() && !initialised && KnownIds(events, hd) && AllLast(events)
      requires forall i, g :: 0 <= i < |creatureLists| && g in creatureLists[i] ==> g !in creatureGrid
      requires forall i, g :: 0 <= i < |gameobjectLists| && g in gameobjectLists[i] ==> g !in gameobjectGrid
      requires forall r :: r in reqs && r.RunUpdate? ==> KnownIds(events, r.hardcodedDelays)
      modifies this
      ensures Valid() && |events| == old(|events|)
      ensures forall e :: 1 <= e < |events| ==> (IsInStep(e) <==> e in settled || NothingOutside(e))
      ensures forall e, g :: 1 <= e < |events| && Scheduled(old(events)[e]) && g in knownCreatures ==>
        && (g in creatureLists[During(|events|, e)] ==> (g in creatureGrid <==> e in active))
        && (g in creatureLists[Outside(|events|, e)] ==> (g in creatureGrid <==> e !in active))
      ensures forall e, g :: 1 <= e < |events| && Scheduled(old(events)[e]) && g in knownGameobjects ==>
        && (g in gameobjectLists[During(|events|, e)] ==> (g in gameobjectGrid <==> e in active))
        && (g in gameobjectLists[Outside(|events|, e)] ==> (g in gameobjectGrid <==> e !in active))
    {
      PassIsDefined(now);
      var _ := Initialize(now, hd);
      ghost var atStart := settled;
      for i := 0 to |reqs|
        invariant Tracked() && initialised && AllLast(events) && |events| == old(|events|) && atStart <= settled
      {
        Serve(reqs[i]);
      }
      forall e | 1 <= e < |events| { InStepIff(e); }
    }

    /** The event a creature belongs to, negative if it appears outside the event; 0 if none. */
    method GetGameEventId(guid: Guid) returns (r: int)
      requires Valid()
      ensures forall id :: -|events| < id < |events| && guid in creatureLists[Slot(|events|, id)] ==> r == id
      ensures (forall i :: 0 <= i < |creatureLists| ==> guid !in creatureLists[i]) ==> r == 0
      ensures r != 0 ==> -|events| < r < |events| && guid in creatureLists[Slot(|events|, r)]
    {
      for i := 0 to |creatureLists|
        invariant forall k :: 0 <= k < i ==> guid !in creatureLists[k]
      {
        for a := 0 to |creatureLists[i]|
          invariant guid !in creatureLists[i][..a]
        {
          if creatureLists[i][a] == guid {
            r := i + 1 - |events|;
            return;
          }
        }
        assert creatureLists[i][..|creatureLists[i]|] == creatureLists[i];
      }
      r := 0;
    }
  }
}
