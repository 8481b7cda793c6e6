/**
  Choosing the creature a spawn point of a group brings forth, under per-entry quotas.

  The choice is made on line: points spawn, despawn and respawn in any order, and each choice
  sees only which points hold which creature at that moment.
 */
module SpawnQuota {
  import opened Basics

  type Guid = nat
  type Entry = nat

  /** How many creatures of an entry the group may have and must have. */
  datatype Limit = Limit(min: int, max: int)

  /**
    A group as far as spawning is concerned: its spawn points (members and original leader),
    the creature ids each point can bring forth, and the limited entries.
   */
  datatype Group = Group(members: set<Guid>, leader: Guid, ids: map<Guid, seq<Entry>>, limits: map<Entry, Limit>)
  {
    function Points(): set<Guid> { members + {leader} }

    /** Whether a point's data lists the entry. */
    predicate Lists(g: Guid, k: Entry) { g in ids && k in ids[g] }
  }

  type Live = map<Guid, Entry>

  predicate IsLimit(l: Limit) { l.min <= l.max && 0 < l.max }

  /** A row of the limits table as the loader takes it; a non-positive maximum means none. */
  function LoadLimit(minCount: Int32, maxCount: Int32): (r: Option<Limit>)
    ensures r.Some? <==> maxCount <= 0 || minCount <= maxCount
    ensures r.Some? ==> IsLimit(r.value) && r.value.min == minCount
    ensures r.Some? && maxCount > 0 ==> r.value.max == maxCount
    ensures r.Some? && maxCount <= 0 ==> r.value.max == INT32_MAX
  {
    if maxCount <= 0 then Some(Limit(minCount, INT32_MAX))
    else if minCount > maxCount then None
    else Some(Limit(minCount, maxCount))
  }

  /** The ids up to the first zero. */
  function UsedIds(ids: seq<Entry>): (r: seq<Entry>)
    ensures r <= ids && 0 !in r && (|r| == |ids| || ids[|r|] == 0)
  {
    if ids == [] || ids[0] == 0 then [] else [ids[0]] + UsedIds(ids[1..])
  }

  /** What a point chooses from when no quota applies. */
  function AnyId(ids: seq<Entry>): (r: set<Entry>)
    ensures if ids == [] || ids[0] == 0 then r == {1} else forall k :: k in r <==> k in UsedIds(ids)
  {
    if UsedIds(ids) == [] then {1} else set k | k in UsedIds(ids)
  }

  function Others(g: Group, guid: Guid): set<Guid> { g.Points() - {guid} }

  /** The given points that hold entry k. */
  function Holders(points: set<Guid>, live: Live, k: Entry): set<Guid> {
    set p | p in points && p in live && live[p] == k
  }

  function Count(points: set<Guid>, live: Live, k: Entry): nat { |Holders(points, live, k)| }

  /** The given points without a creature. */
  function Unspawned(points: set<Guid>, live: Live): set<Guid> {
    set p | p in points && p !in live
  }

  /** The given points whose data lists entry k. */
  function Listing(g: Group, points: set<Guid>, k: Entry): set<Guid> {
    set p | p in points && g.Lists(p, k)
  }

  /** How many points without a creature could bring forth entry k. */
  function Capable(g: Group, points: set<Guid>, live: Live, k: Entry): nat {
    |Listing(g, Unspawned(points, live), k)|
  }

  function NeedWithout(g: Group, live: Live, guid: Guid, k: Entry): int
    requires k in g.limits
  {
    g.limits[k].min - Count(Others(g, guid), live, k)
  }

  function RoomWithout(g: Group, live: Live, guid: Guid, k: Entry): int
    requires k in g.limits
  {
    g.limits[k].max - Count(Others(g, guid), live, k)
  }

  /** The ids of a point that are unlimited or not yet used up by the other points. */
  function Available(g: Group, live: Live, guid: Guid, ids: seq<Entry>): set<Entry> {
    set k | k in UsedIds(ids) && (k !in g.limits || RoomWithout(g, live, guid, k) > 0)
  }

  /** Too few other points are left to bring forth what is still needed of entry k. */
  predicate Forced(g: Group, live: Live, guid: Guid, ids: seq<Entry>, k: Entry) {
    && k in g.limits && k in Available(g, live, guid, ids)
    && NeedWithout(g, live, guid, k) > 0
    && (Unspawned(Others(g, guid), live) == {} || Capable(g, Others(g, guid), live, k) <= NeedWithout(g, live, guid, k))
  }

  /** The entries the program may choose for point guid. */
  ghost predicate MayChoose(g: Group, live: Live, guid: Guid, ids: seq<Entry>, e: Entry) {
    if g.limits == map[] || Available(g, live, guid, ids) == {} then e in AnyId(ids)
    else if exists k :: Forced(g, live, guid, ids, k) then
      Forced(g, live, guid, ids, e) && forall k :: Forced(g, live, guid, ids, k) ==> e <= k
    else e in Available(g, live, guid, ids)
  }

  /** Where nothing is forced, whatever is available may be chosen, and nothing else. */
  lemma ChoiceIsFree(g: Group, live: Live, guid: Guid, ids: seq<Entry>)
    requires g.limits != map[] && Available(g, live, guid, ids) != {} && forall k :: !Forced(g, live, guid, ids, k)
    ensures forall e :: MayChoose(g, live, guid, ids, e) <==>
              e in UsedIds(ids) && (e in g.limits ==> Count(Others(g, guid), live, e) < g.limits[e].max)
  {
  }

  // ---- Counting -------------------------------------------------------------------------------

  lemma CountSplit(points: set<Guid>, live: Live, p: Guid, k: Entry)
    requires p in points
    ensures Count(points, live, k) == Count(points - {p}, live, k) + if p in live && live[p] == k then 1 else 0
  {
    var rest := Holders(points - {p}, live, k);
    if p in live && live[p] == k {
      assert Holders(points, live, k) == rest + {p};
    } else {
      assert Holders(points, live, k) == rest;
    }
  }

  lemma CapableSplit(g: Group, points: set<Guid>, live: Live, p: Guid, k: Entry)
    requires p in points
    ensures Capable(g, points, live, k) ==
            Capable(g, points - {p}, live, k) + if p !in live && g.Lists(p, k) then 1 else 0
  {
    var rest := Listing(g, Unspawned(points - {p}, live), k);
    if p !in live && g.Lists(p, k) {
      assert Listing(g, Unspawned(points, live), k) == rest + {p};
    } else {
      assert Listing(g, Unspawned(points, live), k) == rest;
    }
  }

  /** What a point itself holds does not matter to the others. */
  lemma OthersUnaffected(g: Group, points: set<Guid>, live: Live, live': Live, p: Guid, k: Entry)
    requires p !in points && forall q :: q != p ==> (q in live <==> q in live') && (q in live ==> live[q] == live'[q])
    ensures Count(points, live, k) == Count(points, live', k)
    ensures Capable(g, points, live, k) == Capable(g, points, live', k)
  {
    assert Holders(points, live, k) == Holders(points, live', k);
    assert Unspawned(points, live) == Unspawned(points, live');
  }

  // ---- The program ------------------------------------------------------------------------------

  /** Any id of the point, at random; creature 1 if it has none. */
  method ChooseAnyId(ids: seq<Entry>) returns (e: Entry)
    ensures e in AnyId(ids)
  {
    var count := 0;
    while count < |ids| && ids[count] != 0
      invariant count <= |ids| && forall i :: 0 <= i < count ==> ids[i] != 0
    {
      count := count + 1;
    }
    UsedIdsAre(ids, count);
    if count == 0 { return 1; }
    var i :| 0 <= i < count;
    e := ids[i];
  }

  lemma {:induction false} UsedIdsAre(ids: seq<Entry>, count: nat)
    requires count <= |ids| && forall i :: 0 <= i < count ==> ids[i] != 0
    requires count == |ids| || ids[count] == 0
    ensures UsedIds(ids) == ids[..count]
  {
    if count > 0 {
      UsedIdsAre(ids[1..], count - 1);
      assert ids[..count] == [ids[0]] + ids[1..][..count - 1];
    }
  }

  function Lower(limits: map<Entry, Limit>, k: Entry): map<Entry, Limit> {
    if k in limits then limits[k := Limit(limits[k].min - 1, limits[k].max - 1)] else limits
  }

  /** The limits left over once the creatures of the given points are accounted for. */
  ghost predicate LeftOver(g: Group, points: set<Guid>, live: Live, current: map<Entry, Limit>) {
    current.Keys == g.limits.Keys &&
    forall k :: k in g.limits ==>
      && current[k].min == g.limits[k].min - Count(points, live, k)
      && current[k].max == g.limits[k].max - Count(points, live, k)
  }

  lemma LowerOnce(g: Group, points: set<Guid>, live: Live, current: map<Entry, Limit>, p: Guid)
    requires p !in points && LeftOver(g, points, live, current)
    ensures LeftOver(g, points + {p}, live, if p in live then Lower(current, live[p]) else current)
  {
    forall k | k in g.limits
      ensures Count(points + {p}, live, k) == Count(points, live, k) + if p in live && live[p] == k then 1 else 0
    {
      CountSplit(points + {p}, live, p, k);
      assert points + {p} - {p} == points;
    }
  }

  lemma UnspawnedOnce(points: set<Guid>, live: Live, p: Guid)
    requires p !in points
    ensures Unspawned(points + {p}, live) == Unspawned(points, live) + if p in live then {} else {p}
  {
  }

  /** Accounts for one other point. */
  method Account(g: Group, p: Guid, live: Live, current: map<Entry, Limit>, nonSpawned: set<Guid>,
                 ghost seen: set<Guid>)
    returns (current': map<Entry, Limit>, nonSpawned': set<Guid>)
    requires p !in seen && LeftOver(g, seen, live, current) && nonSpawned == Unspawned(seen, live)
    ensures LeftOver(g, seen + {p}, live, current') && nonSpawned' == Unspawned(seen + {p}, live)
  {
    LowerOnce(g, seen, live, current, p);
    UnspawnedOnce(seen, live, p);
    if p in live {
      return Lower(current, live[p]), nonSpawned;
    } else {
      return current, nonSpawned + {p};
    }
  }

  /** Accounts for the creatures of all other points of the group. */
  method Survey(g: Group, guid: Guid, live: Live) returns (current: map<Entry, Limit>, nonSpawned: set<Guid>)
    requires g.leader !in g.members
    ensures LeftOver(g, Others(g, guid), live, current)
    ensures nonSpawned == Unspawned(Others(g, guid), live)
  {
    current, nonSpawned := g.limits, {};
    var todo := g.members;
    ghost var seen: set<Guid> := {};
    assert LeftOver(g, seen, live, current);
    while todo != {}
      invariant todo <= g.members && seen == g.members - todo - {guid}
      invariant LeftOver(g, seen, live, current) && nonSpawned == Unspawned(seen, live)
      decreases todo
    {
      var p :| p in todo;
      todo := todo - {p};
      if p != guid {
        current, nonSpawned := Account(g, p, live, current, nonSpawned, seen);
        seen := seen + {p};
      }
    }
    if guid != g.leader {
      current, nonSpawned := Account(g, g.leader, live, current, nonSpawned, seen);
      seen := seen + {g.leader};
    }
    assert seen == Others(g, guid);
  }

  /** How many points of a set list the entry. */
  method CountListing(g: Group, points: set<Guid>, k: Entry) returns (n: nat)
    ensures n == |Listing(g, points, k)|
  {
    n := 0;
    var todo := points;
    while todo != {}
      invariant todo <= points
      invariant n == |Listing(g, points - todo, k)|
      decreases todo
    {
      var p :| p in todo;
      ghost var before := Listing(g, points - todo, k);
      todo := todo - {p};
      if g.Lists(p, k) {
        assert Listing(g, points - todo, k) == before + {p};
        n := n + 1;
      } else {
        assert Listing(g, points - todo, k) == before;
      }
    }
    assert points - todo == points;
  }

  /** Picks a creature id under the quotas that the other points leave over. */
  method ChooseCreatureId(g: Group, guid: Guid, ids: seq<Entry>, live: Live) returns (e: Entry)
    requires g.leader !in g.members
    ensures MayChoose(g, live, guid, ids, e)
    ensures Available(g, live, guid, ids) != {} ==> forall k :: Forced(g, live, guid, ids, k) ==> e <= k
  {
    if g.limits == map[] {
      e := ChooseAnyId(ids);
      return;
    }
    var current, nonSpawned := Survey(g, guid, live);

    var available: set<Entry> := {};
    var i := 0;
    while i < |ids| && ids[i] != 0
      invariant i <= |ids| && forall j :: 0 <= j < i ==> ids[j] != 0
      invariant available == set k | k in ids[..i] && (k !in current || current[k].max > 0)
    {
      if ids[i] !in current || current[ids[i]].max > 0 { available := available + {ids[i]}; }
      i := i + 1;
    }
    UsedIdsAre(ids, i);
    assert available == Available(g, live, guid, ids);

    if available == {} {
      e := ChooseAnyId(ids);
      return;
    }

    var forced := PickForced(g, guid, ids, live, current, nonSpawned, available);
    if forced.Some? { return forced.value; }
    e :| e in available;
  }

  /** The first entry, in ascending order, that this point must bring forth for its minimum to be met. */
  method PickForced(g: Group, guid: Guid, ids: seq<Entry>, live: Live,
                    current: map<Entry, Limit>, nonSpawned: set<Guid>, available: set<Entry>)
    returns (r: Option<Entry>)
    requires LeftOver(g, Others(g, guid), live, current)
    requires nonSpawned == Unspawned(Others(g, guid), live)
    requires available == Available(g, live, guid, ids)
    ensures r == None ==> forall k :: !Forced(g, live, guid, ids, k)
    ensures r.Some? ==>
              Forced(g, live, guid, ids, r.value) && forall k :: Forced(g, live, guid, ids, k) ==> r.value <= k
  {
    var todo := current.Keys;
    while todo != {}
      invariant todo <= current.Keys
      invariant forall k :: k in current && k !in todo ==> !Forced(g, live, guid, ids, k)
      decreases todo
    {
      ghost var least := Least(todo);
      var k :| k in todo && forall x :: x in todo ==> k <= x;
      if current[k].min > 0 && k in available {
        if nonSpawned == {} {
          return Some(k);
        }
        var capable := CountListing(g, nonSpawned, k);
        if capable <= current[k].min {
          return Some(k);
        }
      }
      todo := todo - {k};
    }
    r := None;
  }

  // ---- Whole runs --------------------------------------------------------------------------------

  /**
    Every point brings forth something, its ids are not hidden behind a zero, and the leader is
    not also listed as a member.
   */
  ghost predicate WellFormed(g: Group) {
    && g.leader !in g.members
    && (forall p :: p in g.Points() ==> p in g.ids && UsedIds(g.ids[p]) != [])
    && (forall p, k :: p in g.Points() && k in g.limits ==> (g.Lists(p, k) <==> k in UsedIds(g.ids[p])))
    && (forall k :: k in g.limits ==> IsLimit(g.limits[k]))
  }

  /** Point p spawns or respawns, as whatever the program may choose. */
  ghost predicate Spawns(g: Group, live: Live, live': Live, p: Guid) {
    && p in g.Points() && p in g.ids && p in live'
    && live' == live[p := live'[p]]
    && MayChoose(g, live, p, g.ids[p], live'[p])
  }

  ghost predicate Despawns(g: Group, live: Live, live': Live, p: Guid) {
    p in live && live' == live - {p}
  }

  ghost predicate Step(g: Group, live: Live, live': Live) {
    exists p :: Spawns(g, live, live', p) || Despawns(g, live, live', p)
  }

  /** A run starts with no creature spawned. */
  ghost predicate Run(g: Group, trace: seq<Live>) {
    && trace != [] && trace[0] == map[]
    && forall i :: 0 <= i < |trace| - 1 ==> Step(g, trace[i], trace[i + 1])
  }

  /** Every spawned creature is one its point can bring forth. */
  ghost predicate Proper(g: Group, live: Live) {
    live.Keys <= g.Points() && forall p :: p in live ==> p in g.ids && live[p] in UsedIds(g.ids[p])
  }

  lemma ChosenIsUsable(g: Group, live: Live, p: Guid, e: Entry)
    requires WellFormed(g) && p in g.Points() && MayChoose(g, live, p, g.ids[p], e)
    ensures e in UsedIds(g.ids[p])
  {
  }

  lemma {:induction false} RunIsProper(g: Group, trace: seq<Live>, n: nat)
    requires WellFormed(g) && Run(g, trace) && n < |trace|
    ensures Proper(g, trace[n])
  {
    if n > 0 {
      RunIsProper(g, trace, n - 1);
      var live, live' := trace[n - 1], trace[n];
      assert Step(g, live, live');
      var p :| Spawns(g, live, live', p) || Despawns(g, live, live', p);
      if Spawns(g, live, live', p) { ChosenIsUsable(g, live, p, live'[p]); }
    }
  }

  // ---- Maximum -----------------------------------------------------------------------------------

  ghost predicate WithinMax(g: Group, points: set<Guid>, live: Live) {
    forall k :: k in g.limits ==> Count(points, live, k) <= g.limits[k].max
  }

  /** The count of an entry after a spawn: what the others hold, and the new creature. */
  lemma CountAfterSpawn(g: Group, live: Live, p: Guid, e: Entry, k: Entry)
    requires p in g.Points()
    ensures Count(g.Points(), live[p := e], k) == Count(Others(g, p), live, k) + if e == k then 1 else 0
  {
    CountSplit(g.Points(), live[p := e], p, k);
    OthersUnaffected(g, Others(g, p), live, live[p := e], p, k);
  }

  lemma OthersHoldNoMore(g: Group, live: Live, p: Guid)
    requires p in g.Points() && WithinMax(g, g.Points(), live)
    ensures WithinMax(g, Others(g, p), live)
  {
    forall k | k in g.limits
      ensures Count(Others(g, p), live, k) <= g.limits[k].max
    {
      CountSplit(g.Points(), live, p, k);
    }
  }

  /** With every id used up the program falls back on any of them, and exceeds its maximum whichever it picks. */
  lemma FallbackExceeds(g: Group, live: Live, p: Guid, e: Entry)
    requires WellFormed(g) && p in g.Points() && g.limits != map[] && Available(g, live, p, g.ids[p]) == {}
    requires MayChoose(g, live, p, g.ids[p], e)
    ensures e in g.limits && Count(g.Points(), live[p := e], e) > g.limits[e].max
    ensures !WithinMax(g, g.Points(), live[p := e])
  {
    assert e in UsedIds(g.ids[p]) && e !in Available(g, live, p, g.ids[p]);
    CountAfterSpawn(g, live, p, e, e);
  }

  /** Exactly when a spawn respects every maximum: some id of the point is unlimited or not used up. */
  lemma MaxKeptIff(g: Group, live: Live, p: Guid)
    requires WellFormed(g) && p in g.Points() && WithinMax(g, Others(g, p), live)
    ensures g.limits == map[] || Available(g, live, p, g.ids[p]) != {} <==>
            forall e :: MayChoose(g, live, p, g.ids[p], e) ==> WithinMax(g, g.Points(), live[p := e])
  {
    var ids := g.ids[p];
    var avail := Available(g, live, p, ids);
    if g.limits != map[] && avail == {} {
      var e := UsedIds(ids)[0];
      assert MayChoose(g, live, p, ids, e);
      FallbackExceeds(g, live, p, e);
    } else if g.limits != map[] {
      forall e | MayChoose(g, live, p, ids, e)
        ensures WithinMax(g, g.Points(), live[p := e])
      {
        assert e in avail;
        forall k | k in g.limits
          ensures Count(g.Points(), live[p := e], k) <= g.limits[k].max
        {
          CountAfterSpawn(g, live, p, e, k);
        }
      }
    }
  }

  /** No spawn of the run finds all ids of its point used up. */
  ghost predicate NeverFallsBack(g: Group, trace: seq<Live>) {
    forall i, p :: 0 <= i < |trace| - 1 && Spawns(g, trace[i], trace[i + 1], p) ==>
      g.limits == map[] || Available(g, trace[i], p, g.ids[p]) != {}
  }

  /** Over any run without a fallback, no limited entry ever exceeds its maximum. */
  lemma {:induction false} MaxHolds(g: Group, trace: seq<Live>, n: nat)
    requires WellFormed(g) && Run(g, trace) && NeverFallsBack(g, trace) && n < |trace|
    ensures WithinMax(g, g.Points(), trace[n])
  {
    if n == 0 {
      assert forall k :: Holders(g.Points(), trace[0], k) == {};
    } else {
      MaxHolds(g, trace, n - 1);
      var live, live' := trace[n - 1], trace[n];
      assert Step(g, live, live');
      var p :| Spawns(g, live, live', p) || Despawns(g, live, live', p);
      if Spawns(g, live, live', p) {
        OthersHoldNoMore(g, live, p);
        MaxKeptIff(g, live, p);
      } else {
        forall k | k in g.limits
          ensures Count(g.Points(), live', k) <= g.limits[k].max
        {
          SubsetSize(Holders(g.Points(), live', k), Holders(g.Points(), live, k));
        }
      }
    }
  }

  /** One unlimited id at every point is enough for the fallback never to be needed. */
  lemma UnlimitedIdSuffices(g: Group, trace: seq<Live>)
    requires WellFormed(g)
    requires forall p :: p in g.Points() ==> exists k :: k in UsedIds(g.ids[p]) && k !in g.limits
    ensures NeverFallsBack(g, trace)
  {
    forall i, p | 0 <= i < |trace| - 1 && Spawns(g, trace[i], trace[i + 1], p)
      ensures Available(g, trace[i], p, g.ids[p]) != {}
    {
      var k :| k in UsedIds(g.ids[p]) && k !in g.limits;
      assert k in Available(g, trace[i], p, g.ids[p]);
    }
  }

  // ---- Minimum -----------------------------------------------------------------------------------

  /** The point lists an entry that has a minimum. */
  ghost predicate HasMinimum(g: Group, p: Guid, k: Entry)
    requires p in g.Points()
  {
    k in g.limits && g.limits[k].min > 0 && g.Lists(p, k)
  }

  /** No point has to serve two minima, however many maxima there are. */
  ghost predicate OneMinimumPerPoint(g: Group) {
    forall p, k, k' :: p in g.Points() && HasMinimum(g, p, k) && HasMinimum(g, p, k') ==> k == k'
  }

  /** What is still needed of every entry can still be brought forth. */
  ghost predicate Reachable(g: Group, live: Live) {
    forall k :: k in g.limits ==> g.limits[k].min - Count(g.Points(), live, k) <= Capable(g, g.Points(), live, k)
  }

  lemma SpawnKeepsReachable(g: Group, live: Live, p: Guid, e: Entry)
    requires WellFormed(g) && OneMinimumPerPoint(g) && Proper(g, live) && Reachable(g, live)
    requires p in g.Points() && MayChoose(g, live, p, g.ids[p], e)
    ensures Reachable(g, live[p := e])
  {
    forall k | k in g.limits
      ensures g.limits[k].min - Count(g.Points(), live[p := e], k) <= Capable(g, g.Points(), live[p := e], k)
    {
      SpawnKeepsReach(g, live, p, e, k);
    }
  }

  /** When the other points cannot cover what is needed of k, a point that lists k takes k. */
  lemma ScarceIsTaken(g: Group, live: Live, p: Guid, e: Entry, k: Entry)
    requires WellFormed(g) && OneMinimumPerPoint(g) && p in g.Points() && MayChoose(g, live, p, g.ids[p], e)
    requires k in g.limits && g.Lists(p, k)
    requires NeedWithout(g, live, p, k) > Capable(g, Others(g, p), live, k)
    ensures e == k
  {
    assert RoomWithout(g, live, p, k) > 0;
    assert k in Available(g, live, p, g.ids[p]);
    assert Forced(g, live, p, g.ids[p], k);
    ChosenIsUsable(g, live, p, e);
    assert HasMinimum(g, p, k) && HasMinimum(g, p, e);
  }

  lemma SpawnKeepsReach(g: Group, live: Live, p: Guid, e: Entry, k: Entry)
    requires WellFormed(g) && OneMinimumPerPoint(g) && Proper(g, live) && Reachable(g, live)
    requires p in g.Points() && MayChoose(g, live, p, g.ids[p], e) && k in g.limits
    ensures g.limits[k].min - Count(g.Points(), live[p := e], k) <= Capable(g, g.Points(), live[p := e], k)
  {
    CountAfterSpawn(g, live, p, e, k);
    CountSplit(g.Points(), live, p, k);
    CapableSplit(g, g.Points(), live, p, k);
    CapableSplit(g, g.Points(), live[p := e], p, k);
    OthersUnaffected(g, Others(g, p), live, live[p := e], p, k);
    if g.Lists(p, k) && NeedWithout(g, live, p, k) > Capable(g, Others(g, p), live, k) {
      ScarceIsTaken(g, live, p, e, k);
    }
  }

  lemma DespawnKeepsReachable(g: Group, live: Live, p: Guid)
    requires WellFormed(g) && Proper(g, live) && Reachable(g, live) && p in live
    ensures Reachable(g, live - {p})
  {
    forall k | k in g.limits
      ensures g.limits[k].min - Count(g.Points(), live - {p}, k) <= Capable(g, g.Points(), live - {p}, k)
    {
      DespawnKeepsReach(g, live, p, k);
    }
  }

  lemma DespawnKeepsReach(g: Group, live: Live, p: Guid, k: Entry)
    requires WellFormed(g) && Proper(g, live) && Reachable(g, live) && p in live && k in g.limits
    ensures g.limits[k].min - Count(g.Points(), live - {p}, k) <= Capable(g, g.Points(), live - {p}, k)
  {
    CountSplit(g.Points(), live, p, k);
    CountSplit(g.Points(), live - {p}, p, k);
    CapableSplit(g, g.Points(), live, p, k);
    CapableSplit(g, g.Points(), live - {p}, p, k);
    OthersUnaffected(g, Others(g, p), live, live - {p}, p, k);
  }

  /** Each minimum asks for no more creatures than there are points that list the entry. */
  ghost predicate Feasible(g: Group) {
    forall k :: k in g.limits ==> g.limits[k].min <= |Listing(g, g.Points(), k)|
  }

  lemma {:induction false} RunStaysReachable(g: Group, trace: seq<Live>, n: nat)
    requires WellFormed(g) && OneMinimumPerPoint(g) && Feasible(g) && Run(g, trace) && n < |trace|
    ensures Reachable(g, trace[n])
  {
    if n == 0 {
      assert Unspawned(g.Points(), trace[0]) == g.Points();
    } else {
      RunStaysReachable(g, trace, n - 1);
      RunIsProper(g, trace, n - 1);
      var live, live' := trace[n - 1], trace[n];
      assert Step(g, live, live');
      var p :| Spawns(g, live, live', p) || Despawns(g, live, live', p);
      if Spawns(g, live, live', p) {
        SpawnKeepsReachable(g, live, p, live'[p]);
      } else {
        DespawnKeepsReachable(g, live, p);
      }
    }
  }

  /** Whenever all points of the group are spawned, every entry has at least its minimum. */
  ghost predicate MinimumsMet(g: Group, live: Live) {
    live.Keys == g.Points() ==> forall k :: k in g.limits ==> g.limits[k].min <= Count(g.Points(), live, k)
  }

  lemma MinHolds(g: Group, trace: seq<Live>, n: nat)
    requires WellFormed(g) && OneMinimumPerPoint(g) && Feasible(g) && Run(g, trace) && n < |trace|
    ensures MinimumsMet(g, trace[n])
  {
    RunStaysReachable(g, trace, n);
    if trace[n].Keys == g.Points() {
      assert Unspawned(g.Points(), trace[n]) == {};
    }
  }

  /** Some choice is always possible. */
  lemma SomeChoice(g: Group, live: Live, p: Guid) returns (e: Entry)
    requires WellFormed(g) && p in g.Points()
    ensures MayChoose(g, live, p, g.ids[p], e)
  {
    var ids := g.ids[p];
    var avail := Available(g, live, p, ids);
    if g.limits == map[] || avail == {} {
      e := UsedIds(ids)[0];
    } else if exists k :: Forced(g, live, p, ids, k) {
      var forced := set k | k in g.limits && Forced(g, live, p, ids, k);
      var k :| Forced(g, live, p, ids, k);
      assert k in forced;
      e := Least(forced);
      assert forall k' :: Forced(g, live, p, ids, k') ==> k' in forced;
    } else {
      e :| e in avail;
    }
  }

  /** Some run spawns any given points, and only those. */
  lemma {:induction false} SomeRun(g: Group, points: set<Guid>) returns (trace: seq<Live>)
    requires WellFormed(g) && points <= g.Points()
    ensures Run(g, trace) && trace[|trace| - 1].Keys == points
  {
    if points == {} {
      trace := [map[]];
    } else {
      var p :| p in points;
      trace := SomeRun(g, points - {p});
      var live := trace[|trace| - 1];
      var e := SomeChoice(g, live, p);
      assert Spawns(g, live, live[p := e], p);
      assert Step(g, live, live[p := e]);
      trace := trace + [live[p := e]];
    }
  }

  /**
    The minimums are met in every state of every run in which all points are spawned, exactly
    if each of them asks for no more than the points could bring forth in the first place.
   */
  lemma MinimumsIffFeasible(g: Group)
    requires WellFormed(g) && OneMinimumPerPoint(g)
    ensures (forall trace, n :: Run(g, trace) && 0 <= n < |trace| ==> MinimumsMet(g, trace[n])) <==> Feasible(g)
  {
    if Feasible(g) {
      forall trace, n | Run(g, trace) && 0 <= n < |trace|
        ensures MinimumsMet(g, trace[n])
      {
        MinHolds(g, trace, n);
      }
    } else {
      var k :| k in g.limits && g.limits[k].min > |Listing(g, g.Points(), k)|;
      var trace := SomeRun(g, g.Points());
      var n := |trace| - 1;
      RunIsProper(g, trace, n);
      SubsetSize(Holders(g.Points(), trace[n], k), Listing(g, g.Points(), k));
      assert !MinimumsMet(g, trace[n]);
    }
  }

  // ---- What the greedy choice does not achieve ----------------------------------------------------

  /** Two points, both of which could serve entry 10, but only point 1 entry 20; one of each is needed. */
  const COMPETING: Group :=
    Group({1}, 2, map[1 := [10, 20], 2 := [10, 30]], map[10 := Limit(1, 2), 20 := Limit(1, 2)])

  lemma CompetingFacts()
    ensures WellFormed(COMPETING) && Feasible(COMPETING)
    ensures UsedIds(COMPETING.ids[1]) == [10, 20] && UsedIds(COMPETING.ids[2]) == [10, 30]
  {
    var g := COMPETING;
    assert g.Points() == {1, 2};
    assert UsedIds([10, 20]) == [10, 20] && UsedIds([10, 30]) == [10, 30];
    assert Listing(g, g.Points(), 10) == {1, 2} && Listing(g, g.Points(), 20) == {1};
  }

  lemma CompetingFirstIsForced(e: Entry)
    requires MayChoose(COMPETING, map[], 1, COMPETING.ids[1], e)
    ensures e == 10
  {
    var g := COMPETING;
    CompetingFacts();
    assert Others(g, 1) == {2};
    assert Holders({2}, map[], 10) == {} && Unspawned({2}, map[]) == {2} && Listing(g, {2}, 10) == {2};
    assert Forced(g, map[], 1, g.ids[1], 10);
    ChosenIsUsable(g, map[], 1, e);
  }

  lemma CompetingAssignmentExists()
    ensures MinimumsMet(COMPETING, map[1 := 20, 2 := 10])
  {
  }

  lemma CompetingMinimumMissed(e': Entry)
    requires e' != 20
    ensures !MinimumsMet(COMPETING, map[1 := 10, 2 := e'])
  {
    var g, live := COMPETING, map[1 := 10, 2 := e'];
    assert g.Points() == {1, 2} == live.Keys;
    assert Holders({1, 2}, live, 20) == {};
    assert 20 in g.limits && g.limits[20].min == 1;
  }

  /**
    A point that could serve two minima may be spent on the wrong one: point 1 as entry 20 and
    point 2 as entry 10 would meet both minimums, but if point 1 spawns first it must become
    entry 10, and entry 20 is missing whatever point 2 becomes.
   */
  lemma CompetingLimitsFail(e: Entry, e': Entry)
    requires MayChoose(COMPETING, map[], 1, COMPETING.ids[1], e)
    requires MayChoose(COMPETING, map[1 := e], 2, COMPETING.ids[2], e')
    ensures WellFormed(COMPETING) && Feasible(COMPETING) && MinimumsMet(COMPETING, map[1 := 20, 2 := 10])
    ensures !MinimumsMet(COMPETING, map[1 := e, 2 := e'])
  {
    CompetingFacts();
    CompetingFirstIsForced(e);
    assert 2 in COMPETING.Points();
    ChosenIsUsable(COMPETING, map[1 := e], 2, e');
    assert e' in [10, 30];
    CompetingMinimumMissed(e');
    CompetingAssignmentExists();
  }
}
