/**
  Cameras attached to the viewpoints of world objects.

  A camera shows its owner what its current source sees. Each object's viewpoint keeps the
  list of cameras attached to it and calls them when its own state changes; the callbacks may
  take the very camera that is being called off the list that is being walked.
 */
module Cameras {
  import opened Basics

  type GridId = nat

  /** What a viewpoint tells its cameras. */
  datatype ViewEvent = AddedToWorld | RemovedFromWorld | GridChanged | VisibilityChanged

  /** What a camera looks from, and the grid it is registered in. */
  datatype View = View(source: WorldObject, gridRef: Option<GridId>)

  type Views = map<Camera, View>

  /** The list without any occurrence of c. */
  function Without<T(==)>(s: seq<T>, c: T): seq<T> {
    if s == [] then []
    else if s[0] == c then Without(s[1..], c)
    else [s[0]] + Without(s[1..], c)
  }

  /** No element occurs twice. */
  ghost predicate Distinct<T>(s: seq<T>) {
    s == [] || (s[0] !in s[1..] && Distinct(s[1..]))
  }

  lemma {:induction false} DistinctAppend<T>(s: seq<T>, x: T)
    requires Distinct(s) && x !in s
    ensures Distinct(s + [x])
  {
    if s != [] {
      DistinctAppend(s[1..], x);
      assert (s + [x])[1..] == s[1..] + [x];
    }
  }

  /** The iterator stands before b; moving it on passes the first element of b. */
  lemma Advance<T>(a: seq<T>, b: seq<T>)
    requires b != []
    ensures (a + b)[|a + b| - |b|] == b[0]
    ensures a + b == a + [b[0]] + b[1..]
  {
  }

  /** The first element still to come is in the list, and has not been passed before. */
  lemma CalledOnce<T>(all: seq<T>, called: seq<T>, todo: seq<T>)
    requires all == called + todo && todo != [] && Distinct(all)
    ensures todo[0] in all && todo[0] !in called
  {
    DistinctAround(all, |called|);
    assert all[..|called|] == called && all[|called|] == todo[0];
  }

  lemma {:induction false} DistinctAround<T>(s: seq<T>, k: nat)
    requires Distinct(s) && k < |s|
    ensures s[k] !in s[..k] && s[k] !in s[k + 1..]
  {
    if k > 0 {
      DistinctAround(s[1..], k - 1);
      assert s[..k] == [s[0]] + s[1..][..k - 1];
      assert s[1..][k - 1] == s[k];
      assert s[1..][k..] == s[k + 1..];
    }
  }

  lemma {:induction false} WithoutMiddle<T>(a: seq<T>, c: T, b: seq<T>)
    requires c !in a && c !in b
    ensures Without(a + [c] + b, c) == a + b
  {
    if a == [] {
      WithoutAbsent(b, c);
      assert a + [c] + b == [c] + b;
    } else {
      WithoutMiddle(a[1..], c, b);
      assert (a + [c] + b)[1..] == a[1..] + [c] + b;
    }
  }

  lemma {:induction false} WithoutAbsent<T>(s: seq<T>, c: T)
    requires c !in s
    ensures Without(s, c) == s
  {
    if s != [] { WithoutAbsent(s[1..], c); }
  }

  lemma {:induction false} WithoutMembers<T>(s: seq<T>, c: T, x: T)
    ensures x in Without(s, c) <==> x in s && x != c
  {
    if s != [] {
      WithoutMembers(s[1..], c, x);
      assert s == [s[0]] + s[1..];
    }
  }

  lemma {:induction false} WithoutDistinct<T>(s: seq<T>, c: T)
    requires Distinct(s)
    ensures Distinct(Without(s, c))
  {
    if s != [] {
      WithoutDistinct(s[1..], c);
      WithoutMembers(s[1..], c, s[0]);
    }
  }

  /**
    A world object with its viewpoint, which the program keeps as a by-value member: the
    cameras attached to it, and the grid it is in.
   */
  class WorldObject {
    const isPlayer: bool
    const viewable: bool        // a unit or dynamic object
    var cameras: seq<Camera>
    var grid: Option<GridId>

    constructor (isPlayer: bool, viewable: bool)
      ensures this.isPlayer == isPlayer && this.viewable == viewable
      ensures cameras == [] && grid == None
    {
      this.isPlayer, this.viewable := isPlayer, viewable;
      cameras, grid := [], None;
    }

    predicate HasViewers()
      reads this`cameras
    {
      cameras != []
    }

    method Attach(c: Camera)
      modifies this`cameras
      ensures cameras == old(cameras) + [c]
    {
      cameras := cameras + [c];
    }

    method Detach(c: Camera)
      modifies this`cameras
      ensures cameras == Without(old(cameras), c)
    {
      cameras := Without(cameras, c);
    }
  }

  class Camera {
    const owner: WorldObject
    var source: WorldObject
    var gridRef: Option<GridId>

    /** A player's camera starts out on the player. */
    constructor (m: GameMap, player: WorldObject)
      requires m.Listed() && player in m.objects && player.isPlayer
      modifies m`cameras, player`cameras
      ensures m.Listed() && m.cameras == old(m.cameras) + {this} && gridRef == None
      ensures owner == source == player
      ensures player.cameras == old(player.cameras) + [this]
    {
      owner, source, gridRef := player, player, None;
      new;
      assert this !in player.cameras;
      hide Distinct;
      DistinctAppend(player.cameras, this);
      player.Attach(this);
      m.cameras := m.cameras + {this};
    }

    /** Whether SetView(obj) changes anything. */
    predicate WouldMove(m: GameMap, obj: WorldObject)
      reads this, m
    {
      source != obj && m.SameMap(owner, obj) && obj.viewable
    }

    method UpdateForCurrentViewPoint()
      modifies this`gridRef
      ensures gridRef == source.grid
    {
      gridRef := None;
      if source.grid.Some? { gridRef := source.grid; }
    }

    /** The part of SetView that is reached when the view does change. */
    method MoveTo(m: GameMap, obj: WorldObject)
      requires source != obj
      modifies this, source`cameras, obj`cameras, m`active
      ensures source == obj && gridRef == obj.grid
      ensures old(source).cameras == Without(old(source.cameras), this)
      ensures obj.cameras == old(obj.cameras) + [this]
      ensures m.active == (if m.IsActiveObject(old(source)) then old(m.active) else old(m.active) - {old(source)})
                           + (if old(m.IsActiveObject(obj)) then {} else {obj})
    {
      source.Detach(this);
      if !m.IsActiveObject(source) { m.RemoveFromActive(source); }

      source := obj;
      if !m.IsActiveObject(source) { m.AddToActive(source); }
      source.Attach(this);

      UpdateForCurrentViewPoint();
    }

    /**
      Moves the camera to obj, or leaves everything as it is. Objects named in unsettled are
      not registered as active, whoever views them; all others stay in step.
     */
    method SetView(m: GameMap, obj: WorldObject, ghost unsettled: set<WorldObject>)
      requires m.Listed() && this in m.cameras && obj in m.objects
      requires obj.isPlayer || obj !in unsettled || obj !in m.inWorld
      modifies this, source`cameras, obj`cameras, m`active
      ensures m.Listed()
      ensures old(m.InStepBut(unsettled)) ==> m.InStepBut(unsettled)
      ensures old(WouldMove(m, obj)) <==>
                old(source) != obj && obj.viewable && old(owner in m.inWorld) && old(obj in m.inWorld)
      ensures source == if old(WouldMove(m, obj)) then obj else old(source)
      ensures old(WouldMove(m, obj)) ==>
        && gridRef == obj.grid
        && old(source).cameras == Without(old(source.cameras), this)
        && obj.cameras == old(obj.cameras) + [this]
      ensures !old(WouldMove(m, obj)) ==>
        && gridRef == old(gridRef) && m.active == old(m.active)
        && source.cameras == old(source.cameras) && obj.cameras == old(obj.cameras)
    {
      if source == obj { return; }
      if !m.SameMap(owner, obj) { return; }
      if !obj.viewable { return; }
      Relocate(m, obj, unsettled);
    }

    /** A move that really takes place keeps the lists and the active set right. */
    method Relocate(m: GameMap, obj: WorldObject, ghost unsettled: set<WorldObject>)
      requires m.Listed() && this in m.cameras && obj in m.objects && source != obj
      requires obj.isPlayer || obj !in unsettled
      modifies this, source`cameras, obj`cameras, m`active
      ensures m.Listed()
      ensures old(m.InStepBut(unsettled)) ==> m.InStepBut(unsettled)
      ensures source == obj && gridRef == obj.grid
      ensures old(source).cameras == Without(old(source.cameras), this)
      ensures obj.cameras == old(obj.cameras) + [this]
    {
      assert this in source.cameras && this !in obj.cameras;
      ghost var from, before := source, source.cameras;
      WithoutDistinct(before, this);
      DistinctAppend(obj.cameras, this);
      MoveTo(m, obj);
      forall o, c | o in m.objects && c in o.cameras
        ensures c in m.cameras && c.source == o
      {
        if o == from {
          WithoutMembers(before, this, c);
        } else if c != this {
          assert c in old(o.cameras) && c.source == old(c.source);
        }
      }
      forall c | c in m.cameras
        ensures c in c.source.cameras
      {
        if c != this { WithoutMembers(before, this, c); }
      }
    }

    method ResetView(m: GameMap, ghost unsettled: set<WorldObject>)
      requires m.Listed() && this in m.cameras
      modifies this, source`cameras, owner`cameras, m`active
      ensures m.Listed()
      ensures old(m.InStepBut(unsettled)) ==> m.InStepBut(unsettled)
      ensures source == if old(WouldMove(m, owner)) then owner else old(source)
      ensures old(WouldMove(m, owner)) ==>
        && gridRef == owner.grid
        && old(source).cameras == Without(old(source.cameras), this)
        && owner.cameras == old(owner.cameras) + [this]
      ensures !old(WouldMove(m, owner)) ==>
        && gridRef == old(gridRef) && m.active == old(m.active)
        && source.cameras == old(source.cameras) && owner.cameras == old(owner.cameras)
    {
      SetView(m, owner, unsettled);
    }

    /** Whether this event sends the camera back to its owner. */
    predicate Leaves(m: GameMap, event: ViewEvent, hidden: set<Camera>)
      reads this, m
    {
      source != owner && owner in m.inWorld && (event.RemovedFromWorld? || (event.VisibilityChanged? && this in hidden))
    }

    /** The grid reference of a camera that stays. */
    function GridRefAfter(event: ViewEvent): Option<GridId>
      reads this, source
    {
      match event
      case AddedToWorld => source.grid
      case GridChanged => source.grid
      case RemovedFromWorld => if source == owner then None else gridRef
      case VisibilityChanged => gridRef
    }

    /** The handlers; hidden are the cameras whose owner does not see the source any more. */
    method Handle(m: GameMap, event: ViewEvent, hidden: set<Camera>, ghost unsettled: set<WorldObject>)
      requires m.Listed() && this in m.cameras
      modifies this, source`cameras, owner`cameras, m`active
      ensures m.Listed()
      ensures old(m.InStepBut(unsettled)) ==> m.InStepBut(unsettled)
      ensures old(Leaves(m, event, hidden)) ==>
        && source == owner && gridRef == owner.grid
        && old(source).cameras == Without(old(source.cameras), this)
        && owner.cameras == old(owner.cameras) + [this]
      ensures !old(Leaves(m, event, hidden)) ==>
        && source == old(source) && gridRef == old(GridRefAfter(event)) && m.active == old(m.active)
        && source.cameras == old(source.cameras) && owner.cameras == old(owner.cameras)
    {
      match event
      case AddedToWorld =>
        gridRef := source.grid;
      case GridChanged =>
        gridRef := None;
        gridRef := source.grid;
      case RemovedFromWorld =>
        if source == owner {
          gridRef := None;
          return;
        }
        ResetView(m, unsettled);
      case VisibilityChanged =>
        if this in hidden { ResetView(m, unsettled); }
    }
  }

  /** What an event at o makes of the view of a camera attached to it. */
  ghost function Outcome(c: Camera, view: View, o: WorldObject, event: ViewEvent, hidden: set<Camera>,
                         inWorld: set<WorldObject>, grids: map<WorldObject, Option<GridId>>): View
    requires c.owner in grids && o in grids
  {
    if c.owner != o && c.owner in inWorld && (event.RemovedFromWorld? || (event.VisibilityChanged? && c in hidden))
    then View(c.owner, grids[c.owner])
    else View(o, match event
                 case AddedToWorld => grids[o]
                 case GridChanged => grids[o]
                 case RemovedFromWorld => if c.owner == o then None else view.gridRef
                 case VisibilityChanged => view.gridRef)
  }

  lemma WithoutSplit<T>(kept: seq<T>, c: T, todo: seq<T>)
    requires Distinct(kept + [c] + todo)
    ensures c in kept + [c] + todo
    ensures Without(kept + [c] + todo, c) == kept + todo
  {
    var all := kept + [c] + todo;
    DistinctAround(all, |kept|);
    assert all[..|kept|] == kept && all[|kept| + 1..] == todo && all[|kept|] == c;
    WithoutMiddle(kept, c, todo);
  }

  /** The map: which non-players are updated although no player is near. */
  class GameMap {
    var active: set<WorldObject>
    var inWorld: set<WorldObject>
    var flagged: set<WorldObject>       // objects whose own active flag is set
    var objects: set<WorldObject>       // everything that has been created, on the map or not
    var cameras: set<Camera>

    constructor ()
      ensures Closed() && objects == {} && cameras == {}
    {
      active, inWorld, flagged, objects, cameras := {}, {}, {}, {}, {};
    }

    predicate SameMap(a: WorldObject, b: WorldObject)
      reads this
    {
      a in inWorld && b in inWorld
    }

    predicate IsActiveObject(o: WorldObject)
      reads this, o`cameras
    {
      o in flagged || o.HasViewers()
    }

    /** Every camera is listed exactly once, in the viewpoint of its source and nowhere else. */
    ghost predicate Listed()
      reads this, cameras, objects
    {
      && (forall o :: o in objects ==> Distinct(o.cameras) && (o.isPlayer ==> o in flagged && o.viewable))
      && (forall o, c :: o in objects && c in o.cameras ==> c in cameras && c.source == o)
      && (forall c :: c in cameras ==>
            c.owner in objects && c.owner.isPlayer && c.source in objects && c in c.source.cameras)
    }

    /**
      Non-players are registered as active exactly while they are flagged or watched; those
      that are unsettled, because they are not on the map, never.
     */
    ghost predicate InStepBut(unsettled: set<WorldObject>)
      reads this, objects
    {
      forall o :: o in objects && !o.isPlayer ==>
        (o in active <==> o !in unsettled && (o in flagged || o.cameras != []))
    }

    method AddToActive(o: WorldObject)
      modifies this`active
      ensures active == old(active) + {o}
    {
      active := active + {o};
    }

    method RemoveFromActive(o: WorldObject)
      modifies this`active
      ensures active == old(active) - {o}
    {
      if o in active { active := active - {o}; }
    }

    ghost predicate Same(os: set<WorldObject>, cs: set<Camera>, world: set<WorldObject>)
      reads this
    {
      objects == os && cameras == cs && inWorld == world
    }

    ghost predicate GridsAre(grids: map<WorldObject, Option<GridId>>)
      reads this, objects
    {
      grids.Keys == objects && forall x :: x in objects ==> x.grid == grids[x]
    }

    /** Cameras that have been called are as they should be, all others as they were. */
    ghost predicate Progress(was: Views, want: Views, called: seq<Camera>)
      reads this, cameras
    {
      was.Keys == want.Keys == cameras &&
      forall c :: c in cameras ==> View(c.source, c.gridRef) == if c in called then want[c] else was[c]
    }

    /** One call, seen from the map: no other camera changes. */
    method CallOne(o: WorldObject, c: Camera, event: ViewEvent, hidden: set<Camera>, ghost unsettled: set<WorldObject>,
                   ghost grids: map<WorldObject, Option<GridId>>)
      requires Listed() && InStepBut(unsettled) && GridsAre(grids) && o in objects && c in o.cameras
      modifies this`active, objects, cameras
      ensures Listed() && InStepBut(unsettled) && GridsAre(grids)
      ensures Same(old(objects), old(cameras), old(inWorld))
      ensures View(c.source, c.gridRef) == Outcome(c, View(o, old(c.gridRef)), o, event, hidden, inWorld, grids)
      ensures o.cameras == if c.source == o then old(o.cameras) else Without(old(o.cameras), c)
      ensures forall x :: x in cameras && x != c ==> x.source == old(x.source) && x.gridRef == old(x.gridRef)
    {
      c.Handle(this, event, hidden, unsettled);
    }

    /** The call to c while the walk has passed kept, and todo is still to come. */
    method CallNext(o: WorldObject, c: Camera, event: ViewEvent, hidden: set<Camera>,
                    ghost kept: seq<Camera>, ghost todo: seq<Camera>, ghost unsettled: set<WorldObject>,
                    ghost grids: map<WorldObject, Option<GridId>>,
                    ghost was: Views, ghost want: Views, ghost called: seq<Camera>)
      returns (ghost kept': seq<Camera>)
      requires Listed() && InStepBut(unsettled) && GridsAre(grids) && o in objects
      requires o.cameras == kept + [c] + todo
      requires Progress(was, want, called) && c !in called && c in want && was[c].source == o
      requires want[c] == Outcome(c, was[c], o, event, hidden, inWorld, grids)
      modifies this`active, objects, cameras
      ensures Listed() && InStepBut(unsettled) && GridsAre(grids)
      ensures Same(old(objects), old(cameras), old(inWorld))
      ensures Progress(was, want, called + [c])
      ensures o.cameras == kept' + todo
    {
      WithoutSplit(kept, c, todo);
      CallOne(o, c, event, hidden, unsettled, grids);
      kept' := if c.source == o then kept + [c] else kept;
    }

    /** How cameras look now, and once every camera attached to o has been told of the event. */
    lemma Plan(o: WorldObject, event: ViewEvent, hidden: set<Camera>, grids: map<WorldObject, Option<GridId>>)
      returns (was: Views, want: Views)
      requires Listed() && o in objects && GridsAre(grids)
      ensures Progress(was, want, [])
      ensures forall c :: c in was ==> was[c] == View(c.source, c.gridRef)
      ensures forall c :: c in want ==>
        want[c] == if c in o.cameras then Outcome(c, was[c], o, event, hidden, inWorld, grids) else was[c]
      ensures forall c :: c in o.cameras ==> c in was && was[c].source == o
    {
      was := map c | c in cameras :: View(c.source, c.gridRef);
      want := map c | c in cameras ::
        if c in o.cameras then Outcome(c, was[c], o, event, hidden, inWorld, grids) else was[c];
    }

    /**
      Calls every camera attached to o. The iterator has moved on before a camera is called,
      so it is given by the nodes that follow; the call may unlink the camera's own node.
      Returns the cameras in the order they were called.
     */
    method CameraCall(o: WorldObject, event: ViewEvent, hidden: set<Camera>, ghost unsettled: set<WorldObject>,
                      ghost grids: map<WorldObject, Option<GridId>>)
      returns (called: seq<Camera>)
      requires Listed() && InStepBut(unsettled) && GridsAre(grids) && o in objects
      modifies this`active, objects, cameras
      ensures Listed() && InStepBut(unsettled) && GridsAre(grids)
      ensures Same(old(objects), old(cameras), old(inWorld))
      ensures called == old(o.cameras)
      ensures forall c :: c in cameras ==>
        View(c.source, c.gridRef) ==
          if c in old(o.cameras) then Outcome(c, View(o, old(c.gridRef)), o, event, hidden, inWorld, grids)
          else View(old(c.source), old(c.gridRef))
    {
      ghost var was, want := Plan(o, event, hidden, grids);
      ghost var kept, all, todo, world := [], o.cameras, o.cameras, inWorld;
      called := [];
      var rest := |o.cameras|;
      while rest > 0
        invariant 0 <= rest == |todo| && called + todo == all
        invariant o.cameras == kept + todo
        invariant Listed() && InStepBut(unsettled) && GridsAre(grids)
        invariant Same(old(objects), old(cameras), world)
        invariant Progress(was, want, called)
      {
        var c := o.cameras[|o.cameras| - rest];
        Advance(kept, todo);
        Advance(called, todo);
        CalledOnce(all, called, todo);
        assert want[c] == Outcome(c, was[c], o, event, hidden, world, grids);
        kept := CallNext(o, c, event, hidden, kept, todo[1..], unsettled, grids, was, want, called);
        called := called + [c];
        rest := rest - 1;
        todo := todo[1..];
      }
    }

    /** Every camera is registered in the grid its source is in. */
    ghost predicate GridsFollowed()
      reads this, objects, cameras
      requires forall c :: c in cameras ==> c.source in objects
    {
      forall c :: c in cameras ==> c.gridRef == c.source.grid
    }

    ghost function Grids(): map<WorldObject, Option<GridId>>
      reads this, objects
    {
      map x | x in objects :: x.grid
    }

    /** Objects that are not on the map. */
    ghost function Away(): set<WorldObject>
      reads this
    {
      objects - inWorld
    }

    /**
      The invariant of the whole map: every camera is listed once, in its source only; a player
      has one camera, and looks at himself while he is away; what is viewed is on the map; an
      object is registered active exactly while it is on the map and flagged or watched; and
      every camera is in the grid of its source.
     */
    ghost predicate Closed()
      reads this, objects, cameras
    {
      Listed() && InStepBut(Away()) && GridsFollowed() && Homely()
    }

    ghost predicate Homely()
      reads this, objects, cameras
    {
      && inWorld <= objects
      && (forall c, d :: c in cameras && d in cameras && c.owner == d.owner ==> c == d)
      && (forall c :: c in cameras && c.source != c.owner ==> c.owner in inWorld && c.source in inWorld)
      && (forall o :: o in Away() ==> o.grid == None)
    }

    method SetGrid(o: WorldObject, grid: Option<GridId>, ghost unsettled: set<WorldObject>)
      requires Listed() && InStepBut(unsettled) && Homely() && o !in Away()
      modifies o`grid
      ensures Listed() && InStepBut(unsettled) && Homely() && o.grid == grid
    {
      o.grid := grid;
    }

    /** The object enters a grid, or moves to another one; no view changes. */
    method EnterGrid(o: WorldObject, grid: GridId, moved: bool) returns (called: seq<Camera>)
      requires Closed() && o in inWorld
      modifies this`active, objects, cameras
      ensures Closed() && Same(old(objects), old(cameras), old(inWorld)) && flagged == old(flagged)
      ensures called == old(o.cameras) && o.grid == Some(grid)
      ensures forall c :: c in cameras ==> c.source == old(c.source)
    {
      SetGrid(o, Some(grid), Away());
      called := Follow(o, if moved then GridChanged else AddedToWorld);
    }

    /** The object's cameras follow it to where it is now. */
    method Follow(o: WorldObject, event: ViewEvent) returns (called: seq<Camera>)
      requires Listed() && InStepBut(Away()) && Homely() && o in inWorld && (event.GridChanged? || event.AddedToWorld?)
      requires forall c :: c in cameras && c.source != o ==> c.gridRef == c.source.grid
      modifies this`active, objects, cameras
      ensures Closed() && Same(old(objects), old(cameras), old(inWorld)) && flagged == old(flagged)
      ensures called == old(o.cameras) && o.grid == old(o.grid)
      ensures forall c :: c in cameras ==> c.source == old(c.source)
    {
      hide InStepBut, Distinct;
      called := CameraCall(o, event, {}, Away(), Grids());
    }

    /** The object's visibility changed: the cameras whose players lost sight of it go home. */
    method VisibilityChanged(o: WorldObject, hidden: set<Camera>) returns (called: seq<Camera>)
      requires Closed() && o in objects
      modifies this`active, objects, cameras
      ensures Closed() && Same(old(objects), old(cameras), old(inWorld)) && flagged == old(flagged)
      ensures called == old(o.cameras)
      ensures forall c :: c in cameras ==>
        c.source == if c in old(o.cameras) && c in hidden && c.owner in inWorld then c.owner else old(c.source)
    {
      called := CameraCall(o, ViewEvent.VisibilityChanged, hidden, Away(), Grids());
    }

    /** Closed, but that o is no longer registered although it has not left the map yet. */
    ghost predicate Leaving(o: WorldObject)
      reads this, objects, cameras
    {
      Listed() && InStepBut(Away() + {o}) && GridsFollowed() && Homely() && o in inWorld
    }

    /**
      The object leaves the world; the map has already stopped updating it. Every attached
      camera is called once. Those of other players go home, unless their player is not on the
      map: then the camera would stay behind.
     */
    method RemovedFromWorld(o: WorldObject, ghost unsettled: set<WorldObject>) returns (called: seq<Camera>)
      requires Listed() && InStepBut(unsettled) && GridsFollowed() && o in objects && o in unsettled
      modifies this`active, objects, cameras
      ensures Listed() && InStepBut(unsettled) && Same(old(objects), old(cameras), old(inWorld)) &&
              flagged == old(flagged)
      ensures called == old(o.cameras) && Distinct(called)
      ensures forall c :: c in old(o.cameras) ==>
        && (c in o.cameras <==> c.owner == o || c.owner !in inWorld)
        && c.source == if c in o.cameras then o else c.owner
      ensures forall c :: c in cameras && c !in old(o.cameras) ==> c.source == old(c.source)
      ensures (forall c :: c in o.cameras ==> c.owner == o) <==>
              (forall c :: c in old(o.cameras) && c.owner != o ==> c.owner in inWorld)
      ensures (forall c :: c in old(o.cameras) && c.owner != o ==> c.owner in inWorld) ==> GridsFollowed()
      ensures forall x :: x in objects ==> x.grid == if x == o then None else old(x.grid)
    {
      hide InStepBut, Distinct;
      ClearGrid(o, unsettled);
      called := CameraCall(o, ViewEvent.RemovedFromWorld, {}, unsettled, Grids());
    }

    method ClearGrid(o: WorldObject, ghost unsettled: set<WorldObject>)
      requires Listed() && InStepBut(unsettled)
      modifies o`grid
      ensures Listed() && InStepBut(unsettled) && o.grid == None
    {
      o.grid := None;
    }

    /** All players who view the object are on the map, so that nobody but its own player still does. */
    method Vacate(o: WorldObject) returns (called: seq<Camera>)
      requires Leaving(o)
      modifies this`active, objects, cameras
      ensures Leaving(o) && Same(old(objects), old(cameras), old(inWorld)) && flagged == old(flagged) && o.grid == None
      ensures called == old(o.cameras)
      ensures forall c :: c in cameras ==> c.source == if c in old(o.cameras) then c.owner else old(c.source)
      ensures forall c :: c in o.cameras ==> c.owner == o
    {
      assert forall c :: c in o.cameras ==> c.source == o && (c.owner != o ==> c.owner in inWorld);
      called := RemovedFromWorld(o, Away() + {o});
    }

    /**
      The view of a camera is set to an object: it moves exactly if both are on the map and the
      object can be viewed.
     */
    method Look(c: Camera, obj: WorldObject)
      requires Closed() && c in cameras && obj in objects
      modifies this`active, objects, cameras
      ensures Closed() && Same(old(objects), old(cameras), old(inWorld)) && flagged == old(flagged)
      ensures c.source == if obj.viewable && old(c.owner in inWorld) && old(obj in inWorld) then obj else old(c.source)
      ensures forall d :: d in cameras && d != c ==> d.source == old(d.source)
      ensures forall o :: o in objects ==> o.grid == old(o.grid)
    {
      c.SetView(this, obj, Away());
    }

    method Register(o: WorldObject)
      requires Closed() && o in Away()
      modifies this`active, this`inWorld
      ensures Closed() && inWorld == old(inWorld) + {o}
    {
      inWorld := inWorld + {o};
      if !o.isPlayer && IsActiveObject(o) { AddToActive(o); }
    }

    /** Puts an object on the map. */
    method Add(o: WorldObject, grid: GridId) returns (called: seq<Camera>)
      requires Closed() && o in Away()
      modifies this`active, this`inWorld, objects, cameras
      ensures Closed() && Same(old(objects), old(cameras), old(inWorld) + {o}) && flagged == old(flagged)
      ensures called == old(o.cameras) && o.grid == Some(grid)
      ensures forall c :: c in cameras ==> c.source == old(c.source)
    {
      hide Closed;
      Register(o);
      called := EnterGrid(o, grid, false);
    }

    method Unregister(o: WorldObject)
      requires Closed() && o in inWorld
      modifies this`active
      ensures Leaving(o)
    {
      if !o.isPlayer && IsActiveObject(o) { RemoveFromActive(o); }
    }

    /** Nobody views the object any more but its own player. */
    method Depart(o: WorldObject)
      requires Leaving(o) && o.grid == None && forall c :: c in cameras && c.source == o ==> c.owner == o
      requires forall c :: c in cameras && c.owner == o ==> c.source == o
      modifies this`inWorld
      ensures Closed() && inWorld == old(inWorld) - {o}
    {
      inWorld := inWorld - {o};
    }

    /** Takes anything but a player off the map. */
    method Remove(o: WorldObject) returns (called: seq<Camera>)
      requires Closed() && o in inWorld && !o.isPlayer
      modifies this`active, this`inWorld, objects, cameras
      ensures Closed() && Same(old(objects), old(cameras), old(inWorld) - {o}) && flagged == old(flagged)
      ensures called == old(o.cameras)
      ensures forall c :: c in cameras ==> c.source == if old(c.source) == o then c.owner else old(c.source)
    {
      assert forall c :: c in cameras ==> (c in o.cameras <==> c.source == o) && c.owner != o;
      Unregister(o);
      hide Closed, Leaving;
      called := Vacate(o);
      Depart(o);
    }

    /** Takes a player off the map, whose own camera goes home first. */
    method RemovePlayer(c: Camera) returns (called: seq<Camera>)
      requires Closed() && c in cameras && c.owner in inWorld
      modifies this`active, this`inWorld, objects, cameras
      ensures Closed() && Same(old(objects), old(cameras), old(inWorld) - {c.owner}) && flagged == old(flagged)
      ensures forall d :: d in cameras ==>
                d.source == if d == c || old(d.source) == c.owner then d.owner else old(d.source)
    {
      SendHome(c);
      hide Closed, Leaving;
      called := Vacate(c.owner);
      Depart(c.owner);
    }

    method SendHome(c: Camera)
      requires Closed() && c in cameras && c.owner in inWorld
      modifies this`active, objects, cameras
      ensures Leaving(c.owner) && Same(old(objects), old(cameras), old(inWorld)) && flagged == old(flagged)
      ensures forall d :: d in cameras ==> d.source == if d == c then d.owner else old(d.source)
      ensures forall d :: d in cameras ==> (d in c.owner.cameras <==> d.source == c.owner)
      ensures forall d :: d in cameras && d.owner == c.owner ==> d == c
    {
      assert c.owner in objects && c.owner.viewable;
      Look(c, c.owner);
      Unregister(c.owner);
    }

    /** Makes an object active for its own sake, or not; on the map it leaves and comes back. */
    method SetActiveObjectState(o: WorldObject, on: bool, grid: GridId)
      requires Closed() && o in objects && !o.isPlayer
      modifies this`active, this`inWorld, this`flagged, objects, cameras
      ensures Closed() && Same(old(objects), old(cameras), old(inWorld))
      ensures flagged == if on then old(flagged) + {o} else old(flagged) - {o}
    {
      if on == (o in flagged) { return; }
      var world := o in inWorld;
      if world { var _ := Remove(o); }
      Flag(o, on);
      if world { var _ := Add(o, grid); }
    }

    method Flag(o: WorldObject, on: bool)
      requires Closed() && o in Away() && !o.isPlayer
      modifies this`flagged
      ensures Closed() && flagged == if on then old(flagged) + {o} else old(flagged) - {o}
    {
      flagged := if on then flagged + {o} else flagged - {o};
    }

    /** Something new that nobody views is no matter to anyone. */
    method Introduce(o: WorldObject, flag: bool)
      requires Closed() && o !in objects && o.cameras == [] && o.grid == None && (o.isPlayer ==> flag && o.viewable)
      requires o !in active && o !in inWorld && o !in flagged
      modifies this`objects, this`flagged
      ensures Closed() && objects == old(objects) + {o} && flagged == if flag then old(flagged) + {o} else old(flagged)
    {
      objects := objects + {o};
      if flag { flagged := flagged + {o}; }
    }

    /** A new object, not on the map yet. */
    method Create(viewable: bool, flag: bool) returns (o: WorldObject)
      requires Closed()
      modifies this`objects, this`flagged
      ensures Closed() && fresh(o) && objects == old(objects) + {o} && !o.isPlayer
    {
      o := new WorldObject(false, viewable);
      Introduce(o, flag);
    }

    /** A player logs in, with his camera on himself. */
    method Login() returns (c: Camera)
      requires Closed()
      modifies this`objects, this`flagged, this`cameras
      ensures Closed() && fresh(c) && fresh(c.owner) && objects == old(objects) + {c.owner} &&
              cameras == old(cameras) + {c}
    {
      var o := new WorldObject(true, true);
      assert forall d :: d in cameras ==> d.owner != o;
      Introduce(o, true);
      hide Closed;
      c := GiveCamera(o);
    }

    method GiveCamera(o: WorldObject) returns (c: Camera)
      requires Closed() && o in Away() && o.isPlayer && forall d :: d in cameras ==> d.owner != o
      modifies this`cameras, o`cameras
      ensures Closed() && fresh(c) && c.owner == o && cameras == old(cameras) + {c}
    {
      hide Distinct;
      c := new Camera(this, o);
    }

    /** A player who is not on the map logs out; his camera is on himself, as its end demands. */
    method Logout(c: Camera)
      requires Closed() && c in cameras && c.owner in Away()
      modifies this`objects, this`cameras, c.owner`cameras
      ensures Closed() && objects == old(objects) - {c.owner} && cameras == old(cameras) - {c}
    {
      assert c.source == c.owner;
      assert forall d :: d in cameras && d != c ==> d.owner != c.owner && d.source != c.owner;
      hide Distinct, Without;
      Forget(c);
      c.owner.Detach(c);
    }

    method Forget(c: Camera)
      requires Closed() && c in cameras && c.owner in Away() && c.source == c.owner
      requires forall d :: d in cameras && d != c ==> d.owner != c.owner && d.source != c.owner
      modifies this`objects, this`cameras
      ensures Closed() && objects == old(objects) - {c.owner} && cameras == old(cameras) - {c}
    {
      hide Distinct;
      objects, cameras := objects - {c.owner}, cameras - {c};
      assert Listed();
      assert InStepBut(Away());
    }

    /** One thing that happens on the map; one that cannot happen is passed over. */
    method Handle(e: MapEvent)
      requires Closed()
      modifies this, objects, cameras
      ensures Closed() && fresh(objects - old(objects)) && fresh(cameras - old(cameras))
      ensures e.Creates? ==> objects > old(objects)
      ensures e.LogsIn? ==> cameras > old(cameras)
      ensures e.LogsOut? && old(e.c in cameras && e.c.owner !in inWorld) ==> e.c !in cameras
      ensures e.Appears? && old(e.o in objects) ==> e.o in inWorld
      ensures e.Disappears? && !e.o.isPlayer ==> e.o !in inWorld
      ensures e.Leaves? && old(e.c in cameras) ==> e.c.owner !in inWorld
      ensures e.Moves? && old(e.o in inWorld) ==> e.o.grid == Some(e.grid)
      ensures e.Looks? && old(e.c in cameras && e.c.owner in inWorld && e.o in inWorld) && e.o.viewable ==>
                e.c.source == e.o
      ensures e.Hides? && old(e.o in objects) ==>
                forall c :: c in cameras && c in e.hidden && c.owner in inWorld && old(c in e.o.cameras) ==>
                  c.source == c.owner
      ensures e.Flags? && old(e.o in objects) && !e.o.isPlayer ==> (e.o in flagged <==> e.on)
    {
      match e
      case Creates(viewable, flag) => var _ := Create(viewable, flag);
      case LogsIn => var _ := Login();
      case LogsOut(c) => if c in cameras && c.owner !in inWorld { Logout(c); }
      case Appears(o, grid) => if o in objects && o !in inWorld { var _ := Add(o, grid); }
      case Disappears(o) => if o in inWorld && !o.isPlayer { var _ := Remove(o); }
      case Leaves(c) => if c in cameras && c.owner in inWorld { var _ := RemovePlayer(c); }
      case Moves(o, grid) => if o in inWorld { var _ := EnterGrid(o, grid, true); }
      case Looks(c, o) => if c in cameras && o in objects { Look(c, o); }
      case Hides(o, hidden) => if o in objects { var _ := VisibilityChanged(o, hidden); }
      case Flags(o, on, grid) => if o in objects && !o.isPlayer { SetActiveObjectState(o, on, grid); }
    }

    /** Whatever happens, of n things that may concern all that is there by then. */
    method Run(n: nat)
      requires Closed()
      modifies this, objects, cameras
      ensures Closed()
    {
      for i := 0 to n
        invariant Closed() && fresh(objects - old(objects)) && fresh(cameras - old(cameras))
      {
        var e: MapEvent :| true;
        Handle(e);
      }
    }
  }

  datatype MapEvent = Creates(viewable: bool, flag: bool) | LogsIn | LogsOut(c: Camera)
                    | Appears(o: WorldObject, grid: GridId) | Disappears(o: WorldObject) | Leaves(c: Camera)
                    | Moves(o: WorldObject, grid: GridId) | Looks(c: Camera, o: WorldObject)
                    | Hides(o: WorldObject, hidden: set<Camera>) | Flags(o: WorldObject, on: bool, grid: GridId)
}
