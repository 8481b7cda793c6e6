/**
  The condition table: boolean formulas stored one node per row, rows referring to
  each other by entry number.
 */
module Conditions {
  import opened Basics

  type Id = nat

  datatype Kind = PlayerKind | CreatureKind | GameObjectKind | OtherKind
  datatype Obj = Obj(guid: nat, kind: Kind)
  {
    predicate IsUnit() { kind.PlayerKind? || kind.CreatureKind? }
  }

  /** The parameters of one call. The map is identified by a number. */
  datatype Params = Params(target: Option<Obj>, map_: Option<nat>, source: Option<Obj>)
  {
    function Swapped(swap: bool): Params {
      if swap then Params(source, map_, target) else this
    }
  }

  /**
    The types the evaluator treats specially; every other type is a leaf. Event targets and
    object-fits-condition refer to another row, for objects found elsewhere.
   */
  datatype Type = Not | Or | And | None_ | MapEventTargets | ObjectFits | Leaf(code: nat)

  datatype Entry = Entry(type_: Type, v1: Int32, v2: Int32, v3: Int32, v4: Int32, reverse: bool, swap: bool)

  type Table = map<Id, Entry>

  datatype Requirement =
    | ReqNone
    | TargetWorldObject | TargetGameObject | TargetUnit | TargetCreature | TargetPlayer
    | SourceWorldObject | SourceGameObject | SourceUnit | SourceCreature | SourcePlayer
    | AnyWorldObject | MapOrWorldObject
    | BothWorldObjects | BothGameObjects | BothUnits | BothPlayers

  predicate Is(o: Option<Obj>, k: Kind) { o.Some? && o.value.kind == k }
  predicate Unit(o: Option<Obj>) { o.Some? && o.value.IsUnit() }

  predicate Provided(r: Requirement, p: Params) {
    match r
    case ReqNone => true
    case TargetWorldObject => p.target.Some?
    case TargetGameObject => Is(p.target, GameObjectKind)
    case TargetUnit => Unit(p.target)
    case TargetCreature => Is(p.target, CreatureKind)
    case TargetPlayer => Is(p.target, PlayerKind)
    case SourceWorldObject => p.source.Some?
    case SourceGameObject => Is(p.source, GameObjectKind)
    case SourceUnit => Unit(p.source)
    case SourceCreature => Is(p.source, CreatureKind)
    case SourcePlayer => Is(p.source, PlayerKind)
    case AnyWorldObject => p.source.Some? || p.target.Some?
    case MapOrWorldObject => p.map_.Some? || p.source.Some? || p.target.Some?
    case BothWorldObjects => p.source.Some? && p.target.Some?
    case BothGameObjects => Is(p.source, GameObjectKind) && Is(p.target, GameObjectKind)
    case BothUnits => Unit(p.source) && Unit(p.target)
    case BothPlayers => Is(p.source, PlayerKind) && Is(p.target, PlayerKind)
  }

  /** What is asked of the source instead of the target, and the other way round. */
  function Mirrored(r: Requirement): Requirement {
    match r
    case TargetWorldObject => SourceWorldObject
    case TargetGameObject => SourceGameObject
    case TargetUnit => SourceUnit
    case TargetCreature => SourceCreature
    case TargetPlayer => SourcePlayer
    case SourceWorldObject => TargetWorldObject
    case SourceGameObject => TargetGameObject
    case SourceUnit => TargetUnit
    case SourceCreature => TargetCreature
    case SourcePlayer => TargetPlayer
    case _ => r
  }

  /** A target meets the requirements for objects of its own kind, for units if it is one, and for objects at all. */
  lemma ProvidedTargets(o: Obj, p: Params)
    requires p.target == Some(o)
    ensures Provided(TargetWorldObject, p)
    ensures Provided(TargetGameObject, p) <==> o.kind == GameObjectKind
    ensures Provided(TargetUnit, p) <==> o.kind == CreatureKind || o.kind == PlayerKind
    ensures Provided(TargetCreature, p) <==> o.kind == CreatureKind
    ensures Provided(TargetPlayer, p) <==> o.kind == PlayerKind
  {
  }

  /** The other requirements follow from those of the target. */
  lemma ProvidedOthers(p: Params)
    ensures Provided(ReqNone, p)
    ensures forall r :: Provided(Mirrored(r), p) <==> Provided(r, p.Swapped(true))
    ensures p.target == None ==> !Provided(TargetWorldObject, p) && !Provided(TargetGameObject, p) &&
                                 !Provided(TargetUnit, p) && !Provided(TargetCreature, p) && !Provided(TargetPlayer, p)
    ensures Provided(BothWorldObjects, p) <==> Provided(TargetWorldObject, p) && Provided(SourceWorldObject, p)
    ensures Provided(BothGameObjects, p) <==> Provided(TargetGameObject, p) && Provided(SourceGameObject, p)
    ensures Provided(BothUnits, p) <==> Provided(TargetUnit, p) && Provided(SourceUnit, p)
    ensures Provided(BothPlayers, p) <==> Provided(TargetPlayer, p) && Provided(SourcePlayer, p)
    ensures Provided(AnyWorldObject, p) <==> Provided(TargetWorldObject, p) || Provided(SourceWorldObject, p)
    ensures Provided(MapOrWorldObject, p) <==> Provided(AnyWorldObject, p) || p.map_.Some?
  {
  }

  /** What a leaf row tests. */
  datatype LeafTest = LeafTest(code: nat, v1: Int32, v2: Int32, v3: Int32, v4: Int32)

  function TestOf(e: Entry): LeafTest
    requires e.type_.Leaf?
  {
    LeafTest(e.type_.code, e.v1, e.v2, e.v3, e.v4)
  }

  /**
    The world a condition looks at: what each leaf tests, what parameters each leaf
    type needs, which objects a map event tracks, and which gameobject a guid stands for.
   */
  datatype World = World(
    test: (LeafTest, Params) -> bool,
    needs: nat -> Requirement,
    eventTargets: (int, Params) -> seq<Option<Obj>>,
    gameobject: (int, Params) -> Option<Obj>)

  function Needs(w: World, e: Entry): Requirement {
    match e.type_
    case Leaf(code) => w.needs(code)
    case MapEventTargets => MapOrWorldObject
    case ObjectFits => MapOrWorldObject
    case _ => ReqNone
  }

  /** Row numbers are looked up as 32-bit unsigned values. */
  function Ref(v: Int32): (i: Id)
    ensures i < UINT32_RANGE && (i - v) % UINT32_RANGE == 0
  {
    if v < 0 then v + UINT32_RANGE else v
  }

  predicate Requires(e: Entry, c: Id) {
    match e.type_
    case Not => c == Ref(e.v1)
    case Or => c == Ref(e.v1) || c == Ref(e.v2)
    case And => c == Ref(e.v1) || c == Ref(e.v2)
    case _ => false
  }

  predicate OptionallyTakes(e: Entry, c: Id) {
    (e.type_.Or? || e.type_.And?) && ((e.v3 != 0 && c == Ref(e.v3)) || (e.v4 != 0 && c == Ref(e.v4)))
  }

  /** Row e combines the value of row c. */
  predicate Combines(e: Entry, c: Id) { Requires(e, c) || OptionallyTakes(e, c) }

  /** Row e applies row c to other objects. */
  predicate Delegates(e: Entry, c: Id) { (e.type_.MapEventTargets? || e.type_.ObjectFits?) && c == Ref(e.v2) }

  // ---- Which rows can be evaluated -----------------------------------------------------------------

  predicate Refers(t: Table, i: Id, c: Id) { i in t && (Combines(t[i], c) || Delegates(t[i], c)) }

  /** A chain of rows, each referring to the next. */
  ghost predicate IsPath(t: Table, s: seq<Id>) {
    forall k :: 0 <= k < |s| - 1 ==> Refers(t, s[k], s[k + 1])
  }

  /** Evaluating row i may lead to row j, at once or through others. */
  ghost predicate Leads(t: Table, i: Id, j: Id) {
    exists s :: |s| >= 2 && IsPath(t, s) && s[0] == i && s[|s| - 1] == j
  }

  /** The row is there, and so is every row it leads to; none of them leads back to itself. */
  ghost predicate Grounded(t: Table, i: Id) {
    && i in t && !Leads(t, i, i)
    && forall j :: Leads(t, i, j) ==> j in t && !Leads(t, j, j)
  }

  /** How many rows a row leads to. */
  ghost function Height(t: Table, i: Id): nat { |set j | j in t && Leads(t, i, j)| }

  lemma LeadsFirst(t: Table, i: Id, c: Id)
    requires Refers(t, i, c)
    ensures Leads(t, i, c)
    ensures forall j :: Leads(t, c, j) ==> Leads(t, i, j)
  {
    assert IsPath(t, [i, c]) && [i, c][0] == i && [i, c][1] == c;
    forall j | Leads(t, c, j) ensures Leads(t, i, j) {
      var s :| |s| >= 2 && IsPath(t, s) && s[0] == c && s[|s| - 1] == j;
      assert IsPath(t, [i] + s) && ([i] + s)[0] == i && ([i] + s)[|s|] == j;
    }
  }

  /** A reference of a grounded row is grounded, and leads to fewer rows. */
  lemma GroundedStep(t: Table, i: Id, c: Id)
    requires Grounded(t, i) && Refers(t, i, c)
    ensures Grounded(t, c) && Height(t, c) < Height(t, i)
  {
    LeadsFirst(t, i, c);
    var below, here := set j | j in t && Leads(t, c, j), set j | j in t && Leads(t, i, j);
    assert below <= here && c in here && c !in below;
    SubsetSize(below, here - {c});
  }

  lemma RefsAreGrounded(t: Table, i: Id)
    requires Grounded(t, i)
    ensures forall c: Id {:trigger Combines(t[i], c)} :: Combines(t[i], c) ==>
              Grounded(t, c) && Height(t, c) < Height(t, i)
    ensures forall c: Id {:trigger Delegates(t[i], c)} :: Delegates(t[i], c) ==>
              Grounded(t, c) && Height(t, c) < Height(t, i)
  {
    forall c: Id | Combines(t[i], c) || Delegates(t[i], c)
      ensures Grounded(t, c) && Height(t, c) < Height(t, i)
    {
      GroundedStep(t, i, c);
    }
  }

  /** A ranking of all rows that falls along every reference. */
  ghost predicate Falls(t: Table, rank: map<Id, nat>) {
    && rank.Keys == t.Keys
    && forall i, c :: Refers(t, i, c) ==> c in t && rank[c] < rank[i]
  }

  lemma {:induction false} PathFalls(t: Table, rank: map<Id, nat>, s: seq<Id>)
    requires Falls(t, rank) && |s| >= 2 && IsPath(t, s)
    ensures s[0] in t && s[|s| - 1] in t && rank[s[|s| - 1]] < rank[s[0]]
  {
    assert Refers(t, s[0], s[1]);
    if |s| > 2 { PathFalls(t, rank, s[1..]); }
  }

  /** No reference dangles and none closes a cycle, exactly if all rows can be ranked. */
  lemma GroundedIffRanked(t: Table)
    ensures (forall i :: i in t ==> Grounded(t, i)) <==> exists rank :: Falls(t, rank)
  {
    if rank :| Falls(t, rank) {
      forall i, j | Leads(t, i, j) ensures j in t && i != j {
        var s :| |s| >= 2 && IsPath(t, s) && s[0] == i && s[|s| - 1] == j;
        PathFalls(t, rank, s);
      }
    }
    if forall i :: i in t ==> Grounded(t, i) {
      var rank := map i | i in t :: Height(t, i);
      forall i, c | Refers(t, i, c) ensures c in t && rank[c] < rank[i] {
        GroundedStep(t, i, c);
      }
      assert Falls(t, rank);
    }
  }

  /** Rows that refer to nothing but what they lead to in another table lead to nothing else. */
  lemma {:induction false} PathLeads(t: Table, t': Table, s: seq<Id>)
    requires |s| >= 2 && IsPath(t', s) && Grounded(t, s[0])
    requires forall j, c :: Grounded(t, j) && Refers(t', j, c) ==> Leads(t, j, c)
    ensures Leads(t, s[0], s[|s| - 1])
  {
    assert Refers(t', s[0], s[1]);
    if |s| > 2 {
      LeadsIsGrounded(t, s[0], s[1]);
      PathLeads(t, t', s[1..]);
      LeadsOn(t, s[0], s[1], s[|s| - 1]);
    }
  }

  lemma LeadsOn(t: Table, i: Id, j: Id, k: Id)
    requires Leads(t, i, j) && Leads(t, j, k)
    ensures Leads(t, i, k)
  {
    var a :| |a| >= 2 && IsPath(t, a) && a[0] == i && a[|a| - 1] == j;
    var b :| |b| >= 2 && IsPath(t, b) && b[0] == j && b[|b| - 1] == k;
    var s := a + b[1..];
    forall n | 0 <= n < |s| - 1 ensures Refers(t, s[n], s[n + 1]) {
      if n >= |a| - 1 { assert s[n] == b[n - |a| + 1] && s[n + 1] == b[n - |a| + 2]; }
    }
    assert IsPath(t, s) && s[0] == i && s[|s| - 1] == k;
  }

  lemma LeadsIsGrounded(t: Table, i: Id, j: Id)
    requires Grounded(t, i) && Leads(t, i, j)
    ensures Grounded(t, j)
  {
    forall k | Leads(t, j, k) ensures Leads(t, i, k) {
      LeadsOn(t, i, j, k);
    }
  }

  /** So a grounded row stays grounded. */
  lemma StaysGrounded(t: Table, t': Table, i: Id)
    requires t'.Keys == t.Keys && Grounded(t, i)
    requires forall j, c :: Grounded(t, j) && Refers(t', j, c) ==> Leads(t, j, c)
    ensures Grounded(t', i)
  {
    forall j, k | Grounded(t, j) && Leads(t', j, k) ensures Leads(t, j, k) {
      var s :| |s| >= 2 && IsPath(t', s) && s[0] == j && s[|s| - 1] == k;
      PathLeads(t, t', s);
    }
    forall j | Leads(t', i, j) ensures j in t' && !Leads(t', j, j) {
      LeadsIsGrounded(t, i, j);
    }
  }

  // ---- Evaluation, in the program's order ------------------------------------------------------

  predicate Meets(t: Table, w: World, i: Id, p: Params)
    requires Grounded(t, i)
    decreases Height(t, i), 2, 0
  {
    var e := t[i];
    var q := p.Swapped(e.swap);
    Provided(Needs(w, e), q) && (Evaluate(t, w, i, q) != e.reverse)
  }

  predicate Evaluate(t: Table, w: World, i: Id, p: Params)
    requires Grounded(t, i)
    decreases Height(t, i), 1, 0
  {
    RefsAreGrounded(t, i);
    var e := t[i];
    match e.type_
    case Not =>
      assert Combines(t[i], Ref(e.v1));
      !Meets(t, w, Ref(e.v1), p)
    case Or =>
      assert Combines(t[i], Ref(e.v1)) && Combines(t[i], Ref(e.v2));
      assert e.v3 != 0 ==> Combines(t[i], Ref(e.v3));
      assert e.v4 != 0 ==> Combines(t[i], Ref(e.v4));
      if e.v3 != 0 && Meets(t, w, Ref(e.v3), p) then true
      else if e.v4 != 0 && Meets(t, w, Ref(e.v4), p) then true
      else Meets(t, w, Ref(e.v1), p) || Meets(t, w, Ref(e.v2), p)
    case And =>
      assert Combines(t[i], Ref(e.v1)) && Combines(t[i], Ref(e.v2));
      assert e.v3 != 0 ==> Combines(t[i], Ref(e.v3));
      assert e.v4 != 0 ==> Combines(t[i], Ref(e.v4));
      var extra := if e.v3 != 0 then Meets(t, w, Ref(e.v3), p) else true;
      var extra' := if e.v4 != 0 then extra && Meets(t, w, Ref(e.v4), p) else extra;
      extra' && Meets(t, w, Ref(e.v1), p) && Meets(t, w, Ref(e.v2), p)
    case None_ => true
    case MapEventTargets =>
      assert Delegates(t[i], Ref(e.v2));
      AllTargetsMeet(t, w, i, Ref(e.v2), w.eventTargets(e.v1, p), p)
    case ObjectFits =>
      assert Delegates(t[i], Ref(e.v2));
      var o := w.gameobject(e.v1, p);
      o.Some? && Meets(t, w, Ref(e.v2), p.(target := o))
    case Leaf(_) => w.test(TestOf(e), p)
  }

  /** The loop over the extra targets of a map event; targets that are gone are skipped. */
  predicate AllTargetsMeet(t: Table, w: World, i: Id, c: Id, targets: seq<Option<Obj>>, p: Params)
    requires Grounded(t, c) && Height(t, c) < Height(t, i)
    decreases Height(t, i), 0, |targets|
  {
    if targets == [] then true
    else if targets[0].Some? && !Meets(t, w, c, p.(target := targets[0])) then false
    else AllTargetsMeet(t, w, i, c, targets[1..], p)
  }

  /** A row that finds other objects is never met without a place to look in; one that combines has all it needs. */
  lemma PlaceIsNeeded(t: Table, w: World, i: Id, p: Params)
    requires Grounded(t, i)
    ensures t[i].type_.MapEventTargets? || t[i].type_.ObjectFits? ==>
              (Provided(Needs(w, t[i]), p) <==> p.map_.Some? || p.source.Some? || p.target.Some?)
    ensures t[i].type_.MapEventTargets? || t[i].type_.ObjectFits? ==> !Meets(t, w, i, Params(None, None, None))
    ensures t[i].type_.Not? || t[i].type_.Or? || t[i].type_.And? || t[i].type_.None_? ==> Provided(Needs(w, t[i]), p)
  {
  }

  // ---- Meaning ------------------------------------------------------------------------------------

  /**
    What a row means for the parameters of the root call: odd tells whether an odd number of
    swaps lies on the path from the root. What a row combines is a set, without any order.
   */
  ghost predicate Holds(t: Table, w: World, i: Id, odd: bool, root: Params)
    requires Grounded(t, i)
    decreases Height(t, i)
  {
    RefsAreGrounded(t, i);
    var e := t[i];
    var odd' := odd != e.swap;
    var seen := root.Swapped(odd');
    Provided(Needs(w, e), seen) &&
    (e.reverse !=
     match e.type_
     case Not => !(forall c: Id :: Combines(t[i], c) ==> Holds(t, w, c, odd', root))
     case Or => exists c: Id :: Combines(t[i], c) && Holds(t, w, c, odd', root)
     case And => forall c: Id :: Combines(t[i], c) ==> Holds(t, w, c, odd', root)
     case None_ => true
     case MapEventTargets =>
       forall c: Id, o :: Delegates(t[i], c) && o in w.eventTargets(e.v1, seen) && o.Some? ==>
         Holds(t, w, c, false, seen.(target := o))
     case ObjectFits =>
       var o := w.gameobject(e.v1, seen);
       o.Some? && forall c: Id :: Delegates(t[i], c) ==> Holds(t, w, c, false, seen.(target := o))
     case Leaf(_) => w.test(TestOf(e), seen))
  }

  lemma SwapTwice(p: Params, a: bool, b: bool)
    ensures p.Swapped(a).Swapped(b) == p.Swapped(a != b)
  {
  }

  /** Neither the order of evaluation nor which optional operands are given matters. */
  lemma OrIsSetwise(t: Table, w: World, i: Id, p: Params)
    requires Grounded(t, i) && t[i].type_.Or?
    ensures Evaluate(t, w, i, p) <==> exists c: Id :: Combines(t[i], c) && Grounded(t, c) && Meets(t, w, c, p)
  {
    RefsAreGrounded(t, i);
    var e := t[i];
    assert Combines(t[i], Ref(e.v1)) && Combines(t[i], Ref(e.v2));
    assert e.v3 != 0 ==> Combines(t[i], Ref(e.v3));
    assert e.v4 != 0 ==> Combines(t[i], Ref(e.v4));
    var c := if e.v3 != 0 && Meets(t, w, Ref(e.v3), p) then Ref(e.v3)
             else if e.v4 != 0 && Meets(t, w, Ref(e.v4), p) then Ref(e.v4)
             else if Meets(t, w, Ref(e.v1), p) then Ref(e.v1) else Ref(e.v2);
    assert Combines(t[i], c);
    assert Evaluate(t, w, i, p) == Meets(t, w, c, p);
  }

  lemma AndIsSetwise(t: Table, w: World, i: Id, p: Params)
    requires Grounded(t, i) && t[i].type_.And?
    ensures Evaluate(t, w, i, p) <==> forall c: Id :: Combines(t[i], c) ==> Grounded(t, c) && Meets(t, w, c, p)
  {
    RefsAreGrounded(t, i);
    var e := t[i];
    assert Combines(t[i], Ref(e.v1)) && Combines(t[i], Ref(e.v2));
    assert e.v3 != 0 ==> Combines(t[i], Ref(e.v3));
    assert e.v4 != 0 ==> Combines(t[i], Ref(e.v4));
    var c := if e.v3 != 0 && !Meets(t, w, Ref(e.v3), p) then Ref(e.v3)
             else if e.v4 != 0 && !Meets(t, w, Ref(e.v4), p) then Ref(e.v4)
             else if !Meets(t, w, Ref(e.v1), p) then Ref(e.v1) else Ref(e.v2);
    assert Combines(t[i], c);
    assert Evaluate(t, w, i, p) == Meets(t, w, c, p);
  }

  lemma EventTargetsSetwise(t: Table, w: World, i: Id, p: Params)
    requires Grounded(t, i) && t[i].type_.MapEventTargets?
    ensures Grounded(t, Ref(t[i].v2))
    ensures Evaluate(t, w, i, p) <==>
            forall o :: o in w.eventTargets(t[i].v1, p) && o.Some? ==> Meets(t, w, Ref(t[i].v2), p.(target := o))
  {
    RefsAreGrounded(t, i);
    assert Delegates(t[i], Ref(t[i].v2));
    AllTargetsMeetIff(t, w, i, Ref(t[i].v2), w.eventTargets(t[i].v1, p), p);
  }

  /** The evaluator computes the meaning, for every table, row, world and call. */
  lemma {:induction false} MeetsIsHolds(t: Table, w: World, i: Id, odd: bool, root: Params)
    requires Grounded(t, i)
    ensures Meets(t, w, i, root.Swapped(odd)) <==> Holds(t, w, i, odd, root)
    decreases Height(t, i)
  {
    RefsAreGrounded(t, i);
    var e := t[i];
    var odd' := odd != e.swap;
    var seen := root.Swapped(odd');
    SwapTwice(root, odd, e.swap);
    forall c: Id | Combines(t[i], c)
      ensures Meets(t, w, c, seen) <==> Holds(t, w, c, odd', root)
    {
      MeetsIsHolds(t, w, c, odd', root);
    }
    forall c: Id, q: Params | Delegates(t[i], c)
      ensures Meets(t, w, c, q) <==> Holds(t, w, c, false, q)
    {
      MeetsIsHolds(t, w, c, false, q);
    }
    match e.type_ {
      case Or => OrIsSetwise(t, w, i, seen);
      case And => AndIsSetwise(t, w, i, seen);
      case Not => assert Combines(t[i], Ref(e.v1));
      case MapEventTargets => assert Delegates(t[i], Ref(e.v2)); EventTargetsSetwise(t, w, i, seen);
      case ObjectFits => assert Delegates(t[i], Ref(e.v2));
      case _ =>
    }
  }

  lemma {:induction false} AllTargetsMeetIff(t: Table, w: World, i: Id, c: Id, targets: seq<Option<Obj>>, p: Params)
    requires Grounded(t, c) && Height(t, c) < Height(t, i)
    ensures AllTargetsMeet(t, w, i, c, targets, p) <==>
            forall o :: o in targets && o.Some? ==> Meets(t, w, c, p.(target := o))
    decreases |targets|
  {
    if targets != [] {
      AllTargetsMeetIff(t, w, i, c, targets[1..], p);
      assert targets == [targets[0]] + targets[1..];
    }
  }

  // ---- Changing a table without changing what it means ---------------------------------------------

  /** p leads to q when row e hands q to the row it applies to other objects. */
  ghost predicate AppliesTo(w: World, e: Entry, p: Params, q: Params) {
    || (e.type_.MapEventTargets? && q.target.Some? && q.target in w.eventTargets(e.v1, p) &&
        q == p.(target := q.target))
    || (e.type_.ObjectFits? && q.target.Some? && q.target == w.gameobject(e.v1, p) && q == p.(target := q.target))
  }

  /** No row consulted in this call lacks its parameters. */
  ghost predicate Complete(t: Table, w: World, i: Id, p: Params)
    requires Grounded(t, i)
    decreases Height(t, i)
  {
    RefsAreGrounded(t, i);
    var e := t[i];
    var q := p.Swapped(e.swap);
    && Provided(Needs(w, e), q)
    && (forall c: Id :: Combines(t[i], c) ==> Complete(t, w, c, q))
    && (forall c: Id, r :: Delegates(t[i], c) && AppliesTo(w, e, q, r) ==> Complete(t, w, c, r))
  }

  predicate SameBody(a: Entry, b: Entry) {
    a == b.(reverse := a.reverse, swap := a.swap)
  }

  /** Row c means the same in both tables, for these parameters. */
  ghost predicate Agree(t: Table, t': Table, w: World, c: Id, p: Params) {
    Grounded(t, c) && Grounded(t', c) && Meets(t, w, c, p) == Meets(t', w, c, p)
  }

  /** Rows with the same body evaluate alike in tables that agree on what the body refers to. */
  lemma EvaluateAgrees(t: Table, t': Table, w: World, i: Id, i': Id, p: Params)
    requires Grounded(t, i) && Grounded(t', i') && SameBody(t[i], t'[i'])
    requires forall c: Id :: Combines(t[i], c) ==> Agree(t, t', w, c, p)
    requires forall c: Id, q :: Delegates(t[i], c) && AppliesTo(w, t[i], p, q) ==> Agree(t, t', w, c, q)
    ensures Evaluate(t, w, i, p) == Evaluate(t', w, i', p)
  {
    match t[i].type_ {
      case Or => OrAgrees(t, t', w, i, i', p);
      case And => AndAgrees(t, t', w, i, i', p);
      case Not => assert Combines(t[i], Ref(t[i].v1)) && Combines(t'[i'], Ref(t[i].v1));
      case MapEventTargets => EventTargetsAgree(t, t', w, i, i', p);
      case ObjectFits => ObjectFitsAgrees(t, t', w, i, i', p);
      case _ =>
    }
  }

  lemma OrAgrees(t: Table, t': Table, w: World, i: Id, i': Id, p: Params)
    requires Grounded(t, i) && Grounded(t', i') && SameBody(t[i], t'[i']) && t[i].type_.Or?
    requires forall c: Id :: Combines(t[i], c) ==> Agree(t, t', w, c, p)
    ensures Evaluate(t, w, i, p) == Evaluate(t', w, i', p)
  {
    OrIsSetwise(t, w, i, p);
    OrIsSetwise(t', w, i', p);
    assert forall c: Id :: Combines(t[i], c) <==> Combines(t'[i'], c);
    hide Evaluate, Grounded, Meets, Combines;
    if c: Id :| Combines(t[i], c) && Meets(t, w, c, p) { assert Combines(t'[i'], c) && Agree(t, t', w, c, p); }
    if c: Id :| Combines(t'[i'], c) && Meets(t', w, c, p) { assert Combines(t[i], c) && Agree(t, t', w, c, p); }
  }

  lemma AndAgrees(t: Table, t': Table, w: World, i: Id, i': Id, p: Params)
    requires Grounded(t, i) && Grounded(t', i') && SameBody(t[i], t'[i']) && t[i].type_.And?
    requires forall c: Id :: Combines(t[i], c) ==> Agree(t, t', w, c, p)
    ensures Evaluate(t, w, i, p) == Evaluate(t', w, i', p)
  {
    AndIsSetwise(t, w, i, p);
    AndIsSetwise(t', w, i', p);
    assert forall c: Id :: Combines(t[i], c) <==> Combines(t'[i'], c);
    hide Evaluate, Grounded, Meets, Combines;
    assert forall c: Id :: Combines(t[i], c) ==> Agree(t, t', w, c, p);
  }

  lemma EventTargetsAgree(t: Table, t': Table, w: World, i: Id, i': Id, p: Params)
    requires Grounded(t, i) && Grounded(t', i') && SameBody(t[i], t'[i'])
    requires t[i].type_.MapEventTargets?
    requires forall c: Id, q :: Delegates(t[i], c) && AppliesTo(w, t[i], p, q) ==> Agree(t, t', w, c, q)
    ensures Evaluate(t, w, i, p) == Evaluate(t', w, i', p)
  {
    var e := t[i];
    var c, os := Ref(e.v2), w.eventTargets(e.v1, p);
    assert Delegates(t[i], c) && Delegates(t'[i'], c);
    EventTargetsSetwise(t, w, i, p);
    EventTargetsSetwise(t', w, i', p);
    forall o | o in os && o.Some?
      ensures Meets(t, w, c, p.(target := o)) == Meets(t', w, c, p.(target := o))
    {
      assert AppliesTo(w, e, p, p.(target := o));
    }
  }

  lemma ObjectFitsAgrees(t: Table, t': Table, w: World, i: Id, i': Id, p: Params)
    requires Grounded(t, i) && Grounded(t', i') && SameBody(t[i], t'[i'])
    requires t[i].type_.ObjectFits?
    requires forall c: Id, q :: Delegates(t[i], c) && AppliesTo(w, t[i], p, q) ==> Agree(t, t', w, c, q)
    ensures Evaluate(t, w, i, p) == Evaluate(t', w, i', p)
  {
    var e := t[i];
    var o := w.gameobject(e.v1, p);
    assert Delegates(t[i], Ref(e.v2));
    assert o.Some? ==> AppliesTo(w, e, p, p.(target := o));
  }

  /** The row without NOT: the flags of the NOT row, plus one reversal, move to what it negates. */
  function WithoutNot(t: Table, i: Id): Entry
    requires Grounded(t, i)
    decreases Height(t, i)
  {
    RefsAreGrounded(t, i);
    var e := t[i];
    if e.type_.Not? then
      assert Combines(t[i], Ref(e.v1));
      var c := WithoutNot(t, Ref(e.v1));
      c.(swap := c.swap != e.swap, reverse := c.reverse != !e.reverse)
    else e
  }

  /** The table without NOT; rows that cannot be evaluated stay as they are. */
  ghost function Rewritten(t: Table): Table {
    map i | i in t :: if Grounded(t, i) then WithoutNot(t, i) else t[i]
  }

  lemma {:induction false} WithoutNotRefers(t: Table, i: Id, c: Id)
    requires Grounded(t, i)
    ensures !WithoutNot(t, i).type_.Not?
    ensures Combines(WithoutNot(t, i), c) || Delegates(WithoutNot(t, i), c) ==> Leads(t, i, c)
    decreases Height(t, i)
  {
    RefsAreGrounded(t, i);
    var e := t[i];
    if e.type_.Not? {
      assert Combines(t[i], Ref(e.v1));
      WithoutNotRefers(t, Ref(e.v1), c);
      LeadsFirst(t, i, Ref(e.v1));
    } else if Combines(e, c) || Delegates(e, c) {
      LeadsFirst(t, i, c);
    }
  }

  /** The rewritten table has no NOT rows left that can be evaluated, and those that can still can. */
  lemma RewrittenIsGrounded(t: Table, i: Id)
    requires Grounded(t, i)
    ensures Grounded(Rewritten(t), i) && !Rewritten(t)[i].type_.Not?
  {
    forall j, c | Grounded(t, j) && Refers(Rewritten(t), j, c) ensures Leads(t, j, c) {
      WithoutNotRefers(t, j, c);
    }
    WithoutNotRefers(t, i, i);
    StaysGrounded(t, Rewritten(t), i);
  }

  /** Every NOT row can be replaced by flags, in every call where no row lacks its parameters. */
  lemma {:induction false} RewritingPreservesMeets(t: Table, w: World, i: Id, p: Params)
    requires Grounded(t, i) && Complete(t, w, i, p)
    ensures Agree(Rewritten(t), t, w, i, p)
    ensures Complete(Rewritten(t), w, i, p)
    decreases Height(t, i)
  {
    var e, r := t[i], Rewritten(t);
    var q := p.Swapped(e.swap);
    RefsAreGrounded(t, i);
    RewrittenIsGrounded(t, i);
    forall c: Id | Combines(t[i], c)
      ensures Agree(r, t, w, c, q) && Complete(r, w, c, q)
    {
      RewritingPreservesMeets(t, w, c, q);
    }
    forall c: Id, x | Delegates(t[i], c) && AppliesTo(w, e, q, x)
      ensures Agree(r, t, w, c, x) && Complete(r, w, c, x)
    {
      RewritingPreservesMeets(t, w, c, x);
    }
    if e.type_.Not? {
      var k := Ref(e.v1);
      assert Combines(t[i], k);
      NegatedRow(r, w, i, k, e.swap, !e.reverse, p);
    } else {
      UnchangedRow(t, r, w, i, p);
    }
  }

  lemma UnchangedRow(t: Table, r: Table, w: World, i: Id, p: Params)
    requires Grounded(t, i) && Grounded(r, i) && t[i] == r[i] && Complete(t, w, i, p)
    requires var q := p.Swapped(t[i].swap);
             && (forall c: Id :: Combines(t[i], c) ==> Agree(r, t, w, c, q) && Complete(r, w, c, q))
             && (forall c: Id, x :: Delegates(t[i], c) && AppliesTo(w, t[i], q, x) ==>
                   Agree(r, t, w, c, x) && Complete(r, w, c, x))
    ensures Agree(r, t, w, i, p) && Complete(r, w, i, p)
  {
    EvaluateAgrees(r, t, w, i, i, p.Swapped(t[i].swap));
  }

  /** Two rows with the same body, the flags of one being those of the other xor-ed with (swap, flip). */
  lemma NegatedRow(r: Table, w: World, i: Id, k: Id, swap: bool, flip: bool, p: Params)
    requires Grounded(r, i) && Grounded(r, k)
    requires r[i] == r[k].(swap := r[k].swap != swap, reverse := r[k].reverse != flip)
    requires Complete(r, w, k, p.Swapped(swap))
    ensures Meets(r, w, i, p) == (Meets(r, w, k, p.Swapped(swap)) != flip)
    ensures Complete(r, w, i, p)
  {
    var q := p.Swapped(r[i].swap);
    SwapTwice(p, swap, r[k].swap);
    SameBodyEvaluates(r, w, i, k, q);
    SameBodyComplete(r, w, i, k, p, p.Swapped(swap));
  }

  lemma SameBodyEvaluates(r: Table, w: World, i: Id, k: Id, q: Params)
    requires Grounded(r, i) && Grounded(r, k) && SameBody(r[i], r[k])
    ensures Evaluate(r, w, i, q) == Evaluate(r, w, k, q)
  {
    RefsAreGrounded(r, i);
    EvaluateAgrees(r, r, w, i, k, q);
  }

  lemma SameBodyComplete(r: Table, w: World, i: Id, k: Id, p: Params, p': Params)
    requires Grounded(r, i) && Grounded(r, k) && SameBody(r[i], r[k])
    requires p.Swapped(r[i].swap) == p'.Swapped(r[k].swap) && Complete(r, w, k, p')
    ensures Complete(r, w, i, p)
  {
  }

  /** A condition that can never hold on this content patch is made constant in place. */
  function Disabled(e: Entry): Entry {
    e.(type_ := None_, reverse := !e.reverse)
  }

  /**
    Disabling row d makes the whole table behave as if the row's own test were one that never
    holds, in every call where no row lacks its parameters.
   */
  lemma {:induction false} DisabledIsNeverTrue(t: Table, w: World, d: Id, never: Entry, i: Id, p: Params)
    requires d in t && never.type_.Leaf? && never.reverse == t[d].reverse && never.swap == t[d].swap
    requires forall q :: !w.test(TestOf(never), q)
    requires Grounded(t[d := never], i) && Complete(t[d := never], w, i, p)
    ensures Agree(t[d := Disabled(t[d])], t[d := never], w, i, p)
    decreases Height(t[d := never], i)
  {
    var t1, t2 := t[d := Disabled(t[d])], t[d := never];
    RefsAreGrounded(t2, i);
    forall j, c | Refers(t1, j, c) ensures Leads(t2, j, c) {
      LeadsFirst(t2, j, c);
    }
    StaysGrounded(t2, t1, i);
    if i != d {
      var e := t[i];
      var q := p.Swapped(e.swap);
      forall c: Id | Combines(t2[i], c)
        ensures Agree(t1, t2, w, c, q)
      {
        DisabledIsNeverTrue(t, w, d, never, c, q);
      }
      forall c: Id, x | Delegates(t2[i], c) && AppliesTo(w, e, q, x)
        ensures Agree(t1, t2, w, c, x)
      {
        DisabledIsNeverTrue(t, w, d, never, c, x);
      }
      EvaluateAgrees(t1, t2, w, i, i, q);
    }
  }
}
