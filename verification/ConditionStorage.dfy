/**
  Loading the condition table: every row is checked in ascending order, and a row that
  fails is erased before the next one is looked at.
 */
module ConditionStorage {
  import opened Basics
  import opened Conditions

  /** What the checks against the rest of the database say about one row. */
  datatype Verdict =
    | Reject          // refers to something that does not exist
    | Disable         // refers to something that exists only in other content patches
    | Keep(v1: Int32)   // fine; update-field numbers are translated to the current client

  type Checks = Entry -> Verdict

  predicate ValidRef(t: Table, i: Id, v: Int32) { v < i && Ref(v) in t }

  /** The row as it is kept, or nothing if it is invalid. */
  function Validated(t: Table, i: Id, e: Entry, checks: Checks): (r: Option<Entry>)
    ensures r.Some? ==> r.value.swap == e.swap && (r.value.type_ == e.type_ || r.value == Disabled(e))
  {
    match e.type_
    case Not => if ValidRef(t, i, e.v1) then Some(e) else None
    case Or => if CombinationValid(t, i, e) then Some(e) else None
    case And => if CombinationValid(t, i, e) then Some(e) else None
    case None_ => Some(e)
    case MapEventTargets => if Ref(e.v2) in t then Some(e) else None
    case ObjectFits => if !checks(e).Reject? && Ref(e.v2) in t then Some(e) else None
    case Leaf(_) =>
      match checks(e)
      case Reject => None
      case Disable => Some(Disabled(e))
      case Keep(v1) => Some(e.(v1 := v1))
  }

  predicate CombinationValid(t: Table, i: Id, e: Entry) {
    && ValidRef(t, i, e.v1) && ValidRef(t, i, e.v2)
    && (e.v3 != 0 ==> ValidRef(t, i, e.v3)) && (e.v4 != 0 ==> ValidRef(t, i, e.v4))
  }

  /** Checks row i and keeps, rewrites or erases it. */
  function Checked(t: Table, i: Id, checks: Checks): Table {
    if i !in t then t
    else
      match Validated(t, i, t[i], checks)
      case None => t - {i}
      case Some(e) => t[i := e]
  }

  /** The table after rows 0 .. n-1 have been checked. */
  function LoadedUpTo(t: Table, n: nat, checks: Checks): Table {
    if n == 0 then t else Checked(LoadedUpTo(t, n - 1, checks), n - 1, checks)
  }

  class Storage {
    var table: Table
    const maxEntry: nat

    /** Reference values are signed, row numbers are not; a negative value names no row. */
    ghost predicate Valid()
      reads this
    {
      maxEntry <= 0x8000_0000 && forall i :: i in table ==> i < maxEntry
    }

    /** Checks row i and rewrites it in place where needed. */
    method IsValid(i: Id, checks: Checks) returns (ok: bool)
      requires Valid() && i in table
      modifies this
      ensures Valid()
      ensures ok <==> Validated(old(table), i, old(table)[i], checks).Some?
      ensures table == if ok then old(table)[i := Validated(old(table), i, old(table)[i], checks).value] else old(table)
    {
      var e := table[i];
      match e.type_ {
        case Not =>
          ok := ValidRef(table, i, e.v1);
        case Or =>
          ok := CombinationValid(table, i, e);
        case And =>
          ok := CombinationValid(table, i, e);
        case None_ =>
          ok := true;
        case MapEventTargets =>
          ok := Ref(e.v2) in table;
        case ObjectFits =>
          ok := !checks(e).Reject? && Ref(e.v2) in table;
        case Leaf(_) =>
          var verdict := checks(e);
          ok := !verdict.Reject?;
          if verdict.Disable? { table := table[i := Disabled(e)]; }
          if verdict.Keep? { table := table[i := e.(v1 := verdict.v1)]; }
      }
      assert table[i := table[i]] == table;
    }

    method LoadConditions(checks: Checks)
      requires Valid()
      modifies this
      ensures Valid() && table == LoadedUpTo(old(table), maxEntry, checks)
      ensures LoadedRight(old(table), table, checks) && CombinesLower(table) && FaultsPointUp(table)
    {
      for i := 0 to maxEntry
        invariant Valid() && table == LoadedUpTo(old(table), i, checks)
      {
        if i in table {
          var ok := IsValid(i, checks);
          if !ok { table := table - {i}; }
        }
      }
      LoadedIsRight(old(table), maxEntry, checks);
      LoadedFaultsPointUp(old(table), maxEntry, checks);
    }
  }

  // ---- What loading guarantees -----------------------------------------------------------------

  /** What a row combines is there, and has a lower number. */
  ghost predicate CombinesLower(t: Table) {
    forall i: Id, c: Id {:trigger Combines(t[i], c)} :: i in t && Combines(t[i], c) ==> c in t && c < i
  }

  /** A row that is applied to other objects, and has no lower number than the row that applies it. */
  predicate PointsUp(t: Table, i: Id, c: Id) { i in t && Delegates(t[i], c) && i <= c }

  /** A reference that dangles points up, and every cycle holds one that does. */
  ghost predicate FaultsPointUp(t: Table) {
    && (forall i, c :: Refers(t, i, c) && c !in t ==> PointsUp(t, i, c))
    && forall s :: |s| >= 2 && IsPath(t, s) && s[0] == s[|s| - 1] ==> SomePointsUp(t, s)
  }

  ghost predicate SomePointsUp(t: Table, s: seq<Id>) {
    exists k :: 0 <= k < |s| - 1 && PointsUp(t, s[k], s[k + 1])
  }

  lemma {:induction false} PathGoesDown(t: Table, s: seq<Id>)
    requires CombinesLower(t) && |s| >= 2 && IsPath(t, s) && !SomePointsUp(t, s)
    ensures s[|s| - 1] < s[0]
  {
    assert Refers(t, s[0], s[1]) && !PointsUp(t, s[0], s[1]);
    if |s| > 2 {
      var rest := s[1..];
      forall k | 0 <= k < |rest| - 1 ensures Refers(t, rest[k], rest[k + 1]) && !PointsUp(t, rest[k], rest[k + 1]) {
        assert Refers(t, s[k + 1], s[k + 2]) && !PointsUp(t, s[k + 1], s[k + 2]);
      }
      PathGoesDown(t, rest);
    }
  }

  /** A row can be evaluated as long as no row it leads to points up. */
  lemma DownIsGrounded(t: Table, i: Id)
    requires CombinesLower(t) && FaultsPointUp(t) && i in t
    requires forall j, c :: j == i || Leads(t, i, j) ==> !PointsUp(t, j, c)
    ensures Grounded(t, i)
  {
    forall j | j == i || Leads(t, i, j) ensures !Leads(t, j, j) {
      if Leads(t, j, j) {
        var s :| |s| >= 2 && IsPath(t, s) && s[0] == j && s[|s| - 1] == j;
        var k :| 0 <= k < |s| - 1 && PointsUp(t, s[k], s[k + 1]);
        if k > 0 {
          assert IsPath(t, s[..k + 1]) && s[..k + 1][0] == j && s[..k + 1][k] == s[k];
          assert Leads(t, j, s[k]);
          if j != i { LeadsOn(t, i, j, s[k]); }
        }
      }
    }
    forall j | Leads(t, i, j) ensures j in t {
      var s :| |s| >= 2 && IsPath(t, s) && s[0] == i && s[|s| - 1] == j;
      var n := |s| - 2;
      assert Refers(t, s[n], s[n + 1]);
      if n > 0 {
        assert IsPath(t, s[..n + 1]) && s[..n + 1][0] == i && s[..n + 1][n] == s[n];
        assert Leads(t, i, s[n]);
      }
    }
  }

  /** A step touches no row but its own: once past, a row is settled. */
  lemma {:induction false} Settled(t: Table, m: nat, n: nat, checks: Checks)
    requires m <= n
    ensures LoadedUpTo(t, n, checks).Keys <= t.Keys
    ensures forall i :: i < m || n <= i ==>
      var a, b := LoadedUpTo(t, m, checks), LoadedUpTo(t, n, checks);
      (i in a <==> i in b) && (i in a ==> a[i] == b[i])
  {
    if m < n {
      Settled(t, m, n - 1, checks);
    } else if m > 0 {
      Settled(t, m - 1, n - 1, checks);
    }
  }

  /** Rows below n combine existing lower rows, and what they apply exists if it is lower. */
  ghost predicate OrderedBelow(t: Table, n: nat) {
    && (forall i: Id, c: Id {:trigger Combines(t[i], c)} :: i in t && i < n && Combines(t[i], c) ==> c < i && c in t)
    && (forall i: Id, c: Id {:trigger Delegates(t[i], c)} :: i in t && i < n && Delegates(t[i], c) && c < i ==> c in t)
  }

  lemma ValidatedRefers(t: Table, n: nat, e: Entry, checks: Checks)
    requires n < 0x8000_0000 && (forall i :: i in t ==> i < 0x8000_0000) && Validated(t, n, e, checks).Some?
    ensures forall c: Id :: Combines(Validated(t, n, e, checks).value, c) ==> c < n && c in t
    ensures forall c: Id :: Delegates(Validated(t, n, e, checks).value, c) ==> c in t
  {
  }

  lemma CheckedKeepsOrder(t: Table, n: nat, checks: Checks)
    requires n < 0x8000_0000 && OrderedBelow(t, n) && forall i :: i in t ==> i < 0x8000_0000
    ensures OrderedBelow(Checked(t, n, checks), n + 1)
  {
    if n in t && Validated(t, n, t[n], checks).Some? {
      ValidatedRefers(t, n, t[n], checks);
    }
  }

  /** Checking in ascending order leaves every operand in place, below the row that uses it. */
  lemma {:induction false} LoadedIsOrdered(t: Table, n: nat, max: nat, checks: Checks)
    requires n <= max <= 0x8000_0000 && forall i :: i in t ==> i < max
    ensures OrderedBelow(LoadedUpTo(t, n, checks), n)
    ensures forall i :: i in LoadedUpTo(t, n, checks) ==> i < max
  {
    if n > 0 {
      LoadedIsOrdered(t, n - 1, max, checks);
      CheckedKeepsOrder(LoadedUpTo(t, n - 1, checks), n - 1, checks);
    }
  }

  // ---- What loading keeps -------------------------------------------------------------------------

  predicate Combined(e: Entry) { e.type_.Not? || e.type_.Or? || e.type_.And? }

  /** NOT, OR and AND are kept, and kept as they are, exactly if all they combine is there and lower. */
  lemma CombinedIsKeptIff(t: Table, i: Id, e: Entry, checks: Checks)
    requires Combined(e) && forall j :: j in t ==> j < 0x8000_0000
    ensures Validated(t, i, e, checks) == Some(e) <==> forall c: Id :: Combines(e, c) ==> c < i && c in t
    ensures Validated(t, i, e, checks) == None || Validated(t, i, e, checks) == Some(e)
  {
    assert Combines(e, Ref(e.v1));
    if !e.type_.Not? {
      assert Combines(e, Ref(e.v2));
      assert e.v3 != 0 ==> Combines(e, Ref(e.v3));
      assert e.v4 != 0 ==> Combines(e, Ref(e.v4));
    }
  }

  /**
    Row i of the raw table makes sense: what it combines is lower and makes sense as well, what it
    applies is there when it is looked at, and the rest of the database does not object.
   */
  ghost predicate MakesSense(raw: Table, loaded: Table, i: Id, checks: Checks)
    requires i in raw
  {
    && (forall c: Id :: Combines(raw[i], c) ==> c < i && c in loaded)
    && (forall c: Id :: Delegates(raw[i], c) ==> c in if c < i then loaded else raw)
    && (raw[i].type_.Leaf? || raw[i].type_.ObjectFits? ==> !checks(raw[i]).Reject?)
  }

  /** What becomes of a row that makes sense: only leaves are ever changed. */
  ghost predicate IsTranslated(e: Entry, e': Entry, checks: Checks) {
    if e.type_.Leaf? && checks(e).Disable? then
      e'.type_ == None_ && e'.reverse != e.reverse && e' == e.(type_ := e'.type_, reverse := e'.reverse)
    else if e.type_.Leaf? && checks(e).Keep? then e' == e.(v1 := checks(e).v1)
    else e' == e
  }

  lemma ValidatedIff(raw: Table, before: Table, loaded: Table, i: Id, checks: Checks)
    requires i in raw && forall j :: j in before ==> j < 0x8000_0000
    requires forall c :: c in before <==> c in if c < i then loaded else raw
    ensures Validated(before, i, raw[i], checks).Some? <==> MakesSense(raw, loaded, i, checks)
    ensures var r := Validated(before, i, raw[i], checks); r.Some? ==> IsTranslated(raw[i], r.value, checks)
  {
    var e := raw[i];
    if Combined(e) {
      CombinedIsKeptIff(before, i, e, checks);
      assert forall c: Id :: !Delegates(e, c);
    } else {
      assert forall c: Id :: !Combines(e, c);
      if e.type_.MapEventTargets? || e.type_.ObjectFits? { assert Delegates(e, Ref(e.v2)); }
    }
  }

  /** Loading keeps exactly the rows that make sense, and adds none. */
  ghost predicate LoadedRight(raw: Table, loaded: Table, checks: Checks) {
    && loaded.Keys <= raw.Keys
    && forall i :: i in raw ==>
         && (i in loaded <==> MakesSense(raw, loaded, i, checks))
         && (i in loaded ==> IsTranslated(raw[i], loaded[i], checks))
  }

  lemma LoadedIsRight(raw: Table, max: nat, checks: Checks)
    requires max <= 0x8000_0000 && forall i :: i in raw ==> i < max
    ensures LoadedRight(raw, LoadedUpTo(raw, max, checks), checks)
  {
    var loaded := LoadedUpTo(raw, max, checks);
    Settled(raw, 0, max, checks);
    forall i | i in raw
      ensures i in loaded <==> MakesSense(raw, loaded, i, checks)
      ensures i in loaded ==> IsTranslated(raw[i], loaded[i], checks)
    {
      RowIsRight(raw, max, i, checks);
    }
  }

  lemma RowIsRight(raw: Table, max: nat, i: Id, checks: Checks)
    requires max <= 0x8000_0000 && i in raw && forall j :: j in raw ==> j < max
    ensures var loaded := LoadedUpTo(raw, max, checks);
            && (i in loaded <==> MakesSense(raw, loaded, i, checks))
            && (i in loaded ==> IsTranslated(raw[i], loaded[i], checks))
  {
    hide Validated, MakesSense, IsTranslated;
    var before, after, loaded := LoadedUpTo(raw, i, checks), LoadedUpTo(raw, i + 1, checks),
      LoadedUpTo(raw, max, checks);
    assert after == Checked(before, i, checks);
    hide LoadedUpTo;
    Settled(raw, 0, i, checks);
    StartsRaw(raw, checks);
    Settled(raw, i, max, checks);
    Settled(raw, i + 1, max, checks);
    ValidatedIff(raw, before, loaded, i, checks);
  }

  lemma StartsRaw(raw: Table, checks: Checks)
    ensures LoadedUpTo(raw, 0, checks) == raw
  {
  }

  /**
    The check that orders operands is missing for rows applied to other objects. After loading,
    those are all that can leave a row without end: nothing else dangles or closes a cycle.
   */
  lemma LoadedFaultsPointUp(t: Table, max: nat, checks: Checks)
    requires max <= 0x8000_0000 && forall i :: i in t ==> i < max
    ensures CombinesLower(LoadedUpTo(t, max, checks)) && FaultsPointUp(LoadedUpTo(t, max, checks))
  {
    var l := LoadedUpTo(t, max, checks);
    LoadedIsOrdered(t, max, max, checks);
    forall s | |s| >= 2 && IsPath(l, s) && s[0] == s[|s| - 1] ensures SomePointsUp(l, s) {
      if !SomePointsUp(l, s) { PathGoesDown(l, s); }
    }
  }

  /** A row may apply itself to another object: it is accepted, although it leads back to itself. */
  lemma SelfReferenceIsAccepted(e: Entry, checks: Checks)
    requires e.type_.ObjectFits? && e.v2 == 1 && !checks(e).Reject?
    ensures LoadedUpTo(map[1 := e], 2, checks) == map[1 := e]
    ensures !Grounded(LoadedUpTo(map[1 := e], 2, checks), 1)
  {
    var t: Table := map[1 := e];
    assert LoadedUpTo(t, 1, checks) == t;
    assert Validated(t, 1, e, checks) == Some(e);
    assert t[1 := e] == t;
    assert Refers(t, 1, 1);
    LeadsFirst(t, 1, 1);
  }

  /** A reference that points up does no harm as long as it closes no cycle. */
  lemma ForwardReferenceIsHarmless(e: Entry, checks: Checks)
    requires e.type_.MapEventTargets? && e.v2 == 2
    ensures var t: Table := map[1 := e, 2 := Entry(None_, 0, 0, 0, 0, false, false)];
            LoadedUpTo(t, 3, checks) == t && PointsUp(t, 1, 2) && Grounded(t, 1) && Grounded(t, 2)
  {
    var t: Table := map[1 := e, 2 := Entry(None_, 0, 0, 0, 0, false, false)];
    assert LoadedUpTo(t, 1, checks) == t;
    assert t[1 := e] == t && t[2 := t[2]] == t;
    assert LoadedUpTo(t, 2, checks) == t;
    assert Falls(t, map[1 := 1, 2 := 0]);
    GroundedIffRanked(t);
  }

  /** A row may apply a higher row that is erased later: the reference is left dangling. */
  lemma ErasedReferenceDangles(e: Entry, bad: Entry, checks: Checks)
    requires e.type_.ObjectFits? && e.v2 == 2 && !checks(e).Reject?
    requires bad.type_.Not? && bad.v1 == 2
    ensures
      var l := LoadedUpTo(map[1 := e, 2 := bad], 3, checks);
      1 in l && Ref(l[1].v2) !in l
  {
    var t: Table := map[1 := e, 2 := bad];
    assert LoadedUpTo(t, 1, checks) == t;
    assert Validated(t, 1, e, checks) == Some(e);
    assert t[1 := e] == t;
    assert LoadedUpTo(t, 2, checks) == t;
    assert Validated(t, 2, bad, checks) == None;
  }

  /** A disabled row passes every later check unchanged. */
  lemma DisabledStays(t: Table, i: Id, e: Entry, checks: Checks)
    ensures Validated(t, i, Disabled(e), checks) == Some(Disabled(e))
  {
  }

  // ---- Conditions usable without a player --------------------------------------------------------

  predicate CanBeUsedWithoutPlayer(t: Table, w: World, i: Id)
    requires CombinesLower(t)
    decreases i
  {
    if i !in t then false
    else
      var e := t[i];
      match e.type_
      case Not =>
        assert Combines(t[i], Ref(e.v1));
        CanBeUsedWithoutPlayer(t, w, Ref(e.v1))
      case Or =>
        assert Combines(t[i], Ref(e.v1)) && Combines(t[i], Ref(e.v2));
        CanBeUsedWithoutPlayer(t, w, Ref(e.v1)) && CanBeUsedWithoutPlayer(t, w, Ref(e.v2))
      case And =>
        assert Combines(t[i], Ref(e.v1)) && Combines(t[i], Ref(e.v2));
        CanBeUsedWithoutPlayer(t, w, Ref(e.v1)) && CanBeUsedWithoutPlayer(t, w, Ref(e.v2))
      case _ => !Needs(w, e).TargetPlayer?
  }

  /** No row that row i requires, directly or through others, asks for a player. */
  ghost predicate RequiredFree(t: Table, w: World, i: Id)
    requires CombinesLower(t) && i in t
    decreases i
  {
    assert forall c: Id :: Requires(t[i], c) ==> Combines(t[i], c);
    !Needs(w, t[i]).TargetPlayer? && forall c: Id :: Requires(t[i], c) ==> RequiredFree(t, w, c)
  }

  /** The answer takes all required operands into account, and nothing else. */
  lemma {:induction false} UsableIffRequiredFree(t: Table, w: World, i: Id)
    requires CombinesLower(t) && i in t
    ensures CanBeUsedWithoutPlayer(t, w, i) <==> RequiredFree(t, w, i)
    decreases i
  {
    forall c: Id | Requires(t[i], c)
      ensures c in t && (CanBeUsedWithoutPlayer(t, w, c) <==> RequiredFree(t, w, c))
    {
      assert Combines(t[i], c);
      UsableIffRequiredFree(t, w, c);
    }
    var e := t[i];
    if e.type_.Not? || e.type_.Or? || e.type_.And? { assert Requires(t[i], Ref(e.v1)); }
    if e.type_.Or? || e.type_.And? { assert Requires(t[i], Ref(e.v2)); }
  }

  // ---- What a call without a target needs ----------------------------------------------------------

  /**
    Whether a row cannot do without the target that the root call lacks. After an odd number of
    swaps it is the source that is missing.
   */
  predicate NeedsTarget(r: Requirement, odd: bool) {
    match r
    case TargetWorldObject => !odd
    case TargetGameObject => !odd
    case TargetUnit => !odd
    case TargetCreature => !odd
    case TargetPlayer => !odd
    case SourceWorldObject => odd
    case SourceGameObject => odd
    case SourceUnit => odd
    case SourceCreature => odd
    case SourcePlayer => odd
    case BothWorldObjects => true
    case BothGameObjects => true
    case BothUnits => true
    case BothPlayers => true
    case _ => false
  }

  /** No call without a target provides the parameters. */
  ghost predicate NeverProvided(r: Requirement, odd: bool) {
    forall m, s {:trigger Params(None, m, s)} :: !Provided(r, Params(None, m, s).Swapped(odd))
  }

  lemma NeedsTargetIff(r: Requirement, odd: bool)
    ensures NeedsTarget(r, odd) <==> NeverProvided(r, odd)
  {
    if !NeedsTarget(r, odd) {
      var kind := match r
                  case TargetGameObject => GameObjectKind
                  case SourceGameObject => GameObjectKind
                  case TargetPlayer => PlayerKind
                  case SourcePlayer => PlayerKind
                  case _ => CreatureKind;
      assert Provided(r, Params(None, Some(0), Some(Obj(0, kind))).Swapped(odd));
    }
  }

  /** Neither row i nor any row combined into it, directly or through others, needs the target. */
  ghost predicate TargetFree(t: Table, w: World, i: Id, odd: bool)
    requires CombinesLower(t) && i in t
    decreases i
  {
    var odd' := odd != t[i].swap;
    !NeedsTarget(Needs(w, t[i]), odd') && forall c: Id :: Combines(t[i], c) ==> TargetFree(t, w, c, odd')
  }

  /**
    Everything else is there: with a target as well, each of those rows would have its parameters,
    and objects that a row finds for itself can be judged by the row it applies to them.
   */
  ghost predicate Suits(t: Table, w: World, i: Id, odd: bool, m: Option<nat>, s: Obj)
    requires CombinesLower(t) && Grounded(t, i)
    decreases i
  {
    RefsAreGrounded(t, i);
    var odd' := odd != t[i].swap;
    var q := Params(None, m, Some(s)).Swapped(odd');
    && (exists o :: Provided(Needs(w, t[i]), Params(o, m, Some(s)).Swapped(odd')))
    && (forall c: Id :: Combines(t[i], c) ==> Suits(t, w, c, odd', m, s))
    && (forall c: Id, r :: Delegates(t[i], c) && AppliesTo(w, t[i], q, r) ==> Complete(t, w, c, r))
  }

  lemma ProvidedWithoutTarget(r: Requirement, odd: bool, m: Option<nat>, s: Obj)
    ensures Provided(r, Params(None, m, Some(s)).Swapped(odd)) <==>
            !NeedsTarget(r, odd) && exists o :: Provided(r, Params(o, m, Some(s)).Swapped(odd))
  {
    NeedsTargetIff(r, odd);
  }

  /** Exactly the calls that provide everything else do without the target, if no combined row needs it. */
  lemma {:induction false} CompleteWithoutTarget(t: Table, w: World, i: Id, odd: bool, m: Option<nat>, s: Obj)
    requires CombinesLower(t) && Grounded(t, i)
    ensures Complete(t, w, i, Params(None, m, Some(s)).Swapped(odd)) <==>
            TargetFree(t, w, i, odd) && Suits(t, w, i, odd, m, s)
    decreases i
  {
    RefsAreGrounded(t, i);
    var root := Params(None, m, Some(s));
    var odd' := odd != t[i].swap;
    SwapTwice(root, odd, t[i].swap);
    ProvidedWithoutTarget(Needs(w, t[i]), odd', m, s);
    hide Provided, NeedsTarget;
    forall c: Id | Combines(t[i], c)
      ensures Complete(t, w, c, root.Swapped(odd')) <==> TargetFree(t, w, c, odd') && Suits(t, w, c, odd', m, s)
    {
      CompleteWithoutTarget(t, w, c, odd', m, s);
    }
  }

  /** If some combined row needs the target, no call without it has all parameters. */
  lemma {:induction false} TargetIsNeeded(t: Table, w: World, i: Id, odd: bool, m: Option<nat>, s: Option<Obj>)
    requires CombinesLower(t) && Grounded(t, i) && !TargetFree(t, w, i, odd)
    ensures !Complete(t, w, i, Params(None, m, s).Swapped(odd))
    decreases i
  {
    RefsAreGrounded(t, i);
    var odd' := odd != t[i].swap;
    SwapTwice(Params(None, m, s), odd, t[i].swap);
    NeedsTargetIff(Needs(w, t[i]), odd');
    if !NeedsTarget(Needs(w, t[i]), odd') {
      var c: Id :| Combines(t[i], c) && !TargetFree(t, w, c, odd');
      TargetIsNeeded(t, w, c, odd', m, s);
    }
  }

  /** No required row asks for a player as the target of the root call. */
  ghost predicate PlayerUnasked(t: Table, w: World, i: Id, odd: bool)
    requires CombinesLower(t) && i in t
    decreases i
  {
    assert forall c: Id :: Requires(t[i], c) ==> Combines(t[i], c);
    var odd' := odd != t[i].swap;
    && (Needs(w, t[i]).TargetPlayer? ==> odd')
    && forall c: Id :: Requires(t[i], c) ==> PlayerUnasked(t, w, c, odd')
  }

  /** No row but a required one that asks for a player needs the target. */
  ghost predicate NothingUnseen(t: Table, w: World, i: Id, odd: bool)
    requires CombinesLower(t) && i in t
    decreases i
  {
    assert forall c: Id :: Requires(t[i], c) || OptionallyTakes(t[i], c) ==> Combines(t[i], c);
    var odd' := odd != t[i].swap;
    && (NeedsTarget(Needs(w, t[i]), odd') ==> Needs(w, t[i]).TargetPlayer?)
    && (forall c: Id :: OptionallyTakes(t[i], c) ==> TargetFree(t, w, c, odd'))
    && (forall c: Id :: Requires(t[i], c) ==> NothingUnseen(t, w, c, odd'))
  }

  lemma {:induction false} TargetFreeSplits(t: Table, w: World, i: Id, odd: bool)
    requires CombinesLower(t) && i in t
    ensures TargetFree(t, w, i, odd) <==> NothingUnseen(t, w, i, odd) && PlayerUnasked(t, w, i, odd)
    decreases i
  {
    var odd' := odd != t[i].swap;
    forall c: Id | Combines(t[i], c)
      ensures TargetFree(t, w, c, odd') <==> NothingUnseen(t, w, c, odd') && PlayerUnasked(t, w, c, odd')
    {
      TargetFreeSplits(t, w, c, odd');
    }
    assert forall c: Id :: Requires(t[i], c) ==> Combines(t[i], c);
    assert forall c: Id :: OptionallyTakes(t[i], c) ==> Combines(t[i], c);
    assert Needs(w, t[i]).TargetPlayer? ==> NeedsTarget(Needs(w, t[i]), odd') == !odd';
  }

  /** The answer looks at required rows only, and takes source and target for the same. */
  lemma UsableIffUnasked(t: Table, w: World, i: Id, odd: bool)
    requires CombinesLower(t) && i in t
    ensures CanBeUsedWithoutPlayer(t, w, i) <==> PlayerUnasked(t, w, i, odd) && PlayerUnasked(t, w, i, !odd)
  {
    UsableIffRequiredFree(t, w, i);
    RequiredFreeSplits(t, w, i, odd);
  }

  lemma {:induction false} RequiredFreeSplits(t: Table, w: World, i: Id, odd: bool)
    requires CombinesLower(t) && i in t
    ensures RequiredFree(t, w, i) <==> PlayerUnasked(t, w, i, odd) && PlayerUnasked(t, w, i, !odd)
    decreases i
  {
    var odd' := odd != t[i].swap;
    forall c: Id | Requires(t[i], c)
      ensures c in t && (RequiredFree(t, w, c) <==> PlayerUnasked(t, w, c, odd') && PlayerUnasked(t, w, c, !odd'))
    {
      assert Combines(t[i], c);
      RequiredFreeSplits(t, w, c, odd');
    }
  }

  /**
    Exactly when the answer tells whether a call can do without a target: some required row asks
    for a player as the target; or what the answer does not see, namely optional rows, needs other
    than a player, and needs of the source after a swap, matters if and only if some required row
    asks for a player where a swap has put the source.
   */
  lemma AnswerIsRightIff(t: Table, w: World, i: Id)
    requires CombinesLower(t) && i in t
    ensures (CanBeUsedWithoutPlayer(t, w, i) <==> TargetFree(t, w, i, false)) <==>
            (PlayerUnasked(t, w, i, false) ==> (NothingUnseen(t, w, i, false) <==> PlayerUnasked(t, w, i, true)))
  {
    UsableIffUnasked(t, w, i, false);
    TargetFreeSplits(t, w, i, false);
  }

  /**
    A need for a target other than a player escapes the test, and so does one for the source after
    a swap: the call without a target that the answer invites is never met.
   */
  lemma OtherNeedsEscape(w: World, code: nat, swap: bool)
    requires !w.needs(code).TargetPlayer? && NeedsTarget(w.needs(code), swap)
    ensures
      var t: Table := map[1 := Entry(Leaf(code), 0, 0, 0, 0, false, swap)];
      && CombinesLower(t) && CanBeUsedWithoutPlayer(t, w, 1) && !TargetFree(t, w, 1, false)
      && Grounded(t, 1) && forall m, s :: !Meets(t, w, 1, Params(None, m, s))
  {
    var t: Table := map[1 := Entry(Leaf(code), 0, 0, 0, 0, false, swap)];
    assert CombinesLower(t);
    assert Falls(t, map[1 := 0]);
    GroundedIffRanked(t);
    NeedsTargetIff(w.needs(code), swap);
  }

  /** A row that looks at the source through a swap is taken for one that needs a player as the target. */
  lemma SwappedPlayerIsRefused(w: World, code: nat, m: Option<nat>, player: Obj)
    requires w.needs(code).TargetPlayer? && player.kind.PlayerKind?
    ensures
      var t: Table := map[1 := Entry(Leaf(code), 0, 0, 0, 0, false, true)];
      && CombinesLower(t) && !CanBeUsedWithoutPlayer(t, w, 1) && TargetFree(t, w, 1, false)
      && Grounded(t, 1) && Complete(t, w, 1, Params(None, m, Some(player)))
  {
    var t: Table := map[1 := Entry(Leaf(code), 0, 0, 0, 0, false, true)];
    assert CombinesLower(t);
    assert Falls(t, map[1 := 0]);
    GroundedIffRanked(t);
  }

  /** An optional operand that needs a player escapes the test. */
  lemma OptionalOperandEscapes(w: World, needsPlayer: nat)
    requires w.needs(needsPlayer).TargetPlayer?
    ensures
      var t: Table := map[1 := Entry(None_, 0, 0, 0, 0, false, false),
                          2 := Entry(Leaf(needsPlayer), 0, 0, 0, 0, false, false),
                          3 := Entry(And, 1, 1, 2, 0, false, false)];
      CombinesLower(t) && CanBeUsedWithoutPlayer(t, w, 3) && !TargetFree(t, w, 3, false)
  {
    var t: Table := map[1 := Entry(None_, 0, 0, 0, 0, false, false),
                        2 := Entry(Leaf(needsPlayer), 0, 0, 0, 0, false, false),
                        3 := Entry(And, 1, 1, 2, 0, false, false)];
    assert CombinesLower(t);
    assert Combines(t[3], 2) && !TargetFree(t, w, 2, false);
    assert CanBeUsedWithoutPlayer(t, w, 1);
  }
}
