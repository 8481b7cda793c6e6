/**
  Guard posts: ten charges each, a cooldown after every use, and one recharge timer for all.
 */
module GuardPosts {

  const MAX_CHARGES: nat := 10
  const USE_COOLDOWN: nat := 10000
  const RECHARGE_TIME: nat := 60000

  type Area = nat

  datatype AreaGuardInfo = AreaGuardInfo(cooldown: nat, charges: nat)

  class GuardMgr {
    var rechargeTimer: nat
    var posts: map<Area, AreaGuardInfo>

    constructor (areas: set<Area>)
      ensures posts.Keys == areas && forall a :: a in areas ==> StateOf(a) == Start()
    {
      rechargeTimer := RECHARGE_TIME;
      posts := map a | a in areas :: AreaGuardInfo(0, MAX_CHARGES);
    }

    /** What one post depends on: the common timer and its own numbers. */
    ghost function StateOf(a: Area): State
      requires a in posts
      reads this
    {
      State(rechargeTimer, posts[a].cooldown, posts[a].charges)
    }

    method Update(diff: nat)
      modifies this
      ensures posts.Keys == old(posts.Keys)
      ensures forall a :: a in posts ==> StateOf(a) == Next(old(StateOf(a)), Passes(diff))
    {
      var increase := rechargeTimer < diff;
      if increase {
        rechargeTimer := RECHARGE_TIME;
      } else {
        rechargeTimer := rechargeTimer - diff;
      }
      var todo := posts.Keys;
      while todo != {}
        invariant todo <= posts.Keys == old(posts.Keys)
        invariant rechargeTimer == if increase then RECHARGE_TIME else old(rechargeTimer) - diff
        invariant forall a :: a in todo ==> posts[a] == old(posts[a])
        invariant forall a :: a in posts && a !in todo ==> StateOf(a) == Next(old(StateOf(a)), Passes(diff))
        decreases todo
      {
        var a :| a in todo;
        todo := todo - {a};
        var post := posts[a];
        if post.cooldown != 0 {
          if post.cooldown >= diff {
            post := post.(cooldown := post.cooldown - diff);
          } else {
            post := post.(cooldown := 0);
          }
        }
        if increase && post.charges < MAX_CHARGES {
          post := post.(charges := post.charges + 1);
        }
        posts := posts[a := post];
      }
    }

    /** Calls for a guard; where there is no post, the nearest guard comes. */
    method SummonGuard(area: Area) returns (ok: bool)
      modifies this
      ensures posts.Keys == old(posts.Keys)
      ensures ok <==> area !in posts || old(posts[area].cooldown == 0 && posts[area].charges > 0)
      ensures forall a :: a in posts ==>
                StateOf(a) == if a == area then Next(old(StateOf(a)), Asks) else old(StateOf(a))
    {
      if area !in posts { return true; }
      if posts[area].cooldown != 0 || posts[area].charges == 0 { return false; }
      posts := posts[area := AreaGuardInfo(USE_COOLDOWN, posts[area].charges - 1)];
      return true;
    }

    /** Serves one call; the log holds the area of the charge that was spent, if any. */
    method Answer(call: Call) returns (log: multiset<Area>)
      modifies this
      ensures posts.Keys == old(posts.Keys)
      ensures forall a :: a in posts ==>
                Served(old(StateOf(a)), View(a, call), StateOf(a), log[a])
    {
      match call
      case Updated(diff) =>
        forall a | a in posts { ServedOne(StateOf(a), Passes(diff)); }
        Update(diff);
        log := multiset{};
      case Summoned(area) =>
        if area in posts { ServedOne(StateOf(area), Asks); }
        var ok := SummonGuard(area);
        log := if ok && area in posts then multiset{area} else multiset{};
    }

    /** Serves a sequence of calls; the log holds the area of every charge that was spent. */
    method Serve(calls: seq<Call>) returns (log: multiset<Area>)
      modifies this
      ensures posts.Keys == old(posts.Keys)
      ensures forall a :: a in posts ==> Served(old(StateOf(a)), Seen(a, calls), StateOf(a), log[a])
    {
      log := multiset{};
      assert forall a :: a in posts ==> Served(StateOf(a), Seen(a, calls[..0]), StateOf(a), 0);
      hide Served;
      for i := 0 to |calls|
        invariant posts.Keys == old(posts.Keys)
        invariant forall a :: a in posts ==> Served(old(StateOf(a)), Seen(a, calls[..i]), StateOf(a), log[a])
      {
        ghost var was := map a | a in posts :: StateOf(a);
        var spent := Answer(calls[i]);
        forall a | a in posts
          ensures Served(old(StateOf(a)), Seen(a, calls[..i + 1]), StateOf(a), log[a] + spent[a])
        {
          ServedNext(old(StateOf(a)), a, calls, i, was[a], log[a], StateOf(a), spent[a]);
        }
        log := log + spent;
      }
      assert calls[..|calls|] == calls;
    }
  }

  /** The outcome of a run for one post. */
  ghost predicate Served(s: State, es: seq<Event>, s': State, spends: nat) {
    s' == Final(s, es) && spends == Spends(s, es)
  }

  lemma ServedOne(s: State, e: Event)
    ensures Served(s, [e], Next(s, e), if Grants(s, e) then 1 else 0)
  {
  }

  lemma ServedNext(s: State, a: Area, calls: seq<Call>, i: nat, s1: State, n1: nat, s2: State, n2: nat)
    requires i < |calls|
    requires Served(s, Seen(a, calls[..i]), s1, n1) && Served(s1, View(a, calls[i]), s2, n2)
    ensures Served(s, Seen(a, calls[..i + 1]), s2, n1 + n2)
  {
    assert calls[..i + 1][..i] == calls[..i];
    Appended(s, Seen(a, calls[..i]), View(a, calls[i]));
  }

  /** From the start: at most ten charges and one per recharge period, and none within a cooldown. */
  method ServeFromStart(areas: set<Area>, calls: seq<Call>) returns (log: multiset<Area>)
    ensures forall a :: a in areas ==>
              && (log[a] - MAX_CHARGES) * (RECHARGE_TIME + 1) <= Elapsed(Seen(a, calls))
              && (log[a] - 1) * USE_COOLDOWN <= Elapsed(Seen(a, calls))
  {
    var mgr := new GuardMgr(areas);
    log := mgr.Serve(calls);
    forall a | a in areas
      ensures (log[a] - MAX_CHARGES) * (RECHARGE_TIME + 1) <= Elapsed(Seen(a, calls))
      ensures (log[a] - 1) * USE_COOLDOWN <= Elapsed(Seen(a, calls))
    {
      SpendsAreBounded(Start(), Seen(a, calls));
    }
  }

  // ---- One post -----------------------------------------------------------------------------------

  datatype Call = Updated(diff: nat) | Summoned(area: Area)

  datatype Event = Passes(diff: nat) | Asks

  datatype State = State(timer: nat, cooldown: nat, charges: nat)

  function Start(): State { State(RECHARGE_TIME, 0, MAX_CHARGES) }

  predicate Ok(s: State) { s.timer <= RECHARGE_TIME && s.cooldown <= USE_COOLDOWN && s.charges <= MAX_CHARGES }

  /** What a post sees of one call. */
  function View(a: Area, call: Call): seq<Event> {
    match call
    case Updated(diff) => [Passes(diff)]
    case Summoned(area) => if area == a then [Asks] else []
  }

  function Seen(a: Area, calls: seq<Call>): seq<Event> {
    if calls == [] then [] else Seen(a, calls[..|calls| - 1]) + View(a, calls[|calls| - 1])
  }

  predicate Recharges(s: State, e: Event) { e.Passes? && s.timer < e.diff }

  predicate Grants(s: State, e: Event) { e.Asks? && s.cooldown == 0 && s.charges > 0 }

  function Next(s: State, e: Event): State {
    match e
    case Passes(diff) =>
      State(if s.timer < diff then RECHARGE_TIME else s.timer - diff,
            if s.cooldown < diff then 0 else s.cooldown - diff,
            if s.timer < diff && s.charges < MAX_CHARGES then s.charges + 1 else s.charges)
    case Asks =>
      if Grants(s, e) then s.(cooldown := USE_COOLDOWN, charges := s.charges - 1) else s
  }

  function Final(s: State, es: seq<Event>): State
    decreases |es|
  {
    if es == [] then s else Final(Next(s, es[0]), es[1..])
  }

  function Spends(s: State, es: seq<Event>): nat
    decreases |es|
  {
    if es == [] then 0 else (if Grants(s, es[0]) then 1 else 0) + Spends(Next(s, es[0]), es[1..])
  }

  function Refills(s: State, es: seq<Event>): nat
    decreases |es|
  {
    if es == [] then 0 else (if Recharges(s, es[0]) then 1 else 0) + Refills(Next(s, es[0]), es[1..])
  }

  /** The refills that add a charge: those that find the post below its maximum. */
  function Gains(s: State, es: seq<Event>): nat
    decreases |es|
  {
    if es == [] then 0
    else (if Recharges(s, es[0]) && s.charges < MAX_CHARGES then 1 else 0) + Gains(Next(s, es[0]), es[1..])
  }

  function Elapsed(es: seq<Event>): nat {
    if es == [] then 0 else (if es[0].Passes? then es[0].diff else 0) + Elapsed(es[1..])
  }

  lemma {:induction false} Appended(s: State, es: seq<Event>, es': seq<Event>)
    decreases |es|
    ensures Final(s, es + es') == Final(Final(s, es), es')
    ensures Spends(s, es + es') == Spends(s, es) + Spends(Final(s, es), es')
    ensures Elapsed(es + es') == Elapsed(es) + Elapsed(es')
  {
    if es == [] {
      assert es + es' == es';
    } else {
      assert (es + es')[1..] == es[1..] + es';
      Appended(Next(s, es[0]), es[1..], es');
    }
  }

  /** The numbers stay in range, and no charge is spent that was neither there nor refilled. */
  lemma {:induction false} ChargesAreConserved(s: State, es: seq<Event>)
    requires Ok(s)
    decreases |es|
    ensures Ok(Final(s, es))
    ensures Spends(s, es) + Final(s, es).charges <= s.charges + Refills(s, es)
  {
    if es != [] { ChargesAreConserved(Next(s, es[0]), es[1..]); }
  }

  /** Exactly the refills that find a post below its maximum add a charge, and exactly the spends take one. */
  lemma {:induction false} ChargesAddUp(s: State, es: seq<Event>)
    decreases |es|
    ensures Final(s, es).charges + Spends(s, es) == s.charges + Gains(s, es)
    ensures Gains(s, es) <= Refills(s, es)
  {
    if es != [] { ChargesAddUp(Next(s, es[0]), es[1..]); }
  }

  /** A cooldown runs down with the time, whatever is asked meanwhile, until the next spend. */
  lemma {:induction false} CooldownRunsDown(s: State, es: seq<Event>)
    requires Spends(s, es) == 0
    decreases |es|
    ensures Final(s, es).cooldown == if s.cooldown <= Elapsed(es) then 0 else s.cooldown - Elapsed(es)
  {
    if es != [] { CooldownRunsDown(Next(s, es[0]), es[1..]); }
  }

  /** A post answers exactly if a cooldown has passed since its last spend, and it has a charge. */
  lemma AnswersIff(s: State, between: seq<Event>)
    requires Grants(s, Asks) && Spends(Next(s, Asks), between) == 0
    ensures Grants(Final(Next(s, Asks), between), Asks) <==>
            Elapsed(between) >= USE_COOLDOWN && s.charges + Gains(Next(s, Asks), between) > 1
  {
    CooldownRunsDown(Next(s, Asks), between);
    ChargesAddUp(Next(s, Asks), between);
  }

  /** The first refill comes with the update in which the timer runs out, whatever is asked meanwhile. */
  lemma {:induction false} RefillsComeIff(s: State, es: seq<Event>)
    decreases |es|
    ensures Refills(s, es) > 0 <==> Elapsed(es) > s.timer
    ensures Refills(s, es) == 0 ==> Final(s, es).timer == s.timer - Elapsed(es)
  {
    if es != [] { RefillsComeIff(Next(s, es[0]), es[1..]); }
  }

  /** Refills are more than a recharge time apart, however the elapsed time is cut into updates. */
  lemma {:induction false} RefillsTakeTime(s: State, es: seq<Event>)
    requires Ok(s)
    decreases |es|
    ensures Refills(s, es) * (RECHARGE_TIME + 1) + s.timer <= Elapsed(es) + Final(s, es).timer
  {
    if es != [] {
      assert Ok(Next(s, es[0]));
      RefillsTakeTime(Next(s, es[0]), es[1..]);
    }
  }

  lemma {:induction false} SpendsTakeTime(s: State, es: seq<Event>)
    requires Ok(s)
    decreases |es|
    ensures Spends(s, es) * USE_COOLDOWN + s.cooldown <= Elapsed(es) + Final(s, es).cooldown
  {
    if es != [] {
      assert Ok(Next(s, es[0]));
      SpendsTakeTime(Next(s, es[0]), es[1..]);
    }
  }

  /** In any stretch of any run: the spends it holds, by its length and by the timer it begins with. */
  lemma SpendsAreBounded(s: State, es: seq<Event>)
    requires Ok(s)
    ensures (Spends(s, es) - MAX_CHARGES) * (RECHARGE_TIME + 1) <= Elapsed(es) + (RECHARGE_TIME - s.timer)
    ensures (Spends(s, es) - 1) * USE_COOLDOWN <= Elapsed(es)
  {
    ChargesAreConserved(s, es);
    RefillsTakeTime(s, es);
    SpendsTakeTime(s, es);
  }

  /** Two spends are at least a cooldown apart. */
  lemma SpendsAreApart(s: State, between: seq<Event>)
    requires Ok(s) && Grants(s, Asks) && Grants(Final(Next(s, Asks), between), Asks)
    ensures Elapsed(between) >= USE_COOLDOWN
  {
    ChargesAreConserved(s, [Asks]);
    SpendsTakeTime(Next(s, Asks), between);
  }

  // ---- The bound is attained ------------------------------------------------------------------------

  /** Six times a request and a cooldown, and the millisecond in which the recharge timer runs out. */
  function Cycle(requests: nat): seq<Event> {
    if requests == 0 then [Passes(1)] else [Asks, Passes(USE_COOLDOWN)] + Cycle(requests - 1)
  }

  lemma {:induction false} OneCycle(charges: nat, left: nat)
    requires charges <= MAX_CHARGES && left <= 6
    ensures var s := State(left * USE_COOLDOWN, 0, charges);
            var used := if charges < left then charges else left;
            var after := charges - used + 1;
            && Spends(s, Cycle(left)) == used
            && Final(s, Cycle(left)) == State(RECHARGE_TIME, 0, if after > MAX_CHARGES then MAX_CHARGES else after)
            && Elapsed(Cycle(left)) == left * USE_COOLDOWN + 1
  {
    var s := State(left * USE_COOLDOWN, 0, charges);
    if left == 0 {
      assert Cycle(left)[1..] == [];
      assert Final(Next(s, Passes(1)), []) == Next(s, Passes(1));
    } else {
      var s1 := Next(s, Asks);
      var s2 := Next(s1, Passes(USE_COOLDOWN));
      assert Cycle(left)[0] == Asks && Cycle(left)[1..] == [Passes(USE_COOLDOWN)] + Cycle(left - 1);
      assert Cycle(left)[1..][0] == Passes(USE_COOLDOWN) && Cycle(left)[1..][1..] == Cycle(left - 1);
      assert s2 == State((left - 1) * USE_COOLDOWN, 0, if charges > 0 then charges - 1 else 0);
      OneCycle(s2.charges, left - 1);
    }
  }

  /** From the second period on, a post that is called whenever it can answer gives a guard more per period. */
  lemma {:induction false} BoundIsAttained(periods: nat) returns (es: seq<Event>)
    requires periods >= 2
    ensures Elapsed(es) == periods * (RECHARGE_TIME + 1)
    ensures Spends(Start(), es) + 1 == MAX_CHARGES + periods
    ensures Final(Start(), es) == State(RECHARGE_TIME, 0, 1)
  {
    if periods == 2 {
      OneCycle(10, 6);
      OneCycle(5, 6);
      es := Cycle(6) + Cycle(6);
      Appended(Start(), Cycle(6), Cycle(6));
    } else {
      var es' := BoundIsAttained(periods - 1);
      OneCycle(1, 6);
      es := es' + Cycle(6);
      Appended(Start(), es', Cycle(6));
    }
  }

  /** One more request reaches the bound exactly. */
  lemma BoundIsTight(periods: nat) returns (es: seq<Event>)
    requires periods >= 2
    ensures Elapsed(es) == periods * (RECHARGE_TIME + 1)
    ensures Spends(Start(), es) == MAX_CHARGES + periods
  {
    var es' := BoundIsAttained(periods);
    Appended(Start(), es', [Asks]);
    assert Spends(State(RECHARGE_TIME, 0, 1), [Asks]) == 1;
    es := es' + [Asks];
  }
}
