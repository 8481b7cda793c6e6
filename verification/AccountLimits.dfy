/**
  Limits per hour: how many instances an account may enter, and to how many new recipients it
  may write mail. Both are checked against the history of everything that has happened.
 */
module AccountLimits {
  import opened Basics

  type Account = nat
  type Instance = nat

  const WINDOW: nat := 3600

  /** Something done to, or with, a certain id at a certain time. */
  datatype Deed = Deed(id: nat, time: int)

  /** The distinct ids in the history from one moment until `length` later, both included. */
  ghost function Within(history: seq<Deed>, from: int, length: nat): set<nat> {
    set d | d in history && from <= d.time <= from + length :: d.id
  }

  lemma WithinNext(history: seq<Deed>, d: Deed, from: int, length: nat)
    ensures Within(history + [d], from, length) ==
            Within(history, from, length) + if from <= d.time <= from + length then {d.id} else {}
  {
  }

  /** Nothing lies in the future. */
  ghost predicate Ordered(history: seq<Deed>, now: int) {
    forall d :: d in history ==> d.time <= now
  }

  // ---- Instances -------------------------------------------------------------------------------

  type EnterTimes = map<Instance, int>

  predicate Expired(times: EnterTimes, i: Instance, now: int) { i in times && times[i] + WINDOW < now }

  /** The times on file are those of real entries, and every entry not on file is over. */
  ghost predicate Files(times: EnterTimes, history: seq<Deed>, now: int) {
    && (forall i :: i in times ==> Deed(i, times[i]) in history)
    && (forall d: Deed :: d in history ==> (d.id in times && d.time <= times[d.id]) || d.time + WINDOW < now)
  }

  /** An account has entered no more than `bound` distinct instances in any hour. */
  ghost predicate Limited(history: seq<Deed>, bound: nat) {
    forall from: int :: |Within(history, from, WINDOW)| <= bound
  }

  /** The larger of the limit and one. */
  function Bound(limit: nat): (bound: nat)
    ensures bound >= limit && bound >= 1 && (bound == limit || bound == 1)
  {
    if limit == 0 then 1 else limit
  }

  /** Every entry is on file or over, and neither the file nor any hour holds more than `cap` instances. */
  ghost predicate Kept(times: EnterTimes, history: seq<Deed>, cap: nat, now: int) {
    Ordered(history, now) && Files(times, history, now) && |times| <= cap && Limited(history, cap)
  }

  lemma ExpiredMayGo(times: EnterTimes, history: seq<Deed>, cap: nat, now: int, i: Instance)
    requires Kept(times, history, cap, now) && Expired(times, i, now)
    ensures Kept(times - {i}, history, cap, now) && |times - {i}| == |times| - 1
  {
    assert (times - {i}).Keys == times.Keys - {i};
    assert |(times - {i}).Keys| == |times - {i}| && |times.Keys| == |times|;
  }

  /** Filing an entry when there is room, or again, keeps every hour within the cap. */
  lemma EntryIsKept(times: EnterTimes, history: seq<Deed>, cap: nat, now: int, i: Instance)
    requires Kept(times, history, cap, now)
    requires i in times || |times| < cap
    ensures Kept(times[i := now], history + [Deed(i, now)], cap, now)
  {
    var times', history' := times[i := now], history + [Deed(i, now)];
    FiledSize(times, i, now);
    forall d: Deed | d in history'
      ensures (d.id in times' && d.time <= times'[d.id]) || d.time + WINDOW < now
    {
    }
    forall from: int
      ensures |Within(history', from, WINDOW)| <= cap
    {
      WindowIsKept(times', history, cap, now, i, from);
    }
  }

  lemma FiledSize(times: EnterTimes, i: Instance, now: int)
    ensures |times[i := now]| == |times| + if i in times then 0 else 1
  {
    assert times[i := now].Keys == times.Keys + {i};
    assert |times[i := now].Keys| == |times[i := now]| && |times.Keys| == |times|;
  }

  lemma WindowIsKept(times': EnterTimes, history: seq<Deed>, cap: nat, now: int, i: Instance, from: int)
    requires i in times' && |times'| <= cap && Limited(history, cap)
    requires forall d: Deed :: d in history ==> d.id in times' || d.time + WINDOW < now
    ensures |Within(history + [Deed(i, now)], from, WINDOW)| <= cap
  {
    var after := Within(history + [Deed(i, now)], from, WINDOW);
    WithinNext(history, Deed(i, now), from, WINDOW);
    if from <= now <= from + WINDOW {
      SubsetSize(after, times'.Keys);
    }
  }

  /** Refusal means that the limit has been used up within the last hour. */
  lemma RefusedAreMany(times: EnterTimes, history: seq<Deed>, cap: nat, limit: nat, now: int)
    requires Kept(times, history, cap, now) && |times| >= limit
    requires forall i :: i in times ==> !Expired(times, i, now)
    ensures |Within(history, now - WINDOW, WINDOW)| >= limit
  {
    var recent := Within(history, now - WINDOW, WINDOW);
    forall i | i in times ensures i in recent {
      assert Deed(i, times[i]) in history;
    }
    SubsetSize(times.Keys, recent);
  }

  ghost predicate FirstExpired(times: EnterTimes, j: Instance, now: int) {
    Expired(times, j, now) && forall k :: k in times && times[k] + WINDOW < now ==> j <= k
  }

  ghost predicate SomeExpired(times: EnterTimes, now: int) { exists j: Instance :: Expired(times, j, now) }

  ghost function FirstToGo(times: EnterTimes, now: int): (j: Instance)
    requires SomeExpired(times, now)
    ensures FirstExpired(times, j, now)
  {
    assert exists j: Instance :: FirstExpired(times, j, now) by {
      var expired: set<Instance> := set j: Instance | j in times && times[j] + WINDOW < now;
      var some: Instance :| Expired(times, some, now);
      assert some in expired;
      var least := Least(expired);
      assert forall k: Instance :: k in times && times[k] + WINDOW < now ==> k in expired;
      assert FirstExpired(times, least, now);
    }
    var j: Instance :| FirstExpired(times, j, now);
    j
  }

  /** Whether an account with these times on file, if any, is let into the instance. */
  ghost predicate Admits(file: Option<EnterTimes>, i: Instance, limit: nat, now: int) {
    file == None || i in file.value || |file.value| < limit || SomeExpired(file.value, now)
  }

  /** What is on file once it has been asked: with no other way to let the player in, the first expired entry goes. */
  ghost function Answered(file: Option<EnterTimes>, i: Instance, limit: nat, now: int): Option<EnterTimes> {
    if file == None || i in file.value || |file.value| < limit || !SomeExpired(file.value, now) then file
    else Some(file.value - {FirstToGo(file.value, now)})
  }

  /**
    What happens at the doors of instances. A teleport asks for the instance that the player is
    bound to, or for none (0); logins and game masters arrive without having asked.
   */
  datatype Traffic = Asks(a: Account, wanted: Instance, time: int) | Arrives(a: Account, instance: Instance, time: int)

  /** One account: its times on file, all its entries, and what it has been let into but has not reached yet. */
  datatype Desk = Desk(file: Option<EnterTimes>, history: seq<Deed>, leave: Option<Instance>)
  {
    function Times(): EnterTimes { if file.Some? then file.value else map[] }

    predicate HasRoom(i: Instance, cap: nat) { i in Times() || |Times()| < cap }

    /** The arrival is the one that was asked for, or one wherever the player gets. */
    predicate HasLeave(i: Instance) { leave.Some? && (leave.value == 0 || leave.value == i) }
  }

  /** What an event makes of an account. An arrival is filed in any case, and uses up the leave. */
  ghost function After(d: Desk, a: Account, e: Traffic, limit: nat): Desk {
    if e.a != a then d
    else
      match e
      case Asks(_, wanted, time) =>
        Desk(Answered(d.file, wanted, limit, time), d.history,
             if Admits(d.file, wanted, limit, time) then Some(wanted) else None)
      case Arrives(_, i, time) => Desk(Some(d.Times()[i := time]), d.history + [Deed(i, time)], None)
  }

  ghost function Run(d: Desk, a: Account, traffic: seq<Traffic>, limit: nat): Desk {
    if traffic == [] then d
    else After(Run(d, a, traffic[..|traffic| - 1], limit), a, traffic[|traffic| - 1], limit)
  }

  /** Time does not run backwards, and no instance has number 0. */
  ghost predicate InOrder(traffic: seq<Traffic>, start: int) {
    && (forall i :: 0 <= i < |traffic| ==> start <= traffic[i].time)
    && (forall i :: 0 <= i < |traffic| ==> traffic[i].Arrives? ==> traffic[i].instance != 0)
    && forall i, j :: 0 <= i < j < |traffic| ==> traffic[i].time <= traffic[j].time
  }

  function Clock(traffic: seq<Traffic>, start: int): int {
    if traffic == [] then start else traffic[|traffic| - 1].time
  }

  /** The account is within the cap, and what it has been let into has room. */
  ghost predicate Orderly(d: Desk, cap: nat, now: int) {
    && Kept(d.Times(), d.history, cap, now) && 0 !in d.Times()
    && (d.leave.Some? ==> d.HasRoom(d.leave.value, cap))
  }

  /** Nobody has asked, and there is no room. */
  predicate Crowds(d: Desk, a: Account, e: Traffic, cap: nat) {
    e.Arrives? && e.a == a && !d.HasLeave(e.instance) && !d.HasRoom(e.instance, cap)
  }

  /** How many arrivals without leave have found no room; each of them makes some. */
  ghost function Crowd(d: Desk, a: Account, traffic: seq<Traffic>, limit: nat): nat {
    if traffic == [] then 0
    else
      var rest := traffic[..|traffic| - 1];
      var k := Crowd(d, a, rest, limit);
      if Crowds(Run(d, a, rest, limit), a, traffic[|traffic| - 1], Bound(limit) + k) then k + 1 else k
  }

  /** The account arrives nowhere without leave. */
  ghost predicate AllAsked(d: Desk, a: Account, traffic: seq<Traffic>, limit: nat) {
    traffic == [] ||
    var rest, e := traffic[..|traffic| - 1], traffic[|traffic| - 1];
    AllAsked(d, a, rest, limit) && (e.Arrives? && e.a == a ==> Run(d, a, rest, limit).HasLeave(e.instance))
  }

  lemma AnswerIsFair(d: Desk, i: Instance, limit: nat, cap: nat, now: int)
    requires Kept(d.Times(), d.history, cap, now) && Bound(limit) <= cap
    ensures Kept(Desk(Answered(d.file, i, limit, now), d.history, None).Times(), d.history, cap, now)
    ensures Admits(d.file, i, limit, now) ==> Desk(Answered(d.file, i, limit, now), d.history, None).HasRoom(i, cap)
    ensures !Admits(d.file, i, limit, now) ==> |Within(d.history, now - WINDOW, WINDOW)| >= limit
  {
    assert |d.Times()| <= cap;
    hide Kept;
    if d.file.Some? && i !in d.file.value && |d.file.value| >= limit {
      if SomeExpired(d.file.value, now) {
        ExpiredMayGo(d.Times(), d.history, cap, now, FirstToGo(d.file.value, now));
      } else {
        RefusedAreMany(d.Times(), d.history, cap, limit, now);
      }
    }
  }

  // ---- How far the limit holds ---------------------------------------------------------------------

  /** Whatever happens, the cap grows by no more than the arrivals without leave that find no room. */
  lemma StepIsKept(d: Desk, a: Account, e: Traffic, limit: nat, cap: nat, now: int)
    requires Orderly(d, cap, now) && Bound(limit) <= cap && now <= e.time && (e.Arrives? ==> e.instance != 0)
    ensures Orderly(After(d, a, e, limit), if Crowds(d, a, e, cap) then cap + 1 else cap, e.time)
  {
    var cap' := if Crowds(d, a, e, cap) then cap + 1 else cap;
    assert Kept(d.Times(), d.history, cap', e.time);
    if e.a == a {
      match e
      case Asks(_, wanted, time) => AnswerIsFair(d, wanted, limit, cap, time);
      case Arrives(_, i, time) => EntryIsKept(d.Times(), d.history, cap', time, i);
    }
  }

  lemma {:induction false} RunIsKept(d: Desk, a: Account, traffic: seq<Traffic>, limit: nat, start: int)
    requires Orderly(d, Bound(limit), start) && InOrder(traffic, start)
    ensures Orderly(Run(d, a, traffic, limit), Bound(limit) + Crowd(d, a, traffic, limit), Clock(traffic, start))
  {
    if traffic != [] {
      var rest, e := traffic[..|traffic| - 1], traffic[|traffic| - 1];
      RunIsKept(d, a, rest, limit, start);
      StepIsKept(Run(d, a, rest, limit), a, e, limit, Bound(limit) + Crowd(d, a, rest, limit), Clock(rest, start));
    }
  }

  /** Whoever always asks crowds nowhere. */
  lemma {:induction false} AskedIsNotCrowded(d: Desk, a: Account, traffic: seq<Traffic>, limit: nat)
    requires AllAsked(d, a, traffic, limit)
    ensures Crowd(d, a, traffic, limit) == 0
  {
    if traffic != [] { AskedIsNotCrowded(d, a, traffic[..|traffic| - 1], limit); }
  }

  /** From here on the limit holds as long as the account asks before it arrives. */
  ghost predicate StaysLimited(d: Desk, a: Account, limit: nat, now: int) {
    forall traffic :: InOrder(traffic, now) && AllAsked(d, a, traffic, limit) ==>
      Limited(Run(d, a, traffic, limit).history, Bound(limit))
  }

  lemma RunAppend(d: Desk, a: Account, traffic: seq<Traffic>, e: Traffic, limit: nat)
    ensures Run(d, a, traffic + [e], limit) == After(Run(d, a, traffic, limit), a, e, limit)
    ensures AllAsked(d, a, traffic + [e], limit) <==>
              AllAsked(d, a, traffic, limit) &&
              (e.Arrives? && e.a == a ==> Run(d, a, traffic, limit).HasLeave(e.instance))
  {
    assert (traffic + [e])[..|traffic|] == traffic;
  }

  ghost function Numbers(n: nat, j: nat): (s: set<nat>)
    ensures |s| == j && forall i :: i in s <==> n <= i < n + j
  {
    if j == 0 then {} else Numbers(n, j - 1) + {n + j - 1}
  }

  lemma {:induction false} Above(s: set<nat>) returns (n: nat)
    ensures n > 0 && forall x :: x in s ==> x < n
  {
    if s == {} {
      n := 1;
    } else {
      var m: nat :| m in s;
      n := Above(s - {m});
      if n <= m { n := m + 1; }
      assert forall x :: x in s ==> x == m || x in s - {m};
    }
  }

  /** As many instances as are on file have been entered at one moment, each in the place of an expired one. */
  ghost predicate Replaced(d: Desk, d': Desk, now: int, n: nat, j: nat) {
    && d'.file.Some? && |d'.Times()| == |d.Times()|
    && (forall i :: i in d'.Times() ==> if i < n then Expired(d'.Times(), i, now) else i < n + j)
    && 0 !in d'.Times()
    && (forall i :: n <= i < n + j ==> Deed(i, now) in d'.history)
  }

  lemma ReplaceOne(d: Desk, d1: Desk, a: Account, limit: nat, now: int, n: nat, j: nat)
    requires n > 0 && Replaced(d, d1, now, n, j) && j < |d.Times()| && Bound(limit) < |d.Times()|
    ensures After(d1, a, Asks(a, 0, now), limit).HasLeave(n + j)
    ensures Replaced(d, After(After(d1, a, Asks(a, 0, now), limit), a, Arrives(a, n + j, now), limit), now, n, j + 1)
  {
    var times := d1.Times();
    if !SomeExpired(times, now) {
      assert times.Keys <= Numbers(n, j);
      assert |times.Keys| == |times|;
      SubsetSize(times.Keys, Numbers(n, j));
      assert false;
    }
    var gone := FirstToGo(times, now);
    assert (times - {gone}).Keys == times.Keys - {gone};
    assert |(times - {gone}).Keys| == |times - {gone}| && |times.Keys| == |times|;
    FiledSize(times - {gone}, n + j, now);
  }

  ghost predicate AtOnce(traffic: seq<Traffic>, now: int) {
    forall e :: e in traffic ==> e.time == now && (e.Arrives? ==> e.instance != 0)
  }

  /** One more visit, asked for and carried out at the same moment. */
  lemma OneMoreVisit(d: Desk, a: Account, before: seq<Traffic>, limit: nat, now: int, i: Instance)
    returns (traffic: seq<Traffic>)
    requires AtOnce(before, now) && AllAsked(d, a, before, limit) && i != 0
    requires After(Run(d, a, before, limit), a, Asks(a, 0, now), limit).HasLeave(i)
    ensures AtOnce(traffic, now) && AllAsked(d, a, traffic, limit)
    ensures Run(d, a, traffic, limit) ==
            After(After(Run(d, a, before, limit), a, Asks(a, 0, now), limit), a, Arrives(a, i, now), limit)
  {
    hide Run, After, AllAsked;
    RunAppend(d, a, before, Asks(a, 0, now), limit);
    RunAppend(d, a, before + [Asks(a, 0, now)], Arrives(a, i, now), limit);
    traffic := before + [Asks(a, 0, now)] + [Arrives(a, i, now)];
  }

  lemma {:induction false} ReplaceSome(d: Desk, a: Account, limit: nat, now: int, n: nat, j: nat)
    returns (traffic: seq<Traffic>)
    requires n > 0 && Replaced(d, d, now, n, 0) && j <= |d.Times()| && Bound(limit) < |d.Times()|
    ensures AtOnce(traffic, now) && AllAsked(d, a, traffic, limit) && Replaced(d, Run(d, a, traffic, limit), now, n, j)
  {
    traffic := [];
    if j > 0 {
      hide Run, After, AllAsked, Replaced, AtOnce;
      var before := ReplaceSome(d, a, limit, now, n, j - 1);
      ReplaceOne(d, Run(d, a, before, limit), a, limit, now, n, j - 1);
      traffic := OneMoreVisit(d, a, before, limit, now, n + j - 1);
    }
  }

  /** With more on file than the bound, an account that asks every time can still enter that many within an hour. */
  lemma Overrun(d: Desk, a: Account, limit: nat, cap: nat, now: int)
    requires Orderly(d, cap, now) && Bound(limit) < |d.Times()|
    ensures !StaysLimited(d, a, limit, now)
  {
    var later := now + WINDOW + 1;
    var n := Above(d.Times().Keys);
    forall i | i in d.Times() ensures Expired(d.Times(), i, later) {
      assert Deed(i, d.Times()[i]) in d.history;
    }
    var m := |d.Times()|;
    var traffic := ReplaceSome(d, a, limit, later, n, m);
    var history := Run(d, a, traffic, limit).history;
    forall i | i in Numbers(n, m) ensures i in Within(history, later, WINDOW) {
      assert Deed(i, later) in history;
    }
    SubsetSize(Numbers(n, m), Within(history, later, WINDOW));
    assert InOrder(traffic, now);
  }

  lemma {:induction false} RunSplits(d: Desk, a: Account, s: seq<Traffic>, t: seq<Traffic>, limit: nat)
    ensures Run(d, a, s + t, limit) == Run(Run(d, a, s, limit), a, t, limit)
    ensures AllAsked(d, a, s + t, limit) <==> AllAsked(d, a, s, limit) && AllAsked(Run(d, a, s, limit), a, t, limit)
  {
    if t == [] {
      assert s + t == s;
    } else {
      assert (s + t)[..|s + t| - 1] == s + t[..|t| - 1];
      RunSplits(d, a, s, t[..|t| - 1], limit);
    }
  }

  lemma StepSplits(d: Desk, a: Account, e: Traffic, t: seq<Traffic>, limit: nat)
    ensures Run(d, a, [e] + t, limit) == Run(After(d, a, e, limit), a, t, limit)
    ensures AllAsked(d, a, [e] + t, limit) <==>
              (e.Arrives? && e.a == a ==> d.HasLeave(e.instance)) && AllAsked(After(d, a, e, limit), a, t, limit)
  {
    RunAppend(d, a, [], e, limit);
    RunSplits(d, a, [e], t, limit);
    assert [] + [e] == [e];
  }

  /** If the limit can be broken after an arrival with leave, then also before it. */
  lemma StepBack(d: Desk, a: Account, e: Traffic, limit: nat, now: int)
    requires e.Arrives? && e.time == now && e.instance != 0 && d.HasLeave(e.instance)
    requires !StaysLimited(After(d, a, e, limit), a, limit, now)
    ensures !StaysLimited(d, a, limit, now)
  {
    hide Limited, Run, AllAsked, After;
    var t :| InOrder(t, now) && AllAsked(After(d, a, e, limit), a, t, limit) &&
             !Limited(Run(After(d, a, e, limit), a, t, limit).history, Bound(limit));
    StepSplits(d, a, e, t, limit);
    assert InOrder([e] + t, now);
  }

  /** A leave without room leads to the same as too much on file. */
  lemma OverrunByLeave(d: Desk, a: Account, limit: nat, cap: nat, now: int)
    requires Orderly(d, cap, now) && Bound(limit) <= cap && d.leave.Some? && !d.HasRoom(d.leave.value, Bound(limit))
    ensures !StaysLimited(d, a, limit, now)
  {
    hide Kept, Limited, StaysLimited;
    var n := Above(d.Times().Keys);
    var e := Arrives(a, if d.leave.value == 0 then n else d.leave.value, now);
    StepIsKept(d, a, e, limit, cap, now);
    FiledSize(d.Times(), e.instance, now);
    Overrun(After(d, a, e, limit), a, limit, if Crowds(d, a, e, cap) then cap + 1 else cap, now);
    StepBack(d, a, e, limit, now);
  }

  /**
    Exactly when the limit holds from here on for an account that asks every time: it has held so
    far, no more is on file than the bound, and what the account has been let into has room.
   */
  lemma StaysLimitedIff(d: Desk, a: Account, limit: nat, cap: nat, now: int)
    requires Orderly(d, cap, now) && Bound(limit) <= cap
    ensures StaysLimited(d, a, limit, now) <==> Orderly(d, Bound(limit), now)
  {
    if Orderly(d, Bound(limit), now) {
      forall traffic | InOrder(traffic, now) && AllAsked(d, a, traffic, limit)
        ensures Limited(Run(d, a, traffic, limit).history, Bound(limit))
      {
        RunIsKept(d, a, traffic, limit, now);
        AskedIsNotCrowded(d, a, traffic, limit);
      }
    } else if Bound(limit) < |d.Times()| {
      Overrun(d, a, limit, cap, now);
    } else if d.leave.Some? && !d.HasRoom(d.leave.value, Bound(limit)) {
      OverrunByLeave(d, a, limit, cap, now);
    } else {
      assert InOrder([], now) && AllAsked(d, a, [], limit) && Run(d, a, [], limit) == d;
    }
  }

  /** At every moment of the run the limit has held so far, and holds from there on if the account asks every time. */
  ghost predicate AlwaysLimited(d: Desk, a: Account, traffic: seq<Traffic>, limit: nat, start: int) {
    && StaysLimited(Run(d, a, traffic, limit), a, limit, Clock(traffic, start))
    && (traffic == [] || AlwaysLimited(d, a, traffic[..|traffic| - 1], limit, start))
  }

  /** Exactly the arrivals without leave that find no room put an end to the limit. */
  lemma {:induction false} AlwaysLimitedIff(d: Desk, a: Account, traffic: seq<Traffic>, limit: nat, start: int)
    requires Orderly(d, Bound(limit), start) && InOrder(traffic, start)
    ensures AlwaysLimited(d, a, traffic, limit, start) <==> Crowd(d, a, traffic, limit) == 0
  {
    var d' := Run(d, a, traffic, limit);
    RunIsKept(d, a, traffic, limit, start);
    StaysLimitedIff(d', a, limit, Bound(limit) + Crowd(d, a, traffic, limit), Clock(traffic, start));
    if traffic != [] {
      var rest, e := traffic[..|traffic| - 1], traffic[|traffic| - 1];
      AlwaysLimitedIff(d, a, rest, limit, start);
      if e.Arrives? { FiledSize(Run(d, a, rest, limit).Times(), e.instance, e.time); }
    }
  }

  /** Two characters of an account log in where they were left: neither asks, and the limit of one is broken. */
  lemma LoginsEscape(a: Account, i: Instance, j: Instance, now: int)
    requires i != j && i != 0 && j != 0
    ensures var d, traffic := Desk(None, [], None), [Arrives(a, i, now), Arrives(a, j, now)];
            !Limited(Run(d, a, traffic, 1).history, Bound(1)) && Crowd(d, a, traffic, 1) == 1
  {
    var d, e, f := Desk(None, [], None), Arrives(a, i, now), Arrives(a, j, now);
    assert [e, f][..1] == [e] && [e][..0] == [];
    assert Run(d, a, [], 1) == d && Run(d, a, [e], 1) == After(d, a, e, 1);
    assert Run(d, a, [e, f], 1) == After(After(d, a, e, 1), a, f, 1);
    assert Crowd(d, a, [], 1) == 0 && Crowd(d, a, [e], 1) == 0;
    assert Crowds(After(d, a, e, 1), a, f, 1);
    var history := Run(d, a, [e, f], 1).history;
    assert history == [Deed(i, now), Deed(j, now)];
    assert history[0] in history && history[1] in history;
    assert Within(history, now, WINDOW) == {i, j};
  }

  class AccountMgr {
    var instanceEnterTimes: map<Account, EnterTimes>
    ghost var entered: map<Account, seq<Deed>>

    /** Every account starts in order, whatever the limit. */
    constructor ()
      ensures instanceEnterTimes == map[] && entered == map[]
      ensures forall a: Account :: DeskOf(a, map[]) == Desk(None, [], None)
      ensures forall a: Account, limit: nat, now: int :: Orderly(DeskOf(a, map[]), Bound(limit), now)
    {
      instanceEnterTimes, entered := map[], map[];
    }

    ghost function File(a: Account): Option<EnterTimes>
      reads this
    {
      if a in instanceEnterTimes then Some(instanceEnterTimes[a]) else None
    }

    /** All instances that the account has ever entered. */
    ghost function History(a: Account): seq<Deed>
      reads this
    {
      if a in entered then entered[a] else []
    }

    /** The account as it stands, with what it has been let into. */
    ghost function DeskOf(a: Account, granted: map<Account, Instance>): Desk
      reads this
    {
      Desk(File(a), History(a), if a in granted then Some(granted[a]) else None)
    }

    method CheckInstanceCount(a: Account, i: Instance, maxCount: nat, now: int) returns (ok: bool)
      modifies this`instanceEnterTimes
      ensures ok <==> a !in old(instanceEnterTimes) || i in old(instanceEnterTimes[a])
                      || |old(instanceEnterTimes[a])| < maxCount
                      || exists j: Instance :: Expired(old(instanceEnterTimes[a]), j, now)
      ensures ok <==> Admits(old(File(a)), i, maxCount, now)
      ensures File(a) == Answered(old(File(a)), i, maxCount, now)
      ensures forall b: Account :: b != a ==> File(b) == old(File(b))
    {
      if a !in instanceEnterTimes { return true; }
      var times := instanceEnterTimes[a];
      if i in times { return true; }
      if |times| < maxCount { return true; }
      var todo := times.Keys;
      while todo != {}
        invariant todo <= times.Keys && instanceEnterTimes == old(instanceEnterTimes)
        invariant forall j, k :: j in times && j !in todo && k in todo ==> j < k
        invariant forall j :: j in times && j !in todo ==> times[j] + WINDOW >= now
        decreases todo
      {
        ghost var least := Least(todo);
        var j :| j in todo && forall k :: k in todo ==> j <= k;
        todo := todo - {j};
        if times[j] + WINDOW < now {
          instanceEnterTimes := instanceEnterTimes[a := times - {j}];
          assert FirstExpired(times, j, now);
          return true;
        }
      }
      return false;
    }

    method AddInstanceEnterTime(a: Account, i: Instance, enterTime: int)
      modifies this
      ensures File(a) == Some((if old(File(a)).Some? then old(File(a)).value else map[])[i := enterTime])
      ensures History(a) == old(History(a)) + [Deed(i, enterTime)]
      ensures forall b: Account :: b != a ==> File(b) == old(File(b)) && History(b) == old(History(b))
    {
      entered := entered[a := History(a) + [Deed(i, enterTime)]];
      if a !in instanceEnterTimes {
        var resetTimes: EnterTimes := map[];
        resetTimes := resetTimes[i := enterTime];
        instanceEnterTimes := instanceEnterTimes[a := resetTimes];
        return;
      }
      var times: EnterTimes := instanceEnterTimes[a];
      times := times[i := enterTime];
      instanceEnterTimes := instanceEnterTimes[a := times];
    }

    /** One event at the doors; `granted` holds what those under way have been let into. */
    method Handle(e: Traffic, granted: map<Account, Instance>, limit: nat) returns (granted': map<Account, Instance>)
      modifies this
      ensures forall b: Account :: DeskOf(b, granted') == After(old(DeskOf(b, granted)), b, e, limit)
    {
      match e
      case Asks(a, wanted, time) =>
        var ok := CheckInstanceCount(a, wanted, limit, time);
        granted' := if ok then granted[a := wanted] else granted - {a};
      case Arrives(a, i, time) =>
        AddInstanceEnterTime(a, i, time);
        granted' := granted - {a};
    }

    /**
      However the visits of all accounts interleave, and whether they ask or not, none enters more
      instances within an hour than it may and has arrived without leave where there was no room.
     */
    method Serve(traffic: seq<Traffic>, limit: nat, ghost start: int) returns (granted: map<Account, Instance>)
      requires InOrder(traffic, start) && forall a: Account :: Orderly(DeskOf(a, map[]), Bound(limit), start)
      modifies this
      ensures forall a: Account :: DeskOf(a, granted) == Run(old(DeskOf(a, map[])), a, traffic, limit)
      ensures forall a: Account ::
                Limited(History(a), Bound(limit) + Crowd(old(DeskOf(a, map[])), a, traffic, limit))
      ensures forall a: Account ::
                AllAsked(old(DeskOf(a, map[])), a, traffic, limit) ==> Limited(History(a), Bound(limit))
    {
      granted := map[];
      for i := 0 to |traffic|
        invariant forall a: Account :: DeskOf(a, granted) == Run(old(DeskOf(a, map[])), a, traffic[..i], limit)
      {
        assert traffic[..i + 1] == traffic[..i] + [traffic[i]];
        forall a: Account { RunAppend(old(DeskOf(a, map[])), a, traffic[..i], traffic[i], limit); }
        granted := Handle(traffic[i], granted, limit);
      }
      assert traffic[..|traffic|] == traffic;
      forall a: Account
        ensures Limited(History(a), Bound(limit) + Crowd(old(DeskOf(a, map[])), a, traffic, limit))
        ensures AllAsked(old(DeskOf(a, map[])), a, traffic, limit) ==> Limited(History(a), Bound(limit))
      {
        RunIsKept(old(DeskOf(a, map[])), a, traffic, limit, start);
        if AllAsked(old(DeskOf(a, map[])), a, traffic, limit) {
          AskedIsNotCrowded(old(DeskOf(a, map[])), a, traffic, limit);
        }
      }
    }
  }

  /** The bound cannot be brought down to the limit when the limit is zero: one instance is let in all the same. */
  method ZeroLimitLetsOneIn(a: Account, i: Instance, now: int) returns (mgr: AccountMgr, ok: bool)
    requires i != 0
    ensures ok && Within(mgr.History(a), now, WINDOW) == {i}
  {
    mgr := new AccountMgr();
    ok := mgr.CheckInstanceCount(a, 0, 0, now);
    mgr.AddInstanceEnterTime(a, i, now);
    assert mgr.History(a) == [Deed(i, now)];
  }

  // ---- Mail ------------------------------------------------------------------------------------

  type MailsSent = map<Account, int>

  /** Recipients whose last mail has not expired. */
  ghost function Recent(sent: MailsSent, now: int, expire: nat): set<Account> {
    set t | t in sent && sent[t] >= now - expire
  }

  /** The time on file for a recipient is that of the last mail to him. */
  ghost predicate LastMails(sent: MailsSent, mails: seq<Deed>) {
    && (forall t :: t in sent ==> Deed(t, sent[t]) in mails)
    && (forall d: Deed :: d in mails ==> d.id in sent && d.time <= sent[d.id])
  }

  /** One mail to each recipient, his first. */
  ghost predicate FirstMails(firsts: seq<Deed>, mails: seq<Deed>) {
    && (forall d: Deed :: d in firsts ==> d in mails)
    && forall i, j :: 0 <= i < j < |firsts| ==> firsts[i].id != firsts[j].id
  }

  ghost predicate FewNew(firsts: seq<Deed>, expire: nat, allowed: nat) {
    forall from: int :: |Within(firsts, from, expire)| <= allowed
  }

  /** Seen from the history: the recipients of any mail within the last `expire` seconds. */
  lemma RecentIsWithin(sent: MailsSent, mails: seq<Deed>, now: int, expire: nat)
    requires LastMails(sent, mails) && Ordered(mails, now)
    ensures Recent(sent, now, expire) == Within(mails, now - expire, expire)
  {
  }

  lemma FirstsAreRecent(sent: MailsSent, mails: seq<Deed>, firsts: seq<Deed>, from: int, now: int, expire: nat)
    requires LastMails(sent, mails) && FirstMails(firsts, mails) && now <= from + expire
    ensures Within(firsts, from, expire) <= Recent(sent, now, expire)
  {
  }

  lemma NewRecipientIsAllowed(sent: MailsSent, mails: seq<Deed>, firsts: seq<Deed>, t: Account, now: int, expire: nat,
                              allowed: nat)
    requires LastMails(sent, mails) && FirstMails(firsts, mails) && FewNew(firsts, expire, allowed)
    requires |Recent(sent, now, expire)| < allowed
    ensures FewNew(firsts + [Deed(t, now)], expire, allowed)
  {
    forall from: int
      ensures |Within(firsts + [Deed(t, now)], from, expire)| <= allowed
    {
      WithinNext(firsts, Deed(t, now), from, expire);
      if from <= now <= from + expire {
        FirstsAreRecent(sent, mails, firsts, from, now, expire);
        SubsetSize(Within(firsts, from, expire), Recent(sent, now, expire));
      }
    }
  }

  class AccountPersistentData {
    var mailsSent: MailsSent
    ghost var mails: seq<Deed>
    ghost var firsts: seq<Deed>

    constructor ()
      ensures mailsSent == map[] && mails == firsts == []
      ensures forall expire, allowed, now :: Valid(expire, allowed, now)
    {
      mailsSent, mails, firsts := map[], [], [];
      new;
      assert forall from: int, expire: nat :: Within([], from, expire) == {};
    }

    ghost predicate Valid(expire: nat, allowed: nat, now: int)
      reads this
    {
      && Ordered(mails, now) && LastMails(mailsSent, mails)
      && FirstMails(firsts, mails) && FewNew(firsts, expire, allowed)
    }

    /** An old recipient can always be written to, a new one if not too many were written to of late. */
    method CanMail(t: Account, expire: nat, allowed: nat, now: int) returns (ok: bool)
      ensures ok <==> t in mailsSent || |Recent(mailsSent, now, expire)| < allowed
    {
      if t in mailsSent { return true; }
      var totalScore := 0;
      var lastNonExpired := now - expire;
      var todo := mailsSent.Keys;
      while todo != {}
        invariant todo <= mailsSent.Keys
        invariant totalScore == |Recent(mailsSent, now, expire) - todo|
        decreases todo
      {
        var r :| r in todo;
        ghost var counted := Recent(mailsSent, now, expire) - todo;
        todo := todo - {r};
        if mailsSent[r] >= lastNonExpired {
          assert Recent(mailsSent, now, expire) - todo == counted + {r};
          totalScore := totalScore + 1;
        } else {
          assert Recent(mailsSent, now, expire) - todo == counted;
        }
      }
      assert Recent(mailsSent, now, expire) - todo == Recent(mailsSent, now, expire);
      return totalScore < allowed;
    }

    method JustMailed(t: Account, now: int)
      modifies this
      ensures mailsSent == old(mailsSent)[t := now] && mails == old(mails) + [Deed(t, now)]
      ensures firsts == if t in old(mailsSent) then old(firsts) else old(firsts) + [Deed(t, now)]
    {
      mails := mails + [Deed(t, now)];
      if t !in mailsSent { firsts := firsts + [Deed(t, now)]; }
      mailsSent := mailsSent[t := now];
    }

    /**
      Sends a mail if the limit allows it. Whatever the run, first mails go to no more than the
      allowed number of recipients in any window, although later mails renew the time on file;
      a mail is refused exactly if the recipient is new and the window that ends now is used up.
     */
    method Mail(t: Account, expire: nat, allowed: nat, now: int, ghost before: int) returns (ok: bool)
      requires Valid(expire, allowed, before) && before <= now
      modifies this
      ensures Valid(expire, allowed, now)
      ensures ok <==>
                (exists d: Deed :: d in old(mails) && d.id == t) || |Within(old(mails), now - expire, expire)| < allowed
      ensures mails == old(mails) + if ok then [Deed(t, now)] else []
      ensures firsts == if ok && forall d: Deed :: d in old(mails) ==> d.id != t
                        then old(firsts) + [Deed(t, now)] else old(firsts)
    {
      RecentIsWithin(mailsSent, mails, now, expire);
      assert t in mailsSent ==> Deed(t, mailsSent[t]) in mails;
      ok := CanMail(t, expire, allowed, now);
      if ok {
        if t !in mailsSent { NewRecipientIsAllowed(mailsSent, mails, firsts, t, now, expire, allowed); }
        JustMailed(t, now);
      }
    }

    method Serve(letters: seq<Deed>, expire: nat, allowed: nat, ghost start: int)
      requires Valid(expire, allowed, start)
      requires forall i :: 0 <= i < |letters| ==> start <= letters[i].time
      requires forall i, j :: 0 <= i < j < |letters| ==> letters[i].time <= letters[j].time
      modifies this
      ensures FewNew(firsts, expire, allowed)
    {
      ghost var now := start;
      for i := 0 to |letters|
        invariant Valid(expire, allowed, now)
        invariant forall j :: i <= j < |letters| ==> now <= letters[j].time
      {
        var _ := Mail(letters[i].id, expire, allowed, letters[i].time, now);
        now := letters[i].time;
      }
    }
  }
}
