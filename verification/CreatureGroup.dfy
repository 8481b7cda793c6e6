/**
  A creature group at run time: who leads it, and the two guards that stop its members from
  respawning or assisting each other without end.
 */
module CreatureGroups {
  import opened Basics

  type Guid = nat

  datatype Flag = FormationMove | AggroTogether | EvadeTogether | RespawnTogether
                | RespawnAllOnMasterEvade | RespawnAllOnAnyEvade | InformLeaderOnMemberDied | InformMembersOnAnyDied

  datatype DeathState = Alive | Corpse | Dead

  /** A creature of the map, as far as its group looks at it; `grouped` is its pointer to the group. */
  datatype Creature = Creature(inWorld: bool, state: DeathState, respawnTime: int, waypoints: bool,
                               ai: bool, fighting: bool, grouped: bool)

  type Creatures = map<Guid, Creature>

  /** What `Creature::Respawn` does to the creature: a dead one is due at the next tick. */
  function Restart(c: Creature, now: int): Creature {
    if c.state == Alive then c else c.(state := Dead, respawnTime := now)
  }

  predicate Present(cs: Creatures, g: Guid) { g in cs && cs[g].inWorld && cs[g].state == Alive }

  /** Creatures that a group respawn is for; `barred` are those a battleground holds back. */
  predicate Due(cs: Creatures, barred: set<Guid>, now: int, g: Guid) {
    g in cs && cs[g].inWorld && cs[g].respawnTime > now && g !in barred
  }

  /** The creatures, the respawns that the group has ordered, and those that scripts have ordered. */
  datatype Scene = Scene(cs: Creatures, log: multiset<Guid>, scripted: multiset<Guid>)

  /** From one scene to the other somebody has respawned the creature. */
  predicate Touched(a: Scene, b: Scene, g: Guid) { a.log[g] < b.log[g] || a.scripted[g] < b.scripted[g] }

  /** Every creature that anybody has respawned is restarted, and no other has changed. */
  ghost predicate Restarts(now: int, a: Scene, b: Scene) {
    && b.cs.Keys == a.cs.Keys
    && (forall g :: a.log[g] <= b.log[g] && a.scripted[g] <= b.scripted[g])
    && forall g :: g in a.cs ==> b.cs[g] == if Touched(a, b, g) then Restart(a.cs[g], now) else a.cs[g]
  }

  /** A script has respawned the creature before the group came to it. */
  predicate ScriptedFirst(a: Scene, b: Scene, g: Guid) {
    g in a.cs && a.cs[g].state != Alive && b.log[g] == a.log[g] && a.scripted[g] < b.scripted[g]
  }

  /**
    The effect of a respawn of the given points: nothing if it is blocked; otherwise the group has
    respawned every one that is due exactly once, unless a script was faster, and no other.
   */
  ghost predicate Spread(barred: set<Guid>, now: int, points: set<Guid>, blocked: bool, a: Scene, b: Scene) {
    && Restarts(now, a, b) && (blocked ==> b == a)
    && forall g :: if !blocked && g in points && Due(a.cs, barred, now, g)
                   then b.log[g] == a.log[g] + 1 || ScriptedFirst(a, b, g)
                   else b.log[g] == a.log[g]
  }

  /** Whoever has been respawned and was not alive lies dead, without a corpse, and comes to life at the next tick. */
  lemma RestartedIsDue(now: int, a: Scene, b: Scene, g: Guid)
    requires Restarts(now, a, b) && g in a.cs && Touched(a, b, g) && a.cs[g].state != Alive
    ensures b.cs[g].state == Dead && b.cs[g].respawnTime == now
    ensures b.cs[g] == a.cs[g].(state := Dead, respawnTime := now)
  {
  }

  /** So every creature that was due, and not alive, is now about to come to life. */
  ghost predicate AllRevive(barred: set<Guid>, now: int, points: set<Guid>, a: Scene, b: Scene) {
    forall g :: g in points && Due(a.cs, barred, now, g) && a.cs[g].state != Alive ==>
      g in b.cs && b.cs[g].state == Dead && b.cs[g].respawnTime <= now && b.cs[g].inWorld
  }

  lemma SpreadRevives(barred: set<Guid>, now: int, points: set<Guid>, blocked: bool, a: Scene, b: Scene)
    requires Spread(barred, now, points, blocked, a, b)
    ensures !blocked ==> AllRevive(barred, now, points, a, b)
    ensures forall g :: g in a.cs && a.cs[g].state == Alive ==> g in b.cs && b.cs[g] == a.cs[g]
  {
    if !blocked {
      forall g | g in points && Due(a.cs, barred, now, g) && a.cs[g].state != Alive
        ensures g in b.cs && b.cs[g].state == Dead && b.cs[g].respawnTime <= now && b.cs[g].inWorld
      {
        RestartedIsDue(now, a, b, g);
      }
    }
  }

  lemma RestartsOn(now: int, a: Scene, b: Scene, c: Scene)
    requires Restarts(now, a, b) && Restarts(now, b, c)
    ensures Restarts(now, a, c)
  {
  }

  lemma BlockedIsIdle()
    ensures forall barred, now, points, a, b :: Spread(barred, now, points, true, a, b) ==> b == a
  {
  }

  lemma ScriptRestarts(now: int, a: Scene, b: Scene, g: Guid)
    requires Restarts(now, a, b) && g in b.cs
    ensures Restarts(now, a, Scene(b.cs[g := Restart(b.cs[g], now)], b.log, b.scripted + multiset{g}))
  {
    RestartsOn(now, a, b, Scene(b.cs[g := Restart(b.cs[g], now)], b.log, b.scripted + multiset{g}));
  }

  lemma SpreadToNext(barred: set<Guid>, now: int, seen: set<Guid>, g: Guid, blocked: bool, a: Scene, b: Scene, c: Scene)
    requires g !in seen
    requires Spread(barred, now, seen, blocked, a, b) && Spread(barred, now, {g}, blocked, b, c)
    ensures Spread(barred, now, seen + {g}, blocked, a, c)
  {
    RestartsOn(now, a, b, c);
  }

  /** What a pass over the members has seen when some are still to come. */
  lemma Reached(keys: set<Guid>, todo: set<Guid>, except: Guid)
    ensures keys - keys - {except} == {}
    ensures forall g :: g in todo && g in keys && g != except ==>
              keys - (todo - {g}) - {except} == keys - todo - {except} + {g}
    ensures except in todo ==> keys - (todo - {except}) - {except} == keys - todo - {except}
    ensures todo == {} ==> forall g :: g != except ==> keys - todo - {except} + {g} == keys + {g} - {except}
    ensures todo == {} ==> keys - todo - {except} == keys + {except} - {except}
  {
  }

  lemma NothingSpreads(barred: set<Guid>, now: int, points: set<Guid>, blocked: bool, a: Scene)
    requires blocked || points == {}
    ensures Spread(barred, now, points, blocked, a, a)
  {
  }

  /** One respawn ordered by the group, and whatever scripts have made of it. */
  lemma SpreadToOne(barred: set<Guid>, now: int, g: Guid, a: Scene, b: Scene)
    requires Due(a.cs, barred, now, g) && b.log == a.log + multiset{g}
    requires Restarts(now, Scene(a.cs[g := Restart(a.cs[g], now)], a.log + multiset{g}, a.scripted), b)
    ensures Spread(barred, now, {g}, false, a, b)
  {
    RestartsOn(now, a, Scene(a.cs[g := Restart(a.cs[g], now)], a.log + multiset{g}, a.scripted), b);
  }

  /** No dead creature is respawned twice: a second pass at the same time finds nothing to do. */
  lemma SecondPassIsIdle(barred: set<Guid>, now: int, points: set<Guid>, a: Scene, b: Scene, c: Scene)
    requires forall g :: g in points && Due(a.cs, barred, now, g) ==> a.cs[g].state != Alive
    requires Spread(barred, now, points, false, a, b) && Spread(barred, now, points, false, b, c)
    ensures c.log == b.log
  {
    forall g ensures c.log[g] == b.log[g] {
      if g in points && Due(b.cs, barred, now, g) { assert Touched(a, b, g); }
    }
  }

  /** Whom the group respawns, in so many words: who is in the world and waits, and no battleground holds back. */
  lemma SpreadReaches(barred: set<Guid>, now: int, points: set<Guid>, a: Scene, b: Scene, g: Guid)
    requires Spread(barred, now, points, false, a, b)
    ensures if g in points && g in a.cs && a.cs[g].inWorld && now < a.cs[g].respawnTime && g !in barred
            then b.log[g] == a.log[g] + 1 ||
                 (a.cs[g].state != Alive && b.log[g] == a.log[g] && b.scripted[g] > a.scripted[g])
            else b.log[g] == a.log[g]
  {
  }

  /** Creatures that come to help when a member of the group attacks. */
  predicate Idle(cs: Creatures, g: Guid) { Present(cs, g) && !cs[g].fighting && cs[g].ai }

  /**
    The effect of a call for help: every idle creature among the points has been called exactly
    once, and nothing has happened but that some of those have taken up the fight.
   */
  ghost predicate Called(points: set<Guid>, blocked: bool,
                         cs: Creatures, log: multiset<Guid>, cs': Creatures, log': multiset<Guid>)
  {
    && cs'.Keys == cs.Keys
    && (forall g :: g in cs ==> cs'[g] == cs[g] ||
                                (!blocked && g in points && Idle(cs, g) && cs'[g] == cs[g].(fighting := true)))
    && (forall g :: log'[g] == log[g] + if !blocked && g in points && Idle(cs, g) then 1 else 0)
  }

  /** Whom the group calls: who is in the world, alive, has an AI and does not fight. */
  lemma CallReaches(points: set<Guid>, cs: Creatures, log: multiset<Guid>, cs': Creatures, log': multiset<Guid>,
                    g: Guid)
    requires Called(points, false, cs, log, cs', log')
    ensures log'[g] == if g in points && g in cs && cs[g].inWorld && cs[g].state == Alive && cs[g].ai && !cs[g].fighting
                       then log[g] + 1 else log[g]
  {
  }

  lemma CalledNext(seen: set<Guid>, g: Guid, blocked: bool, cs: Creatures, log: multiset<Guid>,
                   cs1: Creatures, log1: multiset<Guid>, cs2: Creatures, log2: multiset<Guid>)
    requires g !in seen
    requires Called(seen, blocked, cs, log, cs1, log1) && Called({g}, blocked, cs1, log1, cs2, log2)
    ensures Called(seen + {g}, blocked, cs, log, cs2, log2)
  {
  }

  /** The first member, in ascending order, that could take over the lead from the deceased. */
  predicate IsHeir(cs: Creatures, members: set<Guid>, deceased: Guid, g: Guid) {
    && g in members && g != deceased && Present(cs, g)
    && forall h :: h in members && h != deceased && Present(cs, h) ==> g <= h
  }

  /** No creature of the given points keeps its pointer to the group, and nothing else changes. */
  ghost predicate Ungrouped(points: set<Guid>, cs: Creatures, cs': Creatures) {
    && cs'.Keys == cs.Keys
    && forall g :: g in cs ==> cs'[g] == if g in points then cs[g].(grouped := false) else cs[g]
  }

  lemma UngroupedNext(seen: set<Guid>, g: Guid, cs: Creatures, cs1: Creatures, cs2: Creatures)
    requires Ungrouped(seen, cs, cs1) && Ungrouped({g}, cs1, cs2)
    ensures Ungrouped(seen + {g}, cs, cs2)
  {
  }

  /**
    What can happen while a creature respawns: reports to the group, and scripts that respawn a
    creature on their own account.
   */
  datatype Report = Respawned(g: Guid) | RespawnedAll(g: Guid) | Scripted(g: Guid)

  class GameMap {
    var creatures: Creatures
    const barred: set<Guid>
    var now: int
    // The calls of Creature::Respawn that the group and that scripts have made, and the group's calls of AttackedBy.
    ghost var respawned: multiset<Guid>
    ghost var scripted: multiset<Guid>
    ghost var assisted: multiset<Guid>

    constructor (creatures: Creatures, barred: set<Guid>, now: int)
      ensures this.creatures == creatures && this.barred == barred && this.now == now
      ensures respawned == scripted == assisted == multiset{}
    {
      this.creatures, this.barred, this.now := creatures, barred, now;
      respawned, scripted, assisted := multiset{}, multiset{}, multiset{};
    }

    ghost function View(): Scene
      reads this
    {
      Scene(creatures, respawned, scripted)
    }

    /**
      Respawns one creature. Scripts run on the way may report any respawn to the group, and may
      respawn any creature themselves, to whatever depth.
     */
    method RespawnCreature(group: CreatureGroup, g: Guid)
      requires group.Valid() && group.respawnGuard && g in creatures
      modifies this`creatures, this`respawned, this`scripted, group`leaderGuid, group`respawnGuard
      decreases group.Depth(3)
      ensures respawned == old(respawned) + multiset{g}
      ensures g in creatures && creatures[g] == if old(creatures[g]).state == Alive then old(creatures[g])
                                                else old(creatures[g]).(state := Dead, respawnTime := now)
      ensures Restarts(now, Scene(old(creatures)[g := Restart(old(creatures[g]), now)], old(respawned) + multiset{g},
                                  old(scripted)), View())
      ensures group.Valid() && group.respawnGuard
      ensures group.leaderGuid == old(group.leaderGuid) || group.leaderGuid == group.originalLeaderGuid
    {
      creatures := creatures[g := Restart(creatures[g], now)];
      respawned := respawned + multiset{g};
      ghost var start := View();
      assert Restarts(now, start, start);
      hide Restarts, Spread;
      var reports: seq<Report> :| true;
      for i := 0 to |reports|
        invariant group.Valid() && group.respawnGuard && respawned == start.log && Restarts(now, start, View())
        invariant group.leaderGuid == old(group.leaderGuid) || group.leaderGuid == group.originalLeaderGuid
      {
        match reports[i]
        case Respawned(h) =>
          BlockedIsIdle();
          group.OnRespawn(this, h);
        case RespawnedAll(h) =>
          BlockedIsIdle();
          group.RespawnAll(this, h);
        case Scripted(h) =>
          if h in creatures {
            ghost var before := View();
            creatures := creatures[h := Restart(creatures[h], now)];
            scripted := scripted + multiset{h};
            ScriptRestarts(now, start, before, h);
          }
      }
    }

    /** Attacks on behalf of the group; whoever starts to fight may report attacks to the group. */
    method AttackedBy(group: CreatureGroup, g: Guid)
      requires group.Valid() && group.assistGuard && g in creatures
      modifies this`creatures, this`assisted, group`assistGuard
      decreases group.AssistDepth(2)
      ensures group.assistGuard && assisted == old(assisted) + multiset{g}
      ensures creatures == old(creatures) || creatures == old(creatures)[g := old(creatures[g]).(fighting := true)]
    {
      var fights: bool :| true;
      if fights { creatures := creatures[g := creatures[g].(fighting := true)]; }
      assisted := assisted + multiset{g};
      ghost var after, log := creatures, assisted;
      var reports: seq<Guid> :| true;
      for i := 0 to |reports|
        invariant group.assistGuard && creatures == after && assisted == log
      {
        group.OnMemberAttackStart(this, reports[i]);
      }
    }
  }

  class CreatureGroup {
    const originalLeaderGuid: Guid
    var leaderGuid: Guid
    var options: set<Flag>
    var members: map<Guid, set<Flag>>
    var respawnGuard: bool
    var assistGuard: bool
    var deleted: bool
    ghost var lost: bool      // the leader is not there, or has been taken off the map, until the original one lives

    ghost predicate Valid()
      reads this
    {
      originalLeaderGuid !in members
    }

    ghost function Points(): set<Guid>
      reads this
    {
      members.Keys + {originalLeaderGuid}
    }

    /**
      The measure of a call of the given level. Every call made on the way is of a smaller
      measure and no measure exceeds six, so that no more than seven calls are ever nested.
     */
    ghost function Depth(level: nat): (r: nat)
      requires level <= 3
      reads this`respawnGuard
      ensures r <= 7 && (level < 3 ==> r <= 6)
    {
      if respawnGuard then level else level + 4
    }

    ghost function AssistDepth(level: nat): (r: nat)
      requires level <= 2
      reads this`assistGuard
      ensures r <= 5
    {
      if assistGuard then level else level + 3
    }

    constructor (leader: Guid)
      ensures Valid() && leaderGuid == originalLeaderGuid == leader && members == map[] && options == {}
      ensures !respawnGuard && !assistGuard && !deleted && !lost
    {
      leaderGuid, originalLeaderGuid := leader, leader;
      options, members := {}, map[];
      respawnGuard, assistGuard, deleted, lost := false, false, false, false;
    }

    // ---- Respawning together ---------------------------------------------------------------------

    /** A creature respawned: it takes back the lead if it is the original leader. */
    method OnRespawn(world: GameMap, member: Guid)
      requires Valid()
      modifies this`leaderGuid, this`respawnGuard, world`creatures, world`respawned, world`scripted
      decreases Depth(2)
      ensures Valid() && respawnGuard == old(respawnGuard)
      ensures leaderGuid == old(leaderGuid) || leaderGuid == originalLeaderGuid
      ensures !deleted && member == originalLeaderGuid ==> leaderGuid == originalLeaderGuid
      ensures Spread(world.barred, world.now, Points() - {member},
                     old(respawnGuard) || deleted || RespawnTogether !in options,
                     old(world.View()), world.View())
    {
      if deleted { return; }
      if leaderGuid != originalLeaderGuid && member == originalLeaderGuid {
        leaderGuid := originalLeaderGuid;
      }
      if RespawnTogether !in options { return; }
      RespawnAll(world, member);
    }

    /** Respawns the whole group with the exception of one creature. */
    method RespawnAll(world: GameMap, except: Guid)
      requires Valid()
      modifies this`leaderGuid, this`respawnGuard, world`creatures, world`respawned, world`scripted
      decreases Depth(1)
      ensures Valid() && respawnGuard == old(respawnGuard)
      ensures leaderGuid == old(leaderGuid) || leaderGuid == originalLeaderGuid
      ensures Spread(world.barred, world.now, Points() - {except}, old(respawnGuard) || deleted,
                     old(world.View()), world.View())
      ensures !old(respawnGuard) && !deleted ==>
                AllRevive(world.barred, world.now, Points() - {except}, old(world.View()), world.View())
    {
      hide Spread, Restarts, AllRevive;
      ghost var start := world.View();
      if deleted {
        NothingSpreads(world.barred, world.now, Points() - {except}, true, start);
        return;
      }
      NothingSpreads(world.barred, world.now, {}, respawnGuard, start);
      var todo := members.Keys;
      Reached(members.Keys, todo, except);
      while todo != {}
        invariant Valid() && respawnGuard == old(respawnGuard)
        invariant leaderGuid == old(leaderGuid) || leaderGuid == originalLeaderGuid
        invariant todo <= members.Keys
        invariant Spread(world.barred, world.now, members.Keys - todo - {except}, respawnGuard, start, world.View())
        decreases todo
      {
        Reached(members.Keys, todo, except);
        var g :| g in todo;
        if g != except {
          ghost var seen, before := members.Keys - todo - {except}, world.View();
          Respawn(world, g);
          SpreadToNext(world.barred, world.now, seen, g, respawnGuard, start, before, world.View());
        }
        todo := todo - {g};
      }
      Reached(members.Keys, todo, except);
      if except != originalLeaderGuid {
        ghost var seen, before := members.Keys - todo - {except}, world.View();
        Respawn(world, originalLeaderGuid);
        SpreadToNext(world.barred, world.now, seen, originalLeaderGuid, respawnGuard, start, before, world.View());
      }
      SpreadRevives(world.barred, world.now, Points() - {except}, respawnGuard, start, world.View());
    }

    /** Respawns one creature, if the map has it and it is due, unless a respawn is under way. */
    method Respawn(world: GameMap, g: Guid)
      requires Valid()
      modifies this`leaderGuid, this`respawnGuard, world`creatures, world`respawned, world`scripted
      decreases Depth(0)
      ensures Valid() && respawnGuard == old(respawnGuard)
      ensures leaderGuid == old(leaderGuid) || leaderGuid == originalLeaderGuid
      ensures Spread(world.barred, world.now, {g}, old(respawnGuard),
                     old(world.View()), world.View())
    {
      if g !in world.creatures || respawnGuard { return; }
      respawnGuard := true;
      if world.creatures[g].inWorld && world.creatures[g].respawnTime > world.now {
        if g !in world.barred {
          ghost var before := world.View();
          world.RespawnCreature(this, g);
          SpreadToOne(world.barred, world.now, g, before, world.View());
        }
      }
      respawnGuard := false;
    }

    // ---- Attacking together ----------------------------------------------------------------------

    method OnMemberAttackStart(world: GameMap, member: Guid)
      requires Valid()
      modifies this`assistGuard, world`creatures, world`assisted
      decreases AssistDepth(1)
      ensures assistGuard == old(assistGuard)
      ensures Called(Points() - {member}, old(assistGuard) || deleted || AggroTogether !in options,
                     old(world.creatures), old(world.assisted), world.creatures, world.assisted)
    {
      if deleted { return; }
      if AggroTogether !in options { return; }
      ghost var cs, log := world.creatures, world.assisted;
      assert Called({}, assistGuard, cs, log, cs, log);
      hide Called;
      var todo := members.Keys;
      ghost var seen: set<Guid> := {};
      while todo != {}
        invariant assistGuard == old(assistGuard)
        invariant todo <= members.Keys && seen == members.Keys - todo - {member}
        invariant Called(seen, assistGuard, cs, log, world.creatures, world.assisted)
        decreases todo
      {
        var g :| g in todo;
        todo := todo - {g};
        if g != member {
          ghost var cs1, log1 := world.creatures, world.assisted;
          assert AssistDepth(0) < old(AssistDepth(1));
          MemberAssist(world, g);
          CalledNext(seen, g, assistGuard, cs, log, cs1, log1, world.creatures, world.assisted);
          seen := seen + {g};
        }
      }
      if member != originalLeaderGuid {
        ghost var cs1, log1 := world.creatures, world.assisted;
        MemberAssist(world, originalLeaderGuid);
        CalledNext(seen, originalLeaderGuid, assistGuard, cs, log, cs1, log1, world.creatures, world.assisted);
        seen := seen + {originalLeaderGuid};
      }
      assert seen == Points() - {member};
    }

    method MemberAssist(world: GameMap, g: Guid)
      requires Valid()
      modifies this`assistGuard, world`creatures, world`assisted
      decreases AssistDepth(0)
      ensures assistGuard == old(assistGuard)
      ensures Called({g}, old(assistGuard), old(world.creatures), old(world.assisted), world.creatures, world.assisted)
    {
      if assistGuard { return; }
      if g !in world.creatures || !world.creatures[g].inWorld { return; }
      if world.creatures[g].state != Alive { return; }
      if world.creatures[g].fighting { return; }
      if world.creatures[g].ai {
        assistGuard := true;
        world.AttackedBy(this, g);
        assistGuard := false;
      }
    }

    // ---- Who leads -------------------------------------------------------------------------------

    method AddMember(guid: Guid, flags: set<Flag>)
      modifies this`members, this`options
      ensures if guid == leaderGuid then members == old(members) && options == old(options)
              else members == old(members)[guid := flags] && options == old(options) + flags
      ensures old(Valid()) ==> (Valid() <==> guid != originalLeaderGuid || leaderGuid == originalLeaderGuid)
    {
      if guid == leaderGuid { return; }
      members := members[guid := flags];
      options := options + flags;
    }

    method RemoveMember(guid: Guid)
      modifies this`members
      ensures members == if deleted then old(members) else old(members) - {guid}
    {
      if deleted { return; }
      members := members - {guid};
    }

    method RemoveTemporaryLeader(guid: Guid)
      modifies this`members, this`leaderGuid
      ensures deleted ==> members == old(members) && leaderGuid == old(leaderGuid)
      ensures !deleted ==> members == old(members) - {guid} && leaderGuid == originalLeaderGuid
    {
      if deleted { return; }
      leaderGuid := originalLeaderGuid;
      RemoveMember(guid);
    }

    /** A formation whose leader died gets the first other member that is alive, or waits for the original leader. */
    method OnMemberDied(world: GameMap, member: Guid)
      requires Valid() && member in world.creatures
      modifies this`leaderGuid
      ensures !deleted && member == old(leaderGuid) && Marches(world.creatures) ==>
                if exists g :: IsHeir(world.creatures, members.Keys, member, g)
                then IsHeir(world.creatures, members.Keys, member, leaderGuid)
                else leaderGuid == originalLeaderGuid
      ensures !deleted && member == old(leaderGuid) && FormationMove in options &&
              originalLeaderGuid in world.creatures && world.creatures[originalLeaderGuid].waypoints ==>
                forall g :: g in members && g != member && g in world.creatures ==>
                  (world.creatures[g].inWorld && world.creatures[g].state == Alive ==>
                     leaderGuid in members && leaderGuid <= g)
      ensures !(!deleted && member == old(leaderGuid) && Marches(world.creatures)) ==> leaderGuid == old(leaderGuid)
    {
      if deleted { return; }
      if member == leaderGuid && FormationMove in options {
        if originalLeaderGuid in world.creatures && world.creatures[originalLeaderGuid].waypoints {
          var heir: Option<Guid> := None;
          var todo := members.Keys;
          while todo != {} && heir == None
            invariant todo <= members.Keys
            invariant forall g, h :: g in members && g !in todo && h in todo ==> g < h
            invariant heir == None ==>
                        forall g :: g in members && g !in todo ==> g == member || !Present(world.creatures, g)
            invariant heir.Some? ==> IsHeir(world.creatures, members.Keys, member, heir.value)
            decreases todo
          {
            ghost var least := Least(todo);
            var g :| g in todo && forall h :: h in todo ==> g <= h;
            todo := todo - {g};
            if g != member && Present(world.creatures, g) { heir := Some(g); }
          }
          if heir.Some? {
            leaderGuid := heir.value;
          } else {
            leaderGuid := originalLeaderGuid;
          }
        }
      }
    }

    /** A formation that moves along the waypoints of its original leader. */
    predicate Marches(cs: Creatures)
      reads this`options
    {
      FormationMove in options && originalLeaderGuid in cs && cs[originalLeaderGuid].waypoints
    }

    /** The original leader breaks up the group; no creature keeps a pointer to it. */
    method DisbandGroup(world: GameMap)
      requires !deleted
      modifies this`deleted, this`members, world`creatures
      ensures deleted && members == map[]
      ensures Ungrouped(old(Points()), old(world.creatures), world.creatures)
    {
      deleted := true;
      ghost var cs := world.creatures;
      ghost var seen := {originalLeaderGuid};
      SetCreatureGroup(world, originalLeaderGuid, false);
      var todo := members.Keys;
      assert Ungrouped(seen, cs, world.creatures);
      hide Ungrouped;
      while todo != {}
        invariant deleted && members == old(members) && todo <= members.Keys
        invariant seen + todo == old(Points())
        invariant Ungrouped(seen, cs, world.creatures)
        decreases todo
      {
        var g :| g in todo;
        todo := todo - {g};
        ghost var cs1 := world.creatures;
        SetCreatureGroup(world, g, false);
        UngroupedNext(seen, g, cs, cs1, world.creatures);
        seen := seen + {g};
      }
      members := map[];
    }

    method SetCreatureGroup(world: GameMap, g: Guid, grouped: bool)
      modifies world`creatures
      ensures g in old(world.creatures) ==>
                world.creatures == old(world.creatures)[g := old(world.creatures[g]).(grouped := grouped)]
      ensures g !in old(world.creatures) ==> world.creatures == old(world.creatures)
      ensures !grouped ==> Ungrouped({g}, old(world.creatures), world.creatures)
    {
      if g in world.creatures {
        world.creatures := world.creatures[g := world.creatures[g].(grouped := grouped)];
      }
    }

    // ---- Whole runs ------------------------------------------------------------------------------

    /**
      The leader is the original leader, who stays on the map, or a member of a waypoint
      formation that is alive and in the world while the original leader is dead.
     */
    ghost predicate LeaderOk(cs: Creatures)
      reads this
    {
      !deleted ==>
        && originalLeaderGuid in cs
        && (leaderGuid == originalLeaderGuid ||
            (leaderGuid in members && Present(cs, leaderGuid) && Marches(cs) && cs[originalLeaderGuid].state != Alive))
    }

    /** Exactly the creatures of the group point to it. */
    ghost predicate Linked(cs: Creatures)
      reads this
    {
      forall g :: g in cs ==> (cs[g].grouped <==> !deleted && g in Points())
    }

    /** What holds whatever happens. */
    ghost predicate Steady(world: GameMap)
      reads this, world
    {
      && Valid() && !respawnGuard && !assistGuard && Linked(world.creatures)
      && (deleted || leaderGuid in Points())
    }

    ghost predicate Sound(world: GameMap)
      reads this, world
    {
      Steady(world) && (lost || LeaderOk(world.creatures))
    }

    lemma RespawnsKeepLeader(barred: set<Guid>, now: int, points: set<Guid>, blocked: bool, a: Scene, b: Scene)
      requires Spread(barred, now, points, blocked, a, b)
      ensures LeaderOk(a.cs) ==> LeaderOk(b.cs)
      ensures Linked(a.cs) ==> Linked(b.cs)
      ensures b.cs.Keys == a.cs.Keys
      ensures forall g :: g in a.cs && a.cs[g].state == Alive ==> b.cs[g].state == Alive
    {
    }

    /** A creature on the map can be taken off it without harm to the lead unless it leads or led the group. */
    lemma RemovalKeepsLeaderIff(cs: Creatures, g: Guid)
      requires LeaderOk(cs) && g in cs
      ensures LeaderOk(cs - {g}) <==> deleted || (g != leaderGuid && g != originalLeaderGuid)
    {
    }

    method Die(world: GameMap, g: Guid, delay: nat)
      requires Steady(world) && Present(world.creatures, g)
      modifies this`leaderGuid, world`creatures
      ensures Steady(world) && (old(LeaderOk(world.creatures)) ==> LeaderOk(world.creatures))
      ensures g in world.creatures && world.creatures ==
                old(world.creatures)[g := old(world.creatures[g])
                                            .(state := Corpse, respawnTime := world.now + delay, fighting := false)]
    {
      var c := world.creatures[g];
      world.creatures := world.creatures[g := c.(state := Corpse, respawnTime := world.now + delay, fighting := false)];
      if c.grouped { OnMemberDied(world, g); }
    }

    /** A dead creature's time has come. */
    method Revive(world: GameMap, g: Guid)
      requires Steady(world) && g in world.creatures && world.creatures[g].state == Dead
      modifies this`leaderGuid, this`respawnGuard, world`creatures, world`respawned, world`scripted
      ensures Steady(world)
      ensures old(LeaderOk(world.creatures)) || g == originalLeaderGuid ==> LeaderOk(world.creatures)
      ensures world.creatures.Keys == old(world.creatures.Keys)
      ensures !deleted && g == originalLeaderGuid ==> leaderGuid == originalLeaderGuid
      ensures g in world.creatures && world.creatures[g].state == Alive
      ensures Spread(world.barred, world.now, Points() - {g},
                     !old(world.creatures[g].grouped) || RespawnTogether !in options,
                     old(Scene(world.creatures[g := world.creatures[g].(state := Alive, respawnTime := 0)],
                               world.respawned, world.scripted)), world.View())
    {
      hide Spread;
      var c := world.creatures[g];
      world.creatures := world.creatures[g := c.(state := Alive, respawnTime := 0)];
      NothingSpreads(world.barred, world.now, Points() - {g}, true, world.View());
      if c.grouped { Announce(world, g); }
    }

    method Announce(world: GameMap, g: Guid)
      requires Steady(world) && !deleted && g in world.creatures
      modifies this`leaderGuid, this`respawnGuard, world`creatures, world`respawned, world`scripted
      ensures Steady(world) && (g == originalLeaderGuid ==> leaderGuid == originalLeaderGuid)
      ensures old(world.creatures[g]).state == Alive ==> g in world.creatures && world.creatures[g].state == Alive
      ensures old(LeaderOk(world.creatures)) || g == originalLeaderGuid ==> LeaderOk(world.creatures)
      ensures world.creatures.Keys == old(world.creatures.Keys)
      ensures Spread(world.barred, world.now, Points() - {g}, RespawnTogether !in options,
                     old(world.View()), world.View())
    {
      ghost var before := world.View();
      OnRespawn(world, g);
      RespawnsKeepLeader(world.barred, world.now, Points() - {g}, RespawnTogether !in options, before, world.View());
    }

    /** Whether the whole group respawns because the creature gives up its fight. */
    predicate EvadeRespawns(cs: Creatures, g: Guid)
      reads this
    {
      var masterEvade := g == originalLeaderGuid ||
                         (EvadeTogether in options && Present(cs, originalLeaderGuid) && cs[originalLeaderGuid].ai);
      !deleted && (RespawnAllOnAnyEvade in options || (RespawnAllOnMasterEvade in options && masterEvade))
    }

    /** In so many words: the group is there, and asked to respawn for anybody, or for the original leader. */
    lemma EvadeRespawnsIff(cs: Creatures, g: Guid)
      ensures deleted ==> !EvadeRespawns(cs, g)
      ensures !deleted && RespawnAllOnAnyEvade in options ==> EvadeRespawns(cs, g)
      ensures !deleted && RespawnAllOnAnyEvade !in options && RespawnAllOnMasterEvade in options ==>
                (EvadeRespawns(cs, g) <==>
                 g == originalLeaderGuid || (EvadeTogether in options && originalLeaderGuid in cs &&
                                             cs[originalLeaderGuid].inWorld && cs[originalLeaderGuid].state == Alive &&
                                             cs[originalLeaderGuid].ai))
      ensures RespawnAllOnAnyEvade !in options && RespawnAllOnMasterEvade !in options ==> !EvadeRespawns(cs, g)
    {
    }

    /** A creature gives up its fight. */
    method OnLeaveCombat(world: GameMap, g: Guid)
      requires Steady(world)
      modifies this`leaderGuid, this`respawnGuard, world`creatures, world`respawned, world`scripted
      ensures Steady(world) && (old(LeaderOk(world.creatures)) ==> LeaderOk(world.creatures))
      ensures world.creatures.Keys == old(world.creatures.Keys)
      ensures Spread(world.barred, world.now, Points() - {g}, !old(EvadeRespawns(world.creatures, g)),
                     old(world.View()), world.View())
    {
      hide Spread;
      ghost var before := world.View();
      NothingSpreads(world.barred, world.now, Points() - {g}, true, before);
      if deleted { return; }
      var masterEvade := g == originalLeaderGuid;
      if EvadeTogether in options && !masterEvade && Present(world.creatures, originalLeaderGuid) {
        masterEvade := world.creatures[originalLeaderGuid].ai;
      }
      if RespawnAllOnAnyEvade in options || (RespawnAllOnMasterEvade in options && masterEvade) {
        RespawnAll(world, g);
        RespawnsKeepLeader(world.barred, world.now, Points() - {g}, false, before, world.View());
      }
    }

    /** A creature comes to the map; one of the group finds it again. */
    method Enter(world: GameMap, g: Guid, c: Creature)
      requires Steady(world) && g !in world.creatures
      modifies this`leaderGuid, this`respawnGuard, world`creatures, world`respawned, world`scripted
      ensures Steady(world)
      ensures old(LeaderOk(world.creatures)) || (g == originalLeaderGuid && c.state == Alive) ==>
                LeaderOk(world.creatures)
      ensures world.creatures.Keys == old(world.creatures.Keys) + {g}
      ensures c.state == Alive ==> world.creatures[g].state == Alive
    {
      var mine := !deleted && (g in members || g == originalLeaderGuid);
      world.creatures := world.creatures[g := c.(grouped := mine)];
      if mine && c.state == Alive { Announce(world, g); }
    }

    method JoinCreatureGroup(world: GameMap, g: Guid, flags: set<Flag>)
      requires Steady(world) && !deleted && g in world.creatures
      modifies this`members, this`options, world`creatures
      ensures Steady(world) && (old(LeaderOk(world.creatures)) ==> LeaderOk(world.creatures))
      ensures if old(world.creatures[g].grouped) then members == old(members) && options == old(options)
              else members == old(members)[g := flags] && options == old(options) + flags
      ensures world.creatures.Keys == old(world.creatures.Keys)
    {
      if world.creatures[g].grouped { return; }
      AddMember(g, flags);
      SetCreatureGroup(world, g, true);
    }

    method LeaveCreatureGroup(world: GameMap, g: Guid)
      requires Steady(world) && g in world.creatures
      modifies this`deleted, this`members, this`leaderGuid, world`creatures
      ensures Steady(world) && (old(LeaderOk(world.creatures)) ==> LeaderOk(world.creatures))
      ensures g in world.creatures && !world.creatures[g].grouped && world.creatures.Keys == old(world.creatures.Keys)
      ensures g == originalLeaderGuid && old(world.creatures[g].grouped) ==>
                deleted && forall h :: h in world.creatures ==> !world.creatures[h].grouped
      ensures g != originalLeaderGuid && old(world.creatures[g].grouped) ==>
                && members == old(members) - {g} && !deleted
                && leaderGuid == if g == old(leaderGuid) then originalLeaderGuid else old(leaderGuid)
    {
      if world.creatures[g].grouped {
        if originalLeaderGuid == g {
          DisbandGroup(world);
        } else if leaderGuid == g {
          RemoveTemporaryLeader(g);
        } else {
          RemoveMember(g);
        }
        SetCreatureGroup(world, g, false);
      }
    }

    /** Somebody takes the leader, or the original leader, off the map without a report. */
    predicate TakesLeader(h: Happening)
      reads this
    {
      h.Vanishes? && !deleted && (h.g == leaderGuid || h.g == originalLeaderGuid)
    }

    /** The original leader comes to life. */
    predicate BringsLeader(world: GameMap, h: Happening)
      reads this, world
    {
      match h
      case Revives(g) => g == originalLeaderGuid && MayRevive(world, g)
      case Enters(g, c) => g == originalLeaderGuid && g !in world.creatures && c.state == Alive
      case _ => false
    }

    predicate MayRevive(world: GameMap, g: Guid)
      reads world
    {
      g in world.creatures && world.creatures[g].state == Dead && world.creatures[g].respawnTime <= world.now
    }

    /**
      One thing that happens on the map; one that cannot happen is passed over. The lead is lost
      if the leader or the original leader is taken off the map, until the original leader lives.
     */
    method Handle(world: GameMap, h: Happening)
      requires Sound(world)
      modifies this, world
      ensures Sound(world)
      ensures lost == (!old(BringsLeader(world, h)) && (old(TakesLeader(h)) || old(lost)))
      ensures world.creatures.Keys == Arrived(old(world.creatures.Keys), h)
      ensures TakesPlace(h, old(deleted), old(world.now), old(world.creatures), world.now, world.creatures)
      ensures h.Attacks? ==> Called(Points() - {h.g}, deleted || AggroTogether !in options,
                                    old(world.creatures), old(world.assisted), world.creatures, world.assisted)
      ensures h.Evades? ==> Spread(world.barred, world.now, Points() - {h.g}, !old(EvadeRespawns(world.creatures, h.g)),
                                   old(world.View()), world.View())
    {
      ghost var lost' := !BringsLeader(world, h) && (TakesLeader(h) || lost);
      Happen(world, h);
      lost := lost';
    }

    method Happen(world: GameMap, h: Happening)
      requires Steady(world)
      modifies this`leaderGuid, this`members, this`options, this`deleted, this`respawnGuard, this`assistGuard, world
      ensures Steady(world)
      ensures old(BringsLeader(world, h)) || (old(LeaderOk(world.creatures)) && !old(TakesLeader(h))) ==>
                LeaderOk(world.creatures)
      ensures world.creatures.Keys == Arrived(old(world.creatures.Keys), h)
      ensures TakesPlace(h, old(deleted), old(world.now), old(world.creatures), world.now, world.creatures)
      ensures h.Attacks? ==> Called(Points() - {h.g}, deleted || AggroTogether !in options,
                                    old(world.creatures), old(world.assisted), world.creatures, world.assisted)
      ensures h.Evades? ==> Spread(world.barred, world.now, Points() - {h.g}, !old(EvadeRespawns(world.creatures, h.g)),
                                   old(world.View()), world.View())
    {
      match h
      case Attacks(g) =>
        OnMemberAttackStart(world, g);
      case Evades(g) =>
        hide Spread, EvadeRespawns;
        OnLeaveCombat(world, g);
      case _ =>
        hide Spread, Called, EvadeRespawns;
        HappenToOne(world, h);
    }

    /** Whatever is no matter of the whole group at once. */
    method HappenToOne(world: GameMap, h: Happening)
      requires Steady(world) && !h.Attacks? && !h.Evades?
      modifies this`leaderGuid, this`members, this`options, this`deleted, this`respawnGuard, this`assistGuard, world
      ensures Steady(world)
      ensures old(BringsLeader(world, h)) || (old(LeaderOk(world.creatures)) && !old(TakesLeader(h))) ==>
                LeaderOk(world.creatures)
      ensures world.creatures.Keys == Arrived(old(world.creatures.Keys), h)
      ensures TakesPlace(h, old(deleted), old(world.now), old(world.creatures), world.now, world.creatures)
    {
      hide Spread;
      match h
      case Dies(g, delay) =>
        if Present(world.creatures, g) { Die(world, g, delay); }
      case Decays(g, respawnTime) =>
        if g in world.creatures && world.creatures[g].state == Corpse {
          world.creatures := world.creatures[g := world.creatures[g].(state := Dead, respawnTime := respawnTime)];
        }
      case Revives(g) =>
        if MayRevive(world, g) { Revive(world, g); }
      case Enters(g, c) =>
        if g !in world.creatures { Enter(world, g, c); }
      case Vanishes(g) =>
        world.creatures := world.creatures - {g};
      case Joins(g, flags) =>
        if g in world.creatures && !deleted { JoinCreatureGroup(world, g, flags); }
      case Leaves(g) =>
        if g in world.creatures { LeaveCreatureGroup(world, g); }
      case Waits(seconds) =>
        world.now := world.now + seconds;
    }

    method Run(world: GameMap, run: seq<Happening>)
      requires Sound(world)
      modifies this, world
      ensures Sound(world)
      ensures !old(lost) && (forall h :: h in run ==> !h.Vanishes?) ==> !lost
      ensures originalLeaderGuid !in old(world.creatures) && LeaderComes(run, originalLeaderGuid) ==> !lost
    {
      for i := 0 to |run|
        invariant Sound(world)
        invariant !old(lost) && (forall h :: h in run ==> !h.Vanishes?) ==> !lost
        invariant originalLeaderGuid !in old(world.creatures) && FirstAfter(run, i, originalLeaderGuid) ==>
                    originalLeaderGuid !in world.creatures
        invariant originalLeaderGuid !in old(world.creatures) ==>
                    forall k :: 0 <= k < i && ComesToStay(run, k, originalLeaderGuid) ==> !lost
      {
        hide Sound;
        assert run[i] in run;
        Handle(world, run[i]);
      }
    }

    /** The rows of the database, in any order; one for the leader himself is ignored. */
    method Load(rows: seq<(Guid, set<Flag>)>)
      requires Valid() && leaderGuid == originalLeaderGuid
      modifies this`members, this`options
      ensures Valid()
      ensures forall g :: g in members <==>
                g in old(members) || (g != leaderGuid && exists i :: 0 <= i < |rows| && rows[i].0 == g)
    {
      for i := 0 to |rows|
        invariant Valid()
        invariant forall g :: g in members <==>
                    g in old(members) || (g != leaderGuid && exists k :: 0 <= k < i && rows[k].0 == g)
      {
        AddMember(rows[i].0, rows[i].1);
      }
    }
  }

  datatype Happening = Dies(g: Guid, delay: nat) | Decays(g: Guid, respawnTime: int) | Revives(g: Guid)
                     | Enters(g: Guid, c: Creature) | Vanishes(g: Guid)
                     | Joins(g: Guid, flags: set<Flag>) | Leaves(g: Guid)
                     | Attacks(g: Guid) | Evades(g: Guid) | Waits(seconds: nat)

  /** The creature has not come to the map before the k-th thing happens. */
  predicate FirstAfter(run: seq<Happening>, k: nat, g: Guid)
    requires k <= |run|
  {
    forall j :: 0 <= j < k ==> !(run[j].Enters? && run[j].g == g)
  }

  /** The k-th happening brings the creature to the map for the first time, alive; nobody is taken off it later. */
  predicate ComesToStay(run: seq<Happening>, k: nat, g: Guid)
    requires k < |run|
  {
    && run[k].Enters? && run[k].g == g && run[k].c.state == Alive && FirstAfter(run, k, g)
    && forall j :: k < j < |run| ==> !run[j].Vanishes?
  }

  ghost predicate LeaderComes(run: seq<Happening>, g: Guid) {
    exists k :: 0 <= k < |run| && ComesToStay(run, k, g)
  }

  /** What happens takes place, unless it cannot. */
  predicate TakesPlace(h: Happening, deleted: bool, now: int, cs: Creatures, now': int, cs': Creatures) {
    match h
    case Dies(g, delay) => g in cs && cs[g].inWorld && cs[g].state == Alive ==>
      g in cs' && cs'[g].state == Corpse && cs'[g].respawnTime == now + delay
    case Decays(g, respawnTime) => g in cs && cs[g].state == Corpse ==>
      g in cs' && cs'[g].state == Dead && cs'[g].respawnTime == respawnTime
    case Revives(g) => g in cs && cs[g].state == Dead && cs[g].respawnTime <= now ==> g in cs' && cs'[g].state == Alive
    case Enters(g, c) => g !in cs && c.state == Alive ==> g in cs' && cs'[g].state == Alive
    case Vanishes(g) => g !in cs'
    case Joins(g, _) => g in cs && !deleted ==> g in cs' && cs'[g].grouped
    case Leaves(g) => g in cs ==> g in cs' && !cs'[g].grouped
    case Waits(seconds) => now' == now + seconds
    case _ => true
  }

  /** Who is on the map afterwards. */
  function Arrived(cs: set<Guid>, h: Happening): set<Guid> {
    match h
    case Enters(g, _) => cs + {g}
    case Vanishes(g) => cs - {g}
    case _ => cs
  }

  /** A group that is formed around a creature of the map stays sound whatever happens. */
  method FormAndRun(world: GameMap, leader: Guid, run: seq<Happening>) returns (group: CreatureGroup)
    requires leader in world.creatures
    requires forall g :: g in world.creatures ==> !world.creatures[g].grouped
    modifies world
    ensures group.originalLeaderGuid == leader && group.Sound(world)
    ensures (forall h :: h in run ==> !h.Vanishes?) ==> group.LeaderOk(world.creatures)
  {
    group := new CreatureGroup(leader);
    group.SetCreatureGroup(world, leader, true);
    group.Run(world, run);
  }

  /**
    So does a group that is loaded before any of its creatures is on the map. Its leader is in
    place from the moment he comes to the map alive, until somebody is taken off it.
   */
  method LoadAndRun(world: GameMap, leader: Guid, rows: seq<(Guid, set<Flag>)>, run: seq<Happening>)
    returns (group: CreatureGroup)
    requires leader !in world.creatures && forall i :: 0 <= i < |rows| ==> rows[i].0 !in world.creatures
    requires forall g :: g in world.creatures ==> !world.creatures[g].grouped
    modifies world
    ensures group.originalLeaderGuid == leader && group.Sound(world)
    ensures LeaderComes(run, leader) ==> group.LeaderOk(world.creatures)
  {
    group := new CreatureGroup(leader);
    group.Load(rows);
    group.lost := true;
    group.Run(world, run);
  }
}
