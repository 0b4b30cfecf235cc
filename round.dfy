/**
 * A round of a minigame: its stage machine (WAITING, PREPARING, PLAYING), the once-per-second
 * timer, the roster of participants with its admission rules, and the arena boundary that keeps
 * participants inside.
 *
 * The game server is abstracted: a player is online when its name is a key of the `online` map,
 * which gives the player's current location; the scheduler's task id is an int passed in; every
 * notification the round sends to the server (events, teleports, chat messages, scheduling) is
 * appended to the ghost `events` of a `Host`.
 */
module Rounds {
  import opened Wrappers
  import opened Exceptions

  datatype Stage = WAITING | PREPARING | PLAYING

  /** A position in a world. Coordinates are only compared and copied, never computed with. */
  datatype Location = Location(world: string, x: real, y: real, z: real, pitch: real, yaw: real)

  /** `new Location(world, x, y, z)`: pitch and yaw are zero. */
  function At(world: string, x: real, y: real, z: real): Location {
    Location(world, x, y, z, 0.0, 0.0)
  }

  /**
   * The spawns a round loads from its arena's record: each at the stored coordinates in the
   * arena's world, facing pitch 0 and yaw 0. The load tests for an orientation under the arena's
   * own section (`<arena>.<k>.pitch`), while the store keeps it under `spawns.<k>`, so the stored
   * orientation is never read.
   */
  function LoadedSpawns(world: string, stored: seq<Location>): (spawns: seq<Location>)
    ensures |spawns| == |stored|
    ensures forall i :: 0 <= i < |stored| ==> spawns[i] == At(world, stored[i].x, stored[i].y, stored[i].z)
    decreases |stored|
  {
    if |stored| == 0 then []
    else
      var last := stored[|stored| - 1];
      LoadedSpawns(world, stored[..|stored| - 1]) + [At(world, last.x, last.y, last.z)]
  }

  /** A stored spawn is loaded as it was exactly when it is in the arena's world and faces pitch 0 and yaw 0. */
  lemma LoadedAsStoredIff(world: string, stored: seq<Location>)
    ensures LoadedSpawns(world, stored) == stored <==>
      forall i :: 0 <= i < |stored| ==> stored[i].world == world && stored[i].pitch == 0.0 && stored[i].yaw == 0.0
  {
    var loaded := LoadedSpawns(world, stored);
    if forall i :: 0 <= i < |stored| ==> stored[i].world == world && stored[i].pitch == 0.0 && stored[i].yaw == 0.0 {
      assert forall i :: 0 <= i < |stored| ==> loaded[i] == stored[i];
    }
  }

  datatype Point = Point(x: real, y: real, z: real)

  /**
   * What the arena store holds for one arena: its world, its spawns, the `boundaries` flag and,
   * when both corners were given, the normalised minimum and maximum corners.
   */
  datatype ArenaRecord = ArenaRecord(world: string, spawns: seq<Location>, boundaries: bool, corners: Option<(Point, Point)>)

  /** The settings a round reads from its minigame's configuration manager. */
  datatype Config = Config(
    allowJoinWhilePreparing: bool,
    allowJoinInProgress: bool,
    spectateOnJoin: bool,
    randomSpawning: bool,
    minPlayers: int,
    maxPlayers: int,
    prepareTime: int,
    playingTime: int,
    damageAllowed: bool,
    pvpAllowed: bool,
    rollbackEnabled: bool,
    defaultExit: Location)

  /** The state of a participant object that the round reads and writes. */
  datatype Participant = Participant(name: string, arena: Option<string>, spectating: bool, team: string)

  /** What `removePlayer` leaves in a participant it takes out of the round. */
  function Reset(p: Participant): Participant {
    p.(arena := None, spectating := false)
  }

  /** Notifications to the server, in the order they are made. */
  datatype Event =
    | RoundPreparing(arena: string)
    | RoundStarted(arena: string)
    | RoundTicked(arena: string, oldTime: int, stageChange: bool)
    | RoundEnded(arena: string, timeUp: bool)
    | RolledBack(arena: string)
    | PlayerJoined(arena: string, name: string)
    | PlayerLeft(arena: string, participant: Participant)
    | PlayerHitBorder(arena: string, name: string)
    | Teleported(name: string, to: Location)
    | TimerScheduled(handle: int)
    | TimerCancelled(handle: int)
    | Message(name: string, key: string)

  /** The server side the round talks to. */
  class Host {
    ghost var events: seq<Event>

    constructor ()
      ensures events == []
    {
      events := [];
    }
  }

  // ---------------------------------------------------------------------------
  // The timer, on values

  /** The stage and the time counter, the part of a round the timer drives. */
  datatype Clock = Clock(stage: Stage, time: int)

  datatype TimerAction = Advance | Promote | Expire

  /** The limit the timer compares against: the playing time while playing, the preparation time otherwise. */
  function Limit(c: Clock, prepareTime: int, playingTime: int): int {
    if c.stage == PLAYING then playingTime else prepareTime
  }

  /** What one run of the timer task does with the clock. */
  function Action(c: Clock, prepareTime: int, playingTime: int): TimerAction {
    var limit := Limit(c, prepareTime, playingTime);
    if c.time >= limit && limit > 0 then
      if c.stage == PREPARING then Promote else Expire
    else Advance
  }

  /** The clock after one run of the timer task. */
  function TimerStep(c: Clock, prepareTime: int, playingTime: int): Clock {
    match Action(c, prepareTime, playingTime)
    case Advance => Clock(c.stage, c.time + 1)
    case Promote => Clock(PLAYING, 0)
    case Expire => Clock(WAITING, -1)
  }

  /** The clock after `n` runs of the timer task. */
  function Run(c: Clock, prepareTime: int, playingTime: int, n: nat): Clock
    decreases n
  {
    if n == 0 then c else Run(TimerStep(c, prepareTime, playingTime), prepareTime, playingTime, n - 1)
  }

  /** The clock `start()` sets from WAITING. */
  function StartClock(prepareTime: int): Clock {
    Clock(if prepareTime > 0 then PREPARING else PLAYING, 0)
  }

  /** `getRemainingTime()`: seconds left in the current stage, or -1. */
  function Remaining(c: Clock, prepareTime: int, playingTime: int): (r: int)
    ensures c.stage != WAITING && Limit(c, prepareTime, playingTime) > 0 ==> r == Limit(c, prepareTime, playingTime) - c.time
    ensures c.stage == WAITING || Limit(c, prepareTime, playingTime) <= 0 ==> r == -1
  {
    match c.stage
    case PREPARING => if prepareTime > 0 then prepareTime - c.time else -1
    case PLAYING => if playingTime > 0 then playingTime - c.time else -1
    case WAITING => -1
  }

  /** While time is left in a limited stage, each timer run takes exactly one second off. */
  lemma RemainingCountsDown(c: Clock, prepareTime: int, playingTime: int)
    requires c.stage != WAITING && Limit(c, prepareTime, playingTime) > 0
    requires 0 <= c.time < Limit(c, prepareTime, playingTime)
    ensures Remaining(c, prepareTime, playingTime) > 0
    ensures TimerStep(c, prepareTime, playingTime).stage == c.stage
    ensures Remaining(TimerStep(c, prepareTime, playingTime), prepareTime, playingTime) == Remaining(c, prepareTime, playingTime) - 1
  {
  }

  lemma {:induction false} RunAdd(c: Clock, prepareTime: int, playingTime: int, a: nat, b: nat)
    ensures Run(c, prepareTime, playingTime, a + b) == Run(Run(c, prepareTime, playingTime, a), prepareTime, playingTime, b)
    decreases a
  {
    if a > 0 {
      RunAdd(TimerStep(c, prepareTime, playingTime), prepareTime, playingTime, a - 1, b);
    }
  }

  /** A limited playing stage counts up to its limit and the run after that ends the round. */
  lemma {:induction false} PlayingRunsOut(t: int, prepareTime: int, playingTime: int)
    requires playingTime > 0 && 0 <= t <= playingTime
    ensures Run(Clock(PLAYING, t), prepareTime, playingTime, playingTime - t) == Clock(PLAYING, playingTime)
    ensures TimerStep(Clock(PLAYING, playingTime), prepareTime, playingTime) == Clock(WAITING, -1)
    decreases playingTime - t
  {
    if t < playingTime {
      PlayingRunsOut(t + 1, prepareTime, playingTime);
    }
  }

  /** A limited preparation stage counts up to its limit and the run after that starts play at time 0. */
  lemma {:induction false} PreparingRunsOut(t: int, prepareTime: int, playingTime: int)
    requires prepareTime > 0 && 0 <= t <= prepareTime
    ensures Run(Clock(PREPARING, t), prepareTime, playingTime, prepareTime - t + 1) == Clock(PLAYING, 0)
    decreases prepareTime - t
  {
    if t < prepareTime {
      PreparingRunsOut(t + 1, prepareTime, playingTime);
    }
  }

  /**
   * A started round with a playing limit ends after exactly
   * (prepareTime + 1 when there is a preparation stage) + playingTime + 1 timer runs.
   */
  lemma WholeRound(prepareTime: int, playingTime: int)
    requires playingTime > 0
    ensures Run(StartClock(prepareTime), prepareTime, playingTime,
                (if prepareTime > 0 then prepareTime + 1 else 0) + playingTime + 1) == Clock(WAITING, -1)
  {
    var p: nat := if prepareTime > 0 then prepareTime + 1 else 0;
    if prepareTime > 0 {
      PreparingRunsOut(0, prepareTime, playingTime);
    }
    assert Run(StartClock(prepareTime), prepareTime, playingTime, p) == Clock(PLAYING, 0);
    PlayingRunsOut(0, prepareTime, playingTime);
    RunAdd(StartClock(prepareTime), prepareTime, playingTime, p, playingTime);
    RunAdd(StartClock(prepareTime), prepareTime, playingTime, p + playingTime, 1);
  }

  /** Without a playing limit the round never ends by itself: the timer only counts up. */
  lemma {:induction false} UnlimitedPlayNeverEnds(t: int, prepareTime: int, playingTime: int, n: nat)
    requires playingTime <= 0
    ensures Run(Clock(PLAYING, t), prepareTime, playingTime, n) == Clock(PLAYING, t + n)
    decreases n
  {
    if n > 0 {
      UnlimitedPlayNeverEnds(t + 1, prepareTime, playingTime, n - 1);
    }
  }

  // ---------------------------------------------------------------------------
  // The arena boundary, on values

  /**
   * A coordinate of an arena bound. An arena stored with only one corner has NaN bounds, and
   * every comparison with NaN is false.
   */
  datatype Coord = Num(v: real) | NaN

  /** A bound of the arena: a world and three coordinates, each possibly NaN. */
  datatype Bound = Bound(world: string, x: Coord, y: Coord, z: Coord)

  /** A bound with the given coordinates. */
  function BoundAt(world: string, x: real, y: real, z: real): Bound {
    Bound(world, Num(x), Num(y), Num(z))
  }

  /** The bounds of an arena stored with one corner. */
  function Unset(world: string): Bound {
    Bound(world, NaN, NaN, NaN)
  }

  /** `a < c` on doubles: false when `c` is NaN. */
  predicate Below(a: real, c: Coord) {
    c.Num? && a < c.v
  }

  /** `a > c` on doubles: false when `c` is NaN. */
  predicate Beyond(a: real, c: Coord) {
    c.Num? && a > c.v
  }

  /** No test of the boundary pass fires for `l`. */
  predicate InBox(l: Location, min: Bound, max: Bound) {
    !Below(l.x, min.x) && !Beyond(l.x, max.x)
    && !Below(l.y, min.y) && !Beyond(l.y, max.y)
    && !Below(l.z, min.z) && !Beyond(l.z, max.z)
  }

  /**
   * The "above" tests on y and z send the participant to the minimum coordinate, so those
   * minima must be numbers whenever the maxima are. Every round keeps this.
   */
  predicate Teleportable(min: Bound, max: Bound) {
    (max.y.Num? ==> min.y.Num?) && (max.z.Num? ==> min.z.Num?)
  }

  /**
   * Where the timer task sends a participant standing at `l`: only the first violated test,
   * in the order x below, x above, y below, y above, z below, z above, is corrected, and the
   * "above" tests on y and z move the participant to the minimum, not the maximum.
   */
  function Correction(l: Location, min: Bound, max: Bound): Option<Location>
    requires Teleportable(min, max)
  {
    if Below(l.x, min.x) then Some(At(l.world, min.x.v, l.y, l.z))
    else if Beyond(l.x, max.x) then Some(At(l.world, max.x.v, l.y, l.z))
    else if Below(l.y, min.y) then Some(At(l.world, l.x, min.y.v, l.z))
    else if Beyond(l.y, max.y) then Some(At(l.world, l.x, min.y.v, l.z))
    else if Below(l.z, min.z) then Some(At(l.world, l.x, l.y, min.z.v))
    else if Beyond(l.z, max.z) then Some(At(l.world, l.x, l.y, min.z.v))
    else None
  }

  /** A participant is moved exactly when standing outside the box. */
  lemma CorrectionIffOutside(l: Location, min: Bound, max: Bound)
    requires Teleportable(min, max)
    ensures Correction(l, min, max).None? <==> InBox(l, min, max)
  {
  }

  /** Bounds left NaN by a one-corner arena hold everyone: nobody is ever moved. */
  lemma UnsetBoundsHoldEveryone(l: Location, world: string)
    ensures InBox(l, Unset(world), Unset(world))
    ensures Correction(l, Unset(world), Unset(world)).None?
  {
  }

  /** Number of axes on which `l` lies outside the box. */
  function Violations(l: Location, min: Bound, max: Bound): nat {
    (if Below(l.x, min.x) || Beyond(l.x, max.x) then 1 else 0)
    + (if Below(l.y, min.y) || Beyond(l.y, max.y) then 1 else 0)
    + (if Below(l.z, min.z) || Beyond(l.z, max.z) then 1 else 0)
  }

  /** On every axis where both bounds are numbers, the minimum is at most the maximum. */
  predicate Ordered(min: Bound, max: Bound) {
    (min.x.Num? && max.x.Num? ==> min.x.v <= max.x.v)
    && (min.y.Num? && max.y.Num? ==> min.y.v <= max.y.v)
    && (min.z.Num? && max.z.Num? ==> min.z.v <= max.z.v)
  }

  /**
   * For an ordered box, each correction puts the participant back in range on exactly one
   * axis, so at most three runs of the timer bring a participant who stays still inside.
   */
  lemma CorrectionFixesOneAxis(l: Location, min: Bound, max: Bound)
    requires Teleportable(min, max) && Ordered(min, max)
    requires Correction(l, min, max).Some?
    ensures Violations(Correction(l, min, max).value, min, max) == Violations(l, min, max) - 1
    ensures Correction(l, min, max).value.world == l.world
  {
  }

  /** Above the box on y, the participant lands on the floor of the box, not its ceiling. */
  lemma AboveGoesToFloor(l: Location, min: Bound, max: Bound)
    requires Teleportable(min, max)
    requires !Below(l.x, min.x) && !Beyond(l.x, max.x) && !Below(l.y, min.y) && Beyond(l.y, max.y)
    ensures Correction(l, min, max) == Some(At(l.world, l.x, min.y.v, l.z))
  {
  }

  /** The notifications of the boundary pass for the participants in `order`. */
  function BorderEvents(arena: string, order: seq<string>, online: map<string, Location>, min: Bound, max: Bound): seq<Event>
    requires Teleportable(min, max)
    requires forall n :: n in order ==> n in online
    decreases |order|
  {
    if |order| == 0 then []
    else
      var n := order[|order| - 1];
      BorderEvents(arena, order[..|order| - 1], online, min, max)
      + match Correction(online[n], min, max)
        case None => []
        case Some(l) => [Teleported(n, l), PlayerHitBorder(arena, n)]
  }

  /** Number of border notifications in a sequence of events. */
  function Hits(events: seq<Event>): nat
    decreases |events|
  {
    if |events| == 0 then 0
    else Hits(events[..|events| - 1]) + (if events[|events| - 1].PlayerHitBorder? then 1 else 0)
  }

  lemma {:induction false} HitsAppend(a: seq<Event>, b: seq<Event>)
    ensures Hits(a + b) == Hits(a) + Hits(b)
    decreases |b|
  {
    if |b| > 0 {
      assert (a + b)[..|a + b| - 1] == a + b[..|b| - 1];
      HitsAppend(a, b[..|b| - 1]);
    } else {
      assert a + b == a;
    }
  }

  /** Number of participants in `order` standing outside the box. */
  function Outside(order: seq<string>, online: map<string, Location>, min: Bound, max: Bound): nat
    requires forall n :: n in order ==> n in online
    decreases |order|
  {
    if |order| == 0 then 0
    else Outside(order[..|order| - 1], online, min, max)
         + (if InBox(online[order[|order| - 1]], min, max) then 0 else 1)
  }

  /** Exactly one border notification per participant the boundary pass moves. */
  lemma {:induction false} OneHitPerCorrection(arena: string, order: seq<string>, online: map<string, Location>, min: Bound, max: Bound)
    requires Teleportable(min, max)
    requires forall n :: n in order ==> n in online
    ensures Hits(BorderEvents(arena, order, online, min, max)) == Outside(order, online, min, max)
    decreases |order|
  {
    if |order| > 0 {
      var n := order[|order| - 1];
      OneHitPerCorrection(arena, order[..|order| - 1], online, min, max);
      var tail := match Correction(online[n], min, max)
        case None => []
        case Some(l) => [Teleported(n, l), PlayerHitBorder(arena, n)];
      HitsAppend(BorderEvents(arena, order[..|order| - 1], online, min, max), tail);
      CorrectionIffOutside(online[n], min, max);
      if Correction(online[n], min, max).Some? {
        assert Hits(tail) == Hits([Teleported(n, Correction(online[n], min, max).value)]) + 1;
      }
    }
  }

  // ---------------------------------------------------------------------------
  // Roster helpers

  /** Names of the participants whose spectating flag is `spectating`. */
  function NamesWhere(roster: map<string, Participant>, spectating: bool): set<string> {
    set n | n in roster && roster[n].spectating == spectating
  }

  /** Alive and spectating participants partition the roster. */
  lemma AliveAndSpectatingPartition(roster: map<string, Participant>)
    ensures |NamesWhere(roster, false)| + |NamesWhere(roster, true)| == |roster|
  {
    assert NamesWhere(roster, false) + NamesWhere(roster, true) == roster.Keys;
  }

  /** The participants an `end()` leaves behind: those who are not online. */
  function Offline(roster: map<string, Participant>, online: map<string, Location>): map<string, Participant> {
    map n | n in roster && n !in online :: roster[n]
  }

  /** The roster part-way through `end()`: the names still to visit, and the visited ones that were offline. */
  function Kept(roster: map<string, Participant>, remaining: set<string>, online: map<string, Location>): map<string, Participant> {
    map n | n in roster && (n in remaining || n !in online) :: roster[n]
  }

  lemma KeptStep(roster: map<string, Participant>, remaining: set<string>, online: map<string, Location>, n: string)
    requires n in remaining && n in roster
    ensures (if n in online then Kept(roster, remaining, online) - {n} else Kept(roster, remaining, online))
            == Kept(roster, remaining - {n}, online)
  {
  }

  /** `order` lists, each once, exactly the names of `all` that are no longer `remaining`. */
  ghost predicate Visited(all: set<string>, remaining: set<string>, order: seq<string>) {
    remaining <= all && Distinct(order) && forall m :: m in order <==> m in all && m !in remaining
  }

  /** Visiting one more name keeps the visited names distinct and exactly the ones not remaining. */
  lemma VisitStep(all: set<string>, remaining: set<string>, order: seq<string>, n: string)
    requires n in remaining && Visited(all, remaining, order)
    ensures Visited(all, remaining - {n}, order + [n])
  {
  }

  lemma KeptAll(roster: map<string, Participant>, online: map<string, Location>)
    ensures Kept(roster, roster.Keys, online) == roster
    ensures Kept(roster, {}, online) == Offline(roster, online)
  {
  }

  /** What `removePlayer(name, exit)` tells the server about a participant. */
  function LeaveEvents(arena: string, name: string, p: Participant, online: map<string, Location>, exit: Location): seq<Event> {
    if name in online then [Teleported(name, exit), PlayerLeft(arena, Reset(p))]
    else [PlayerLeft(arena, p)]
  }

  /** The notifications of removing the participants in `order`, one after the other. */
  function LeaveAll(arena: string, order: seq<string>, roster: map<string, Participant>, online: map<string, Location>, exit: Location): seq<Event>
    requires forall n :: n in order ==> n in roster
    decreases |order|
  {
    if |order| == 0 then []
    else
      var n := order[|order| - 1];
      LeaveAll(arena, order[..|order| - 1], roster, online, exit) + LeaveEvents(arena, n, roster[n], online, exit)
  }

  lemma AppendAssociative(a: seq<Event>, b: seq<Event>, c: seq<Event>)
    ensures (a + b) + c == a + (b + c)
  {
  }

  lemma EndAppends(before: seq<Event>, cancel: seq<Event>, leave: seq<Event>, ended: seq<Event>, rolled: seq<Event>)
    ensures ((before + cancel) + leave) + (ended + rolled) == before + (((cancel + leave) + ended) + rolled)
  {
    AppendAssociative(before + cancel, leave, ended + rolled);
    AppendAssociative(before, cancel, leave + (ended + rolled));
    AppendAssociative(cancel, leave, ended + rolled);
    AppendAssociative(cancel + leave, ended, rolled);
  }

  lemma LeaveAllStep(arena: string, order: seq<string>, n: string, roster: map<string, Participant>, online: map<string, Location>, exit: Location)
    requires (forall m :: m in order ==> m in roster) && n in roster
    ensures LeaveAll(arena, order + [n], roster, online, exit) == LeaveAll(arena, order, roster, online, exit) + LeaveEvents(arena, n, roster[n], online, exit)
  {
    assert (order + [n])[..|order|] == order;
  }

  /** The chat message a join is refused with because of the stage, if any. */
  function JoinRefusal(stage: Stage, config: Config): Option<string> {
    if stage == PREPARING && !config.allowJoinWhilePreparing then Some("no-join-prepare")
    else if stage == PLAYING && !config.allowJoinInProgress then Some("no-join-progress")
    else None
  }

  /**
   * The participant `addPlayer` puts in the roster: the one found in the minigame (its arena set
   * to this one) or else the newly constructed one, spectating exactly when it joins a started
   * round and the configuration says joiners spectate.
   */
  function Entrant(found: Option<Participant>, created: Option<Participant>, arena: string, stage: Stage, config: Config): Participant
    requires found.Some? || created.Some?
  {
    var p := if found.Some? then found.value.(arena := Some(arena)) else created.value;
    p.(spectating := (stage == PREPARING || stage == PLAYING) && config.spectateOnJoin)
  }

  /** The notifications of `start()` from WAITING. */
  function StartEvents(arena: string, prepareTime: int, handle: int): seq<Event> {
    [if prepareTime > 0 then RoundPreparing(arena) else RoundStarted(arena), TimerScheduled(handle)]
  }

  /**
   * The notifications of `end(timeUp)`: the timer cancelled when one runs, the participants in
   * `order` removed, the end announced, and the arena rolled back when the configuration says so.
   */
  function EndEvents(arena: string, handle: int, order: seq<string>, roster: map<string, Participant>,
                     online: map<string, Location>, exit: Location, timeUp: bool, rollback: bool): seq<Event>
    requires forall n :: n in order ==> n in roster
  {
    (if handle != -1 then [TimerCancelled(handle)] else [])
    + LeaveAll(arena, order, roster, online, exit)
    + [RoundEnded(arena, timeUp)]
    + (if rollback then [RolledBack(arena)] else [])
  }

  /**
   * The notifications of the clock part of a timer run: none when it counts up, the start of
   * play when preparation is over, and those of `end(true)` when play runs out.
   */
  function ClockEvents(action: TimerAction, arena: string, handle: int, order: seq<string>, roster: map<string, Participant>,
                       online: map<string, Location>, exit: Location, rollback: bool): seq<Event>
    requires forall n :: n in order ==> n in roster
  {
    match action
    case Advance => []
    case Promote => [RoundStarted(arena)]
    case Expire => EndEvents(arena, handle, order, roster, online, exit, true, rollback)
  }

  datatype JoinOutcome = Joined(spawnIndex: nat, started: bool) | Refused | Failed(error: Error)

  class Round {
    const plugin: string
    const arena: string
    const world: string
    const config: Config
    const host: Host
    const prepareTime: int
    const roundTime: int
    const maxPlayers: int
    const exitLocation: Location
    const damage: bool
    const pvp: bool

    var stage: Stage
    var time: int
    var timerHandle: int
    var spawns: seq<Location>
    var minBound: Option<Bound>
    var maxBound: Option<Bound>
    var players: map<string, Participant>
    var rollback: bool

    /**
     * Roster keys are the participants' names, the roster never exceeds a positive capacity, and
     * the bounds come in pairs whose y and z maxima are numbers only where the minima are.
     */
    ghost predicate Valid()
      reads this
    {
      (forall n :: n in players ==> players[n].name == n)
      && (maxPlayers > 0 ==> |players| <= maxPlayers)
      && minBound.Some? == maxBound.Some?
      && (minBound.Some? ==> Teleportable(minBound.value, maxBound.value))
    }

    twostate predicate ClockKept()
      reads this
    {
      stage == old(stage) && time == old(time) && timerHandle == old(timerHandle)
    }

    /** The spawns, the bounds and the round's own rollback flag are unchanged. */
    twostate predicate SetupKept()
      reads this
    {
      spawns == old(spawns) && minBound == old(minBound) && maxBound == old(maxBound) && rollback == old(rollback)
    }

    /** A round of `arena` as stored in `record`, configured from `config`, waiting with no participants. */
    constructor (plugin: string, arena: string, record: ArenaRecord, config: Config, host: Host)
      ensures Valid()
      ensures this.plugin == plugin && this.arena == arena && world == record.world
      ensures this.config == config && this.host == host
      ensures stage == WAITING && time == 0 && timerHandle == -1 && players == map[]
      ensures spawns == LoadedSpawns(record.world, record.spawns)
      ensures minBound.Some? <==> record.boundaries
      ensures record.boundaries && record.corners.Some? ==>
        minBound == Some(BoundAt(record.world, record.corners.value.0.x, record.corners.value.0.y, record.corners.value.0.z))
        && maxBound == Some(BoundAt(record.world, record.corners.value.1.x, record.corners.value.1.y, record.corners.value.1.z))
      ensures record.boundaries && record.corners.None? ==>
        minBound == Some(Unset(record.world)) && maxBound == minBound
      ensures prepareTime == config.prepareTime && roundTime == config.playingTime && maxPlayers == config.maxPlayers
      ensures exitLocation == config.defaultExit
      ensures damage == config.damageAllowed && pvp == config.pvpAllowed && rollback == config.rollbackEnabled
    {
      this.plugin := plugin;
      this.arena := arena;
      world := record.world;
      this.config := config;
      this.host := host;
      spawns := LoadedSpawns(record.world, record.spawns);
      if record.boundaries && record.corners.Some? {
        var (lo, hi) := record.corners.value;
        minBound := Some(BoundAt(record.world, lo.x, lo.y, lo.z));
        maxBound := Some(BoundAt(record.world, hi.x, hi.y, hi.z));
      } else if record.boundaries {
        minBound := Some(Unset(record.world));
        maxBound := Some(Unset(record.world));
      } else {
        minBound := None;
        maxBound := None;
      }
      prepareTime := config.prepareTime;
      roundTime := config.playingTime;
      maxPlayers := config.maxPlayers;
      exitLocation := config.defaultExit;
      damage := config.damageAllowed;
      pvp := config.pvpAllowed;
      rollback := config.rollbackEnabled;
      stage := WAITING;
      time := 0;
      timerHandle := -1;
      players := map[];
    }

    /** The stage and time of the round. */
    function Now(): Clock
      reads this
    {
      Clock(stage, time)
    }

    // -------------------------------------------------------------------------
    // Timer

    /** `tick()`: one second more on the clock. */
    method Tick()
      modifies this
      ensures time == old(time) + 1
      ensures stage == old(stage) && timerHandle == old(timerHandle) && players == old(players) && SetupKept()
    {
      time := time + 1;
    }

    /** `addTime(t)`: `t` seconds more on the clock. */
    method AddTime(t: int)
      modifies this
      ensures time == old(time) + t
      ensures stage == old(stage) && timerHandle == old(timerHandle) && players == old(players) && SetupKept()
    {
      time := time + t;
    }

    /** `subtractTime(t)`: `t` seconds less on the clock. */
    method SubtractTime(t: int)
      modifies this
      ensures time == old(time) - t
      ensures stage == old(stage) && timerHandle == old(timerHandle) && players == old(players) && SetupKept()
    {
      time := time - t;
    }

    /**
     * `start()`: only a waiting round starts; it resets the time, enters the preparation stage
     * when there is one and play otherwise, and always schedules the timer task.
     */
    method Start(handle: int) returns (error: Option<Error>)
      requires Valid()
      modifies this, host
      ensures Valid()
      ensures players == old(players) && SetupKept()
      ensures old(stage) != WAITING ==> error == Some(IllegalState) && ClockKept() && host.events == old(host.events)
      ensures old(stage) == WAITING ==>
        error.None? && Now() == StartClock(prepareTime) && timerHandle == handle
        && host.events == old(host.events) + StartEvents(arena, prepareTime, handle)
    {
      if stage == WAITING {
        time := 0;
        if prepareTime > 0 {
          stage := PREPARING;
          host.events := host.events + [RoundPreparing(arena)];
        } else {
          stage := PLAYING;
          host.events := host.events + [RoundStarted(arena)];
        }
        if time != -1 {
          timerHandle := handle;
          host.events := host.events + [TimerScheduled(handle)];
        }
        error := None;
      } else {
        error := Some(IllegalState);
      }
    }

    /**
     * `end(timeUp)`: stops the clock and the timer, takes every online participant out of the
     * round (offline ones stay), and announces the end; rollback follows the configuration's
     * flag, not the round's own. Nothing stops it from running twice.
     */
    method End(timeUp: bool, online: map<string, Location>) returns (ghost order: seq<string>)
      requires Valid()
      modifies this, host
      ensures Valid()
      ensures stage == WAITING && time == -1 && timerHandle == -1
      ensures SetupKept()
      ensures players == Offline(old(players), online)
      ensures Distinct(order) && forall n :: n in order <==> n in old(players)
      ensures host.events == old(host.events)
        + EndEvents(arena, old(timerHandle), order, old(players), online, config.defaultExit, timeUp, config.rollbackEnabled)
    {
      ghost var cancel: seq<Event> := if timerHandle != -1 then [TimerCancelled(timerHandle)] else [];
      time := -1;
      if timerHandle != -1 {
        host.events := host.events + [TimerCancelled(timerHandle)];
      }
      stage := WAITING;
      timerHandle := -1;
      ghost var roster := players;
      ghost var stopped := host.events;
      assert stopped == old(host.events) + cancel;
      order := RemoveEveryone(online);
      ghost var leave := LeaveAll(arena, order, roster, online, config.defaultExit);
      ghost var rolled: seq<Event> := if config.rollbackEnabled then [RolledBack(arena)] else [];
      host.events := host.events + ([RoundEnded(arena, timeUp)] + rolled);
      EndAppends(old(host.events), cancel, leave, [RoundEnded(arena, timeUp)], rolled);
    }

    /** The removal loop of `end()`: `removePlayer` for every participant, in roster order. */
    method RemoveEveryone(online: map<string, Location>) returns (ghost order: seq<string>)
      requires Valid()
      modifies this, host
      ensures Valid()
      ensures ClockKept() && SetupKept()
      ensures players == Offline(old(players), online)
      ensures Distinct(order) && forall n :: n in order <==> n in old(players)
      ensures host.events == old(host.events) + LeaveAll(arena, order, old(players), online, config.defaultExit)
    {
      ghost var roster := players;
      var remaining := players.Keys;
      order := [];
      KeptAll(roster, online);
      while remaining != {}
        invariant Valid()
        invariant Visited(roster.Keys, remaining, order)
        invariant players == Kept(roster, remaining, online)
        invariant host.events == old(host.events) + LeaveAll(arena, order, roster, online, config.defaultExit)
        invariant ClockKept() && SetupKept()
        decreases |remaining|
      {
        var n :| n in remaining;
        RemoveVisited(roster, remaining, n, online);
        VisitStep(roster.Keys, remaining, order, n);
        LeaveAllStep(arena, order, n, roster, online, config.defaultExit);
        AppendAssociative(old(host.events), LeaveAll(arena, order, roster, online, config.defaultExit),
                          LeaveEvents(arena, n, roster[n], online, config.defaultExit));
        order := order + [n];
        remaining := remaining - {n};
      }
      KeptAll(roster, online);
    }

    /** One pass of the removal loop of `end()`: `removePlayer` on a name still to visit. */
    method RemoveVisited(ghost roster: map<string, Participant>, ghost remaining: set<string>, n: string, online: map<string, Location>)
      requires Valid() && n in remaining && remaining <= roster.Keys
      requires players == Kept(roster, remaining, online)
      modifies this, host
      ensures Valid() && ClockKept() && SetupKept()
      ensures players == Kept(roster, remaining - {n}, online)
      ensures host.events == old(host.events) + LeaveEvents(arena, n, roster[n], online, config.defaultExit)
    {
      assert players[n] == roster[n];
      var _ := RemovePlayer(n, config.defaultExit, online);
      KeptStep(roster, remaining, online, n);
    }

    /**
     * One run of the once-per-second timer task: the clock moves as `TimerStep` says (ending the
     * round when play runs out), then, if the arena has bounds, every participant outside them is
     * moved back, and finally a tick is announced while the round is preparing or playing. An
     * offline participant left in the roster makes the boundary pass fail, which ends the run.
     * `endOrder` is the order in which an ending round removes its participants, `visited` the
     * participants the boundary pass looked at.
     */
    method Step(online: map<string, Location>)
      returns (stageChange: bool, boundsOk: bool, ghost endOrder: seq<string>, ghost visited: seq<string>)
      requires Valid()
      modifies this, host
      ensures Valid()
      ensures Now() == TimerStep(old(Now()), prepareTime, roundTime)
      ensures stageChange <==> Action(old(Now()), prepareTime, roundTime) != Advance
      ensures Action(old(Now()), prepareTime, roundTime) != Expire ==> players == old(players) && timerHandle == old(timerHandle)
      ensures Action(old(Now()), prepareTime, roundTime) == Expire ==> players == Offline(old(players), online) && timerHandle == -1
      ensures SetupKept()
      ensures boundsOk <==> minBound.None? || players.Keys <= online.Keys
      ensures Distinct(endOrder) && forall n :: n in endOrder ==> n in old(players)
      ensures Action(old(Now()), prepareTime, roundTime) == Expire ==> forall n :: n in old(players) ==> n in endOrder
      ensures Distinct(visited) && forall n :: n in visited ==> n in players && n in online
      ensures minBound.None? ==> visited == []
      ensures minBound.Some? && boundsOk ==> forall n :: n in players ==> n in visited
      ensures host.events == old(host.events)
        + ClockEvents(Action(old(Now()), prepareTime, roundTime), arena, old(timerHandle), endOrder, old(players),
                      online, config.defaultExit, config.rollbackEnabled)
        + (if minBound.Some? then BorderEvents(arena, visited, online, minBound.value, maxBound.value) else [])
        + (if boundsOk && stage != WAITING then [RoundTicked(arena, old(time), stageChange)] else [])
    {
      var oldTime := time;
      stageChange, endOrder := RunClock(online);
      ghost var clocked := host.events;
      boundsOk := true;
      visited := [];
      if minBound.Some? {
        boundsOk, visited := EnforceBounds(online);
      }
      ghost var bounded := host.events;
      assert bounded == clocked + (if minBound.Some? then BorderEvents(arena, visited, online, minBound.value, maxBound.value) else []);
      if boundsOk && (stage == PLAYING || stage == PREPARING) {
        host.events := host.events + [RoundTicked(arena, oldTime, stageChange)];
      }
    }

    /** The clock part of one timer run: promote, end or tick, as `TimerStep` says. */
    method RunClock(online: map<string, Location>) returns (stageChange: bool, ghost endOrder: seq<string>)
      requires Valid()
      modifies this, host
      ensures Valid()
      ensures Now() == TimerStep(old(Now()), prepareTime, roundTime)
      ensures stageChange <==> Action(old(Now()), prepareTime, roundTime) != Advance
      ensures Action(old(Now()), prepareTime, roundTime) != Expire ==> players == old(players) && timerHandle == old(timerHandle)
      ensures Action(old(Now()), prepareTime, roundTime) == Expire ==> players == Offline(old(players), online) && timerHandle == -1
      ensures SetupKept()
      ensures Distinct(endOrder) && forall n :: n in endOrder ==> n in old(players)
      ensures Action(old(Now()), prepareTime, roundTime) == Expire ==> forall n :: n in old(players) ==> n in endOrder
      ensures host.events == old(host.events)
        + ClockEvents(Action(old(Now()), prepareTime, roundTime), arena, old(timerHandle), endOrder, old(players),
                      online, config.defaultExit, config.rollbackEnabled)
    {
      stageChange := false;
      endOrder := [];
      var limit := if stage == PLAYING then roundTime else prepareTime;
      if time >= limit && limit > 0 {
        if stage == PREPARING {
          stage := PLAYING;
          stageChange := true;
          time := 0;
          host.events := host.events + [RoundStarted(arena)];
        } else {
          endOrder := End(true, online);
          stageChange := true;
        }
      }
      if !stageChange {
        Tick();
      }
    }

    /**
     * The boundary pass of the timer task: each participant, in roster order, standing outside
     * the bounds is moved back by `Correction` and announced as hitting the border. It stops
     * at the first participant who is not online.
     */
    method EnforceBounds(online: map<string, Location>) returns (ok: bool, ghost order: seq<string>)
      requires Valid() && minBound.Some?
      modifies host
      ensures ok <==> players.Keys <= online.Keys
      ensures Distinct(order) && forall n :: n in order ==> n in players && n in online
      ensures ok ==> forall n :: n in players ==> n in order
      ensures host.events == old(host.events) + BorderEvents(arena, order, online, minBound.value, maxBound.value)
    {
      var min := minBound.value;
      var max := maxBound.value;
      var remaining := players.Keys;
      order := [];
      while remaining != {}
        invariant remaining <= players.Keys
        invariant Distinct(order) && forall n :: n in order <==> n in players && n !in remaining
        invariant forall n :: n in order ==> n in online
        invariant host.events == old(host.events) + BorderEvents(arena, order, online, min, max)
        decreases |remaining|
      {
        var n :| n in remaining;
        if n !in online {
          return false, order;
        }
        var correction := Correction(online[n], min, max);
        if correction.Some? {
          host.events := host.events + [Teleported(n, correction.value), PlayerHitBorder(arena, n)];
        }
        ghost var prev := order;
        order := order + [n];
        assert order[..|order| - 1] == prev;
        remaining := remaining - {n};
      }
      ok := true;
    }

    // -------------------------------------------------------------------------
    // Roster

    /**
     * `addPlayer(name, spawn)`. `found` is what the minigame's participant lookup returns for
     * `name`, `created` what constructing a new participant object yields (None when that
     * fails), `inventorySaved` whether the inventory snapshot could be written, and `handle`
     * the task id of the timer if the join starts the round.
     */
    method AddPlayer(name: string, spawn: int, online: map<string, Location>, found: Option<Participant>,
                     created: Option<Participant>, inventorySaved: bool, handle: int)
      returns (outcome: JoinOutcome)
      requires Valid()
      requires found.Some? ==> found.value.name == name
      requires created.Some? ==> created.value.name == name
      modifies this, host
      ensures Valid()
      ensures SetupKept()
      ensures name !in online ==> outcome == Failed(PlayerOffline)
      ensures name in online && maxPlayers > 0 && |old(players)| >= maxPlayers ==> outcome == Failed(RoundFull)
      ensures name in online && !(maxPlayers > 0 && |old(players)| >= maxPlayers) && JoinRefusal(old(stage), config).Some? ==>
        outcome == Refused && host.events == old(host.events) + [Message(name, JoinRefusal(old(stage), config).value)]
      ensures old(Admits(name, online)) && found.Some? && found.value.arena.Some? ==> outcome == Failed(PlayerPresent)
      ensures old(Admits(name, online)) && (found.None? || found.value.arena.None?) && !inventorySaved ==>
        outcome == Refused && host.events == old(host.events) + [Message(name, "inv-save-fail")]
      ensures old(Admits(name, online)) && found.None? && created.None? && inventorySaved ==> outcome == Failed(NullPointer)
      ensures outcome.Failed? && outcome.error in {PlayerOffline, RoundFull, PlayerPresent, NullPointer} ==> host.events == old(host.events)
      ensures (outcome.Refused? || (outcome.Failed? && outcome.error in {PlayerOffline, RoundFull, PlayerPresent, NullPointer})) ==>
        players == old(players) && ClockKept()
      // past the checks, the participant is in the roster whatever happens next
      ensures old(Admits(name, online)) && (found.None? || found.value.arena.None?) && inventorySaved && (found.Some? || created.Some?) ==>
        players == old(players)[name := Entrant(found, created, arena, old(stage), config)]
        && (outcome.Joined? <==> |spawns| > 0)
      ensures outcome.Failed? && outcome.error in {IllegalArgument, Arithmetic} ==>
        |spawns| == 0 && outcome.error == (if config.randomSpawning then IllegalArgument else Arithmetic)
        && host.events == old(host.events) && ClockKept()
      ensures outcome.Joined? ==>
        old(Admits(name, online)) && inventorySaved
        && 0 <= outcome.spawnIndex < |spawns|
        && (0 <= spawn < |spawns| ==> outcome.spawnIndex == spawn)
        && (!(0 <= spawn < |spawns|) && !config.randomSpawning ==> outcome.spawnIndex == |players| % |spawns|)
        && (outcome.started <==> old(stage) == WAITING && |players| >= config.minPlayers)
        && host.events == old(host.events) + [Teleported(name, spawns[outcome.spawnIndex]), PlayerJoined(arena, name)]
                          + (if outcome.started then StartEvents(arena, prepareTime, handle) else [])
        && (outcome.started ==> Now() == StartClock(prepareTime) && timerHandle == handle)
        && (!outcome.started ==> ClockKept())
    {
      if name !in online {
        return Failed(PlayerOffline);
      }
      if |players| >= maxPlayers && maxPlayers > 0 {
        return Failed(RoundFull);
      }
      if stage == PREPARING {
        if !config.allowJoinWhilePreparing {
          host.events := host.events + [Message(name, "no-join-prepare")];
          return Refused;
        }
      } else if stage == PLAYING {
        if !config.allowJoinInProgress {
          host.events := host.events + [Message(name, "no-join-progress")];
          return Refused;
        }
      }
      var mp: Option<Participant>;
      if found.None? {
        mp := created;
      } else if found.value.arena.None? {
        mp := Some(found.value.(arena := Some(arena)));
      } else {
        return Failed(PlayerPresent);
      }
      if !inventorySaved {
        host.events := host.events + [Message(name, "inv-save-fail")];
        return Refused;
      }
      if mp.None? {
        return Failed(NullPointer);
      }
      var entrant := mp.value.(spectating := (stage == PREPARING || stage == PLAYING) && config.spectateOnJoin);
      outcome := Enter(entrant, spawn, handle);
    }

    /**
     * The second half of `addPlayer`, once the checks have passed: the participant goes into
     * the roster, is sent to a spawn and announced, and the round starts if it was waiting and
     * now has enough participants.
     */
    method Enter(entrant: Participant, spawn: int, handle: int) returns (outcome: JoinOutcome)
      requires Valid()
      requires maxPlayers > 0 ==> |players| < maxPlayers
      modifies this, host
      ensures Valid()
      ensures SetupKept()
      ensures players == old(players)[entrant.name := entrant]
      ensures outcome.Joined? || outcome == Failed(IllegalArgument) || outcome == Failed(Arithmetic)
      ensures outcome.Joined? <==> |spawns| > 0
      ensures outcome.Failed? ==>
        outcome.error == (if config.randomSpawning then IllegalArgument else Arithmetic)
        && host.events == old(host.events) && ClockKept()
      ensures outcome.Joined? ==>
        0 <= outcome.spawnIndex < |spawns|
        && (0 <= spawn < |spawns| ==> outcome.spawnIndex == spawn)
        && (!(0 <= spawn < |spawns|) && !config.randomSpawning ==> outcome.spawnIndex == |players| % |spawns|)
        && (outcome.started <==> old(stage) == WAITING && |players| >= config.minPlayers)
        && host.events == old(host.events) + [Teleported(entrant.name, spawns[outcome.spawnIndex]), PlayerJoined(arena, entrant.name)]
                          + (if outcome.started then StartEvents(arena, prepareTime, handle) else [])
        && (outcome.started ==> Now() == StartClock(prepareTime) && timerHandle == handle)
        && (!outcome.started ==> ClockKept())
    {
      var name := entrant.name;
      players := players[name := entrant];
      var index: int;
      if spawn >= 0 && |spawns| > spawn {
        index := spawn;
      } else if config.randomSpawning {
        if |spawns| == 0 {
          return Failed(IllegalArgument);
        }
        index :| 0 <= index < |spawns|;
      } else {
        if |spawns| == 0 {
          return Failed(Arithmetic);
        }
        index := |players| % |spawns|;
      }
      host.events := host.events + [Teleported(name, spawns[index]), PlayerJoined(arena, name)];
      var started := stage == WAITING && |players| >= config.minPlayers && |players| > 0;
      if started {
        var _ := Start(handle);
      }
      return Joined(index, started);
    }

    /** The checks `addPlayer` makes before touching the participant's inventory. */
    ghost predicate Admits(name: string, online: map<string, Location>)
      reads this
    {
      name in online && !(maxPlayers > 0 && |players| >= maxPlayers) && JoinRefusal(stage, config).None?
    }

    /**
     * `removePlayer(name, location)`: a name not in the roster is refused; an online participant
     * leaves the roster, reset and sent to `location`; an offline one stays in the roster, yet
     * the leave is announced either way.
     */
    method RemovePlayer(name: string, location: Location, online: map<string, Location>) returns (error: Option<Error>)
      requires Valid()
      modifies this, host
      ensures Valid()
      ensures ClockKept() && SetupKept()
      ensures name !in old(players) ==> error == Some(PlayerNotPresent) && players == old(players) && host.events == old(host.events)
      ensures name in old(players) ==>
        error.None?
        && players == (if name in online then old(players) - {name} else old(players))
        && host.events == old(host.events) + LeaveEvents(arena, name, old(players)[name], online, location)
    {
      if name !in players {
        return Some(PlayerNotPresent);
      }
      var mp := players[name];
      if name in online {
        mp := Reset(mp);
        players := players - {name};
        host.events := host.events + [Teleported(name, location)];
      }
      host.events := host.events + [PlayerLeft(arena, mp)];
      error := None;
    }

    /** `getPlayerCount()`: the size of the roster. */
    function PlayerCount(): (count: nat)
      reads this
      ensures count == |NamesWhere(players, false)| + |NamesWhere(players, true)|
    {
      AliveAndSpectatingPartition(players);
      |players|
    }

    /** Counts the participants whose spectating flag is `spectating`. */
    method CountWhere(spectating: bool) returns (count: nat)
      ensures count == |NamesWhere(players, spectating)|
    {
      count := 0;
      var remaining := players.Keys;
      while remaining != {}
        invariant remaining <= players.Keys
        invariant count == |NamesWhere(players, spectating) - remaining|
        decreases |remaining|
      {
        var n :| n in remaining;
        if players[n].spectating == spectating {
          assert NamesWhere(players, spectating) - (remaining - {n}) == (NamesWhere(players, spectating) - remaining) + {n};
          count := count + 1;
        } else {
          assert NamesWhere(players, spectating) - (remaining - {n}) == NamesWhere(players, spectating) - remaining;
        }
        remaining := remaining - {n};
      }
    }

    /** `getAlivePlayerCount()`: the participants who are not spectating. */
    method AliveCount() returns (count: nat)
      ensures count == |NamesWhere(players, false)|
      ensures count <= |players|
    {
      AliveAndSpectatingPartition(players);
      count := CountWhere(false);
    }

    /** `getSpectatingPlayerCount()`: the participants who are spectating. */
    method SpectatingCount() returns (count: nat)
      ensures count == |NamesWhere(players, true)|
      ensures count <= |players|
    {
      AliveAndSpectatingPartition(players);
      count := CountWhere(true);
    }

    /** The participants whose spectating flag is `spectating`, each once. */
    method ListWhere(spectating: bool) returns (list: seq<Participant>)
      requires Valid()
      ensures |list| == |NamesWhere(players, spectating)|
      ensures forall p :: p in list <==> p.name in players && players[p.name] == p && p.spectating == spectating
    {
      list := [];
      var remaining := players.Keys;
      while remaining != {}
        invariant remaining <= players.Keys
        invariant |list| == |NamesWhere(players, spectating) - remaining|
        invariant forall p :: p in list <==> p.name in players && players[p.name] == p && p.spectating == spectating && p.name !in remaining
        decreases |remaining|
      {
        var n :| n in remaining;
        if players[n].spectating == spectating {
          assert NamesWhere(players, spectating) - (remaining - {n}) == (NamesWhere(players, spectating) - remaining) + {n};
          list := list + [players[n]];
        } else {
          assert NamesWhere(players, spectating) - (remaining - {n}) == NamesWhere(players, spectating) - remaining;
        }
        remaining := remaining - {n};
      }
    }

    /** `getAlivePlayerList()`: the participants who are not spectating. */
    method AliveList() returns (list: seq<Participant>)
      requires Valid()
      ensures |list| == |NamesWhere(players, false)|
      ensures forall p :: p in list <==> p.name in players && players[p.name] == p && !p.spectating
    {
      list := ListWhere(false);
    }

    /** `getSpectatingPlayerList()`: the participants who are spectating. */
    method SpectatingList() returns (list: seq<Participant>)
      requires Valid()
      ensures |list| == |NamesWhere(players, true)|
      ensures forall p :: p in list <==> p.name in players && players[p.name] == p && p.spectating
    {
      list := ListWhere(true);
    }

    /** `getTeam(team)`: the part of the roster on `team`. */
    method GetTeam(team: string) returns (t: map<string, Participant>)
      requires Valid()
      ensures t.Keys <= players.Keys
      ensures forall n :: n in t <==> n in players && players[n].team == team
      ensures forall n :: n in t ==> t[n] == players[n]
    {
      t := map[];
      var remaining := players.Keys;
      while remaining != {}
        invariant remaining <= players.Keys
        invariant forall n :: n in t <==> n in players && players[n].team == team && n !in remaining
        invariant forall n :: n in t ==> t[n] == players[n]
        decreases |remaining|
      {
        var n :| n in remaining;
        var p := players[n];
        if p.team == team {
          t := t[p.name := p];
        }
        remaining := remaining - {n};
      }
    }

    // -------------------------------------------------------------------------
    // Bounds and identity

    /** `setMinBound(x, y, z)`: replaces the minimum bound, keeping its world; fails when the arena has no bounds. */
    method SetMinBound(x: real, y: real, z: real) returns (error: Option<Error>)
      requires Valid()
      modifies this
      ensures Valid()
      ensures ClockKept() && players == old(players) && spawns == old(spawns) && maxBound == old(maxBound)
      ensures rollback == old(rollback)
      ensures old(minBound).None? ==> error == Some(NullPointer) && minBound == old(minBound)
      ensures old(minBound).Some? ==> error.None? && minBound == Some(BoundAt(old(minBound).value.world, x, y, z))
    {
      if minBound.None? {
        return Some(NullPointer);
      }
      minBound := Some(BoundAt(minBound.value.world, x, y, z));
      error := None;
    }

    /**
     * `setMaxBound(x, y, z)`: as written it overwrites the minimum bound, so the maximum bound
     * never changes.
     */
    method SetMaxBound(x: real, y: real, z: real) returns (error: Option<Error>)
      requires Valid()
      modifies this
      ensures Valid()
      ensures ClockKept() && players == old(players) && spawns == old(spawns) && rollback == old(rollback)
      ensures maxBound == old(maxBound)
      ensures old(minBound).None? ==> error == Some(NullPointer) && minBound == old(minBound)
      ensures old(minBound).Some? ==> error.None? && minBound == Some(BoundAt(old(minBound).value.world, x, y, z))
    {
      if minBound.None? {
        return Some(NullPointer);
      }
      minBound := Some(BoundAt(minBound.value.world, x, y, z));
      error := None;
    }

    /** `setRollbackEnabled(enabled)`: only the round's own rollback flag changes. */
    method SetRollbackEnabled(enabled: bool)
      modifies this
      ensures rollback == enabled
      ensures ClockKept() && players == old(players) && spawns == old(spawns)
      ensures minBound == old(minBound) && maxBound == old(maxBound)
    {
      rollback := enabled;
    }

    /**
     * `equals(other)`: the unchecked cast throws for an object of another class and the arena
     * lookup throws for null; otherwise two rounds are equal when their arena names are.
     */
    function Equals(other: Argument<Round>): (r: Result<bool, Error>)
      ensures other.Foreign? <==> r == Err(ClassCast)
      ensures other.Null? <==> r == Err(NullPointer)
      ensures other.Instance? ==> r.Ok? && (r.value <==> other.value.arena == arena)
    {
      match other
      case Foreign => Err(ClassCast)
      case Null => Err(NullPointer)
      case Instance(o) => Ok(arena == o.arena)
    }
  }

  /**
   * Round equality is equality of arena names: rounds of different minigames, in different
   * stages, with different rosters, compare equal, and the comparison is symmetric.
   */
  lemma EqualsIgnoresPluginAndStage(r1: Round, r2: Round)
    ensures r1.Equals(Instance(r2)) == Ok(r1.arena == r2.arena)
    ensures r1.Equals(Instance(r2)) == r2.Equals(Instance(r1))
  {
  }

  /**
   * `end()` reads the rollback setting of the configuration, not the round's own flag: whatever
   * `setRollbackEnabled` was given, the arena is rolled back exactly when the configuration says so.
   */
  method RollbackIgnoresOwnFlag(r: Round, enabled: bool, online: map<string, Location>)
    requires r.Valid()
    modifies r, r.host
    ensures r.rollback == enabled
    ensures |r.host.events| > 0
    ensures r.host.events[|r.host.events| - 1] == RolledBack(r.arena) <==> r.config.rollbackEnabled
  {
    r.SetRollbackEnabled(enabled);
    ghost var _ := r.End(false, online);
  }

  /** `end()` has no guard: ending a round twice announces two ends. */
  method EndTwice(r: Round, online: map<string, Location>)
    requires r.Valid()
    modifies r, r.host
    ensures r.stage == WAITING && r.time == -1 && r.timerHandle == -1
    ensures exists i, j ::
      (|old(r.host.events)| <= i < j < |r.host.events|
       && r.host.events[i] == RoundEnded(r.arena, false) && r.host.events[j] == RoundEnded(r.arena, false))
  {
    var tail: seq<Event> := if r.config.rollbackEnabled then [RolledBack(r.arena)] else [];
    ghost var _ := r.End(false, online);
    ghost var i := |r.host.events| - |tail| - 1;
    assert r.host.events[i] == RoundEnded(r.arena, false);
    ghost var _ := r.End(false, online);
    ghost var j := |r.host.events| - |tail| - 1;
    assert r.host.events[j] == RoundEnded(r.arena, false);
    assert r.host.events[i] == RoundEnded(r.arena, false);
    assert |old(r.host.events)| <= i < j < |r.host.events|;
  }
}
