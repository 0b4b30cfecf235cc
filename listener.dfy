/*
 * The event listener's decisions: which host events it cancels, which block changes it hands to
 * the rollback log, and which participants it removes from their rounds. The host event is
 * reduced to the facts a handler reads, and each registered minigame to a `Game` view: its
 * configuration flags and its rounds in list order, each round with its world, timer, flags,
 * bounds and roster (participant name to spectating flag).
 */
module Listener {
  import opened Wrappers
  import opened Exceptions
  import opened JavaStrings
  import opened Rounds
  import opened Util

  /** The configuration flags of a minigame that the listener consults. */
  datatype Rules = Rules(
    blockPlace: bool,
    blockBreak: bool,
    blockBurn: bool,
    blockFade: bool,
    blockGrow: bool,
    blockIgnite: bool,
    blockFlow: bool,
    blockPhysics: bool,
    blockPiston: bool,
    blockSpread: bool,
    kits: bool,
    privateMessages: bool)

  /** What the listener reads of a round; `roster` maps each participant to its spectating flag. */
  datatype RoundView = RoundView(
    world: string,
    time: int,
    rollback: bool,
    pvp: bool,
    damage: bool,
    minBound: Option<Bound>,
    maxBound: Option<Bound>,
    roster: map<string, bool>)

  /** A registered minigame: its flags and its rounds in list order. */
  datatype Game = Game(rules: Rules, rounds: seq<RoundView>)

  /** The first round, in list order, whose roster holds `name`: where a participant lookup finds it. */
  function FirstRoundWith(name: string, rounds: seq<RoundView>): (k: Option<nat>)
    ensures k.Some? ==> k.value < |rounds| && name in rounds[k.value].roster
    ensures k.Some? ==> forall j :: 0 <= j < k.value ==> name !in rounds[j].roster
    ensures k.None? <==> forall j :: 0 <= j < |rounds| ==> name !in rounds[j].roster
    decreases |rounds|
  {
    if |rounds| == 0 then None
    else if name in rounds[0].roster then Some(0)
    else match FirstRoundWith(name, rounds[1..])
      case None => None
      case Some(k) => Some(k + 1)
  }

  /** `name` is a participant of some round of `g`, as the minigame's participant lookup finds it. */
  predicate PlayerIn(name: string, g: Game) {
    FirstRoundWith(name, g.rounds).Some?
  }

  /** `name` is a participant of `g` and is spectating. */
  predicate SpectatingIn(name: string, g: Game) {
    match FirstRoundWith(name, g.rounds)
    case None => false
    case Some(k) => g.rounds[k].roster[name]
  }

  // ---------------------------------------------------------------------------
  // onEntityDamage

  /** The entity that dealt the damage. */
  datatype Damager =
    | PlayerDamager(name: string)
    | ProjectileDamager(shooter: Option<string>)  // the shooter, when it is a player
    | OtherDamager

  /** The player held responsible for the damage: the damager itself or the projectile's shooter. */
  function Attacker(d: Damager): Option<string> {
    match d
    case PlayerDamager(n) => Some(n)
    case ProjectileDamager(s) => s
    case OtherDamager => None
  }

  /**
   * The player is a participant of `g` who is spectating or whose round forbids what it is
   * involved in: fighting other players (`attacking`) or taking damage (otherwise).
   */
  predicate Barred(player: Option<string>, g: Game, attacking: bool) {
    player.Some? &&
    match FirstRoundWith(player.value, g.rounds)
    case None => false
    case Some(k) =>
      g.rounds[k].roster[player.value] || !(if attacking then g.rounds[k].pvp else g.rounds[k].damage)
  }

  /**
   * `onEntityDamage`: only damage dealt by an entity (`damager` present) is examined; it is
   * cancelled when, in some minigame, the attacking player or the player hit is barred.
   */
  method OnEntityDamage(damager: Option<Damager>, victim: Option<string>, games: seq<Game>) returns (cancelled: bool)
    ensures cancelled <==>
      damager.Some? && exists i :: 0 <= i < |games| && (Barred(Attacker(damager.value), games[i], true) || Barred(victim, games[i], false))
  {
    cancelled := false;
    if damager.None? {
      return;
    }
    var attacker := Attacker(damager.value);
    if attacker.Some? || victim.Some? {
      var i := 0;
      while i < |games|
        invariant 0 <= i <= |games|
        invariant forall j :: 0 <= j < i ==> !Barred(attacker, games[j], true) && !Barred(victim, games[j], false)
      {
        if Barred(attacker, games[i], true) {
          return true;
        }
        if Barred(victim, games[i], false) {
          return true;
        }
        i := i + 1;
      }
    }
  }

  // ---------------------------------------------------------------------------
  // onPlayerTeleport

  /** A participant of round `r` arriving at `to` leaves it: another world, or outside its bounds. */
  predicate LeavesRound(to: Location, r: RoundView) {
    to.world != r.world
    || (r.minBound.Some? && r.maxBound.Some? && !InBox(to, r.minBound.value, r.maxBound.value))
  }

  /**
   * `onPlayerTeleport`: in every minigame (the flag meant to stop the search is never set), the
   * first round holding the player removes it when the destination leaves that round. Gives the
   * (minigame, round) pairs removed from, in minigame order.
   */
  method OnPlayerTeleport(name: string, to: Location, games: seq<Game>) returns (removals: seq<(nat, nat)>)
    ensures forall p :: p in removals <==>
      p.0 < |games| && FirstRoundWith(name, games[p.0].rounds) == Some(p.1) && LeavesRound(to, games[p.0].rounds[p.1])
    ensures forall i, j :: 0 <= i < j < |removals| ==> removals[i].0 < removals[j].0
  {
    removals := [];
    var g := 0;
    while g < |games|
      invariant 0 <= g <= |games|
      invariant forall p :: p in removals <==>
        p.0 < g && FirstRoundWith(name, games[p.0].rounds) == Some(p.1) && LeavesRound(to, games[p.0].rounds[p.1])
      invariant forall i, j :: 0 <= i < j < |removals| ==> removals[i].0 < removals[j].0
      invariant forall i :: 0 <= i < |removals| ==> removals[i].0 < g
    {
      var rounds := games[g].rounds;
      var k := 0;
      while k < |rounds| && name !in rounds[k].roster
        invariant 0 <= k <= |rounds|
        invariant forall j :: 0 <= j < k ==> name !in rounds[j].roster
      {
        k := k + 1;
      }
      if k < |rounds| && LeavesRound(to, rounds[k]) {
        removals := removals + [(g, k)];
      }
      g := g + 1;
    }
  }

  // ---------------------------------------------------------------------------
  // onInventoryClick

  /** The round's timer runs and `name` is in its roster. */
  predicate Active(name: string, r: RoundView) {
    r.time != -1 && name in r.roster
  }

  /**
   * `onInventoryClick`: a click on a block's inventory is logged once, for the first
   * (minigame, round) pair in order whose running round holds the player.
   */
  method OnInventoryClick(name: string, holderIsBlock: bool, games: seq<Game>) returns (logged: Option<(nat, nat)>)
    ensures logged.Some? ==>
      holderIsBlock && logged.value.0 < |games| && logged.value.1 < |games[logged.value.0].rounds|
      && Active(name, games[logged.value.0].rounds[logged.value.1])
    ensures logged.Some? ==> forall g, k ::
      0 <= g < |games| && 0 <= k < |games[g].rounds| && (g < logged.value.0 || (g == logged.value.0 && k < logged.value.1))
      ==> !Active(name, games[g].rounds[k])
    ensures logged.None? <==>
      !holderIsBlock || forall g, k :: 0 <= g < |games| && 0 <= k < |games[g].rounds| ==> !Active(name, games[g].rounds[k])
  {
    if !holderIsBlock {
      // every pass of the loops finds a holder that is no block and does nothing
      return None;
    }
    var g := 0;
    while g < |games|
      invariant 0 <= g <= |games|
      invariant forall a, k :: 0 <= a < g && 0 <= k < |games[a].rounds| ==> !Active(name, games[a].rounds[k])
    {
      var k := 0;
      while k < |games[g].rounds|
        invariant 0 <= k <= |games[g].rounds|
        invariant forall j :: 0 <= j < k ==> !Active(name, games[g].rounds[j])
      {
        if Active(name, games[g].rounds[k]) {
          return Some((g, k));
        }
        k := k + 1;
      }
      g := g + 1;
    }
    return None;
  }

  // ---------------------------------------------------------------------------
  // onBlockPlace / onBlockBreak

  datatype BlockChange = Place | Break

  /** The minigame's configuration allows this kind of block change. */
  predicate Permits(rules: Rules, change: BlockChange) {
    match change
    case Place => rules.blockPlace
    case Break => rules.blockBreak
  }

  /** The round's timer runs, it rolls back, and `name` is in its roster. */
  predicate Guarded(name: string, r: RoundView) {
    r.time != -1 && r.rollback && name in r.roster
  }

  /**
   * `onBlockPlace` and `onBlockBreak`: every (minigame, round) pair whose running, rolling-back
   * round holds the player either logs the change (its minigame allows it) or cancels the event;
   * without such a pair the event is neither logged nor cancelled.
   */
  method OnBlockChange(name: string, change: BlockChange, games: seq<Game>) returns (logged: seq<(nat, nat)>, cancelled: bool)
    ensures forall p :: p in logged <==>
      p.0 < |games| && p.1 < |games[p.0].rounds| && Guarded(name, games[p.0].rounds[p.1]) && Permits(games[p.0].rules, change)
    ensures cancelled <==> exists g, k ::
      0 <= g < |games| && 0 <= k < |games[g].rounds| && Guarded(name, games[g].rounds[k]) && !Permits(games[g].rules, change)
  {
    logged, cancelled := [], false;
    var g := 0;
    while g < |games|
      invariant 0 <= g <= |games|
      invariant forall p :: p in logged <==>
        p.0 < g && p.1 < |games[p.0].rounds| && Guarded(name, games[p.0].rounds[p.1]) && Permits(games[p.0].rules, change)
      invariant cancelled <==> exists a, k ::
        0 <= a < g && 0 <= k < |games[a].rounds| && Guarded(name, games[a].rounds[k]) && !Permits(games[a].rules, change)
    {
      var rounds := games[g].rounds;
      var k := 0;
      while k < |rounds|
        invariant 0 <= k <= |rounds|
        invariant forall p :: p in logged <==>
          (p.0 < g && p.1 < |games[p.0].rounds| && Guarded(name, games[p.0].rounds[p.1]) && Permits(games[p.0].rules, change))
          || (p.0 == g && p.1 < k && Guarded(name, rounds[p.1]) && Permits(games[g].rules, change))
        invariant cancelled <==>
          (exists a, j :: 0 <= a < g && 0 <= j < |games[a].rounds| && Guarded(name, games[a].rounds[j]) && !Permits(games[a].rules, change))
          || (exists j :: 0 <= j < k && Guarded(name, rounds[j]) && !Permits(games[g].rules, change))
      {
        if Guarded(name, rounds[k]) {
          if Permits(games[g].rules, change) {
            logged := logged + [(g, k)];
          } else {
            cancelled := true;
          }
        }
        k := k + 1;
      }
      g := g + 1;
    }
  }

  // ---------------------------------------------------------------------------
  // environmental block events and addWorlds

  datatype EnvironmentEvent = Burn | Fade | Grow | Ignite | Flow | Physics | PistonExtend | PistonRetract | Spread

  /** The configuration flag each environmental event is gated by; both piston events share one. */
  predicate EnvironmentAllowed(rules: Rules, event: EnvironmentEvent) {
    match event
    case Burn => rules.blockBurn
    case Fade => rules.blockFade
    case Grow => rules.blockGrow
    case Ignite => rules.blockIgnite
    case Flow => rules.blockFlow
    case Physics => rules.blockPhysics
    case PistonExtend => rules.blockPiston
    case PistonRetract => rules.blockPiston
    case Spread => rules.blockSpread
  }

  /**
   * The nine environmental handlers (`onBlockBurn` ... `onBlockSpread`): a block whose world
   * name is listed for some plugin is protected when that plugin's minigame forbids the event.
   * `rules` holds the registered minigames by plugin name; a listing plugin with no minigame is
   * dereferenced (a null pointer), whatever else the loop did before.
   */
  method OnEnvironment(world: string, event: EnvironmentEvent, worlds: map<string, seq<string>>, rules: map<string, Rules>)
    returns (result: Result<bool, Error>)
    ensures result.Err? <==> exists p :: p in worlds && world in worlds[p] && p !in rules
    ensures result.Err? ==> result.error == NullPointer
    ensures result.Ok? ==>
      (result.value <==> exists p :: p in worlds && world in worlds[p] && p in rules && !EnvironmentAllowed(rules[p], event))
  {
    var cancelled := false;
    var remaining := worlds.Keys;
    ghost var visited: set<string> := {};
    while remaining != {}
      invariant remaining + visited == worlds.Keys && remaining !! visited
      invariant forall q :: q in visited && world in worlds[q] ==> q in rules
      invariant cancelled <==>
        exists q :: q in visited && world in worlds[q] && q in rules && !EnvironmentAllowed(rules[q], event)
      decreases |remaining|
    {
      var p :| p in remaining;
      var found := ScanWorlds(worlds[p], world, p, event, rules);
      if found.Err? {
        return found;
      }
      if found.value {
        cancelled := true;
      }
      visited := visited + {p};
      remaining := remaining - {p};
    }
    return Ok(cancelled);
  }

  /**
   * The inner loop of an environmental handler over plugin `p`'s worlds: it stops at the first
   * entry naming `world`, failing when `p` has no minigame and protecting the block when the
   * minigame forbids the event.
   */
  method ScanWorlds(l: seq<string>, world: string, p: string, event: EnvironmentEvent, rules: map<string, Rules>)
    returns (found: Result<bool, Error>)
    ensures found.Err? <==> world in l && p !in rules
    ensures found.Err? ==> found.error == NullPointer
    ensures found.Ok? ==> (found.value <==> world in l && p in rules && !EnvironmentAllowed(rules[p], event))
  {
    var i := 0;
    while i < |l|
      invariant 0 <= i <= |l|
      invariant world !in l[..i] || (p in rules && EnvironmentAllowed(rules[p], event))
    {
      if l[i] == world {
        if p !in rules {
          return Err(NullPointer);
        }
        if !EnvironmentAllowed(rules[p], event) {
          return Ok(true);
        }
      }
      assert l[..i + 1] == l[..i] + [l[i]];
      i := i + 1;
    }
    assert l[..|l|] == l;
    return Ok(false);
  }

  /**
   * `addWorlds(plugin)`: when the plugin's arena file exists and loads, the plugin's list becomes
   * that file's top-level keys in order, which are arena names, not world names; otherwise the
   * map is left as it was. `arenaNames` is absent when the file is missing or fails to load.
   */
  method AddWorlds(m: WorldMap, plugin: string, arenaNames: Option<seq<string>>)
    modifies m
    ensures arenaNames.None? ==> m.worlds == old(m.worlds)
    ensures arenaNames.Some? ==> m.worlds == old(m.worlds)[plugin := arenaNames.value]
  {
    if arenaNames.None? {
      return;
    }
    var keys := arenaNames.value;
    var worldList: seq<string> := [];
    var i := 0;
    while i < |keys|
      invariant 0 <= i <= |keys|
      invariant worldList == keys[..i]
    {
      worldList := worldList + [keys[i]];
      i := i + 1;
    }
    assert keys[..|keys|] == keys;
    m.worlds := m.worlds[plugin := worldList];
  }

  // ---------------------------------------------------------------------------
  // onPlayerInteract

  /** `onPlayerInteract`, first part: any interaction of a spectating participant is cancelled. */
  method OnInteractGate(name: string, games: seq<Game>) returns (cancelled: bool)
    ensures cancelled <==> exists i :: 0 <= i < |games| && SpectatingIn(name, games[i])
  {
    var i := 0;
    while i < |games|
      invariant 0 <= i <= |games|
      invariant forall j :: 0 <= j < i ==> !SpectatingIn(name, games[j])
    {
      if SpectatingIn(name, games[i]) {
        return true;
      }
      i := i + 1;
    }
    return false;
  }

  // ---------------------------------------------------------------------------
  // onPlayerCommandPreprocess

  predicate KitCommand(message: string) {
    StartsWith(message, "kit")
  }

  predicate PrivateMessageCommand(message: string) {
    StartsWith(message, "msg") || StartsWith(message, "tell") || StartsWith(message, "r ") || StartsWith(message, "me")
  }

  /** The minigame's flags forbid the command: kit commands by the kit flag, the others by the message flag. */
  predicate Forbids(rules: Rules, message: string) {
    if KitCommand(message) then !rules.kits
    else PrivateMessageCommand(message) && !rules.privateMessages
  }

  /**
   * `onPlayerCommandPreprocess`: each minigame the player takes part in and whose flags forbid
   * the command cancels it and warns the player. Gives the minigames that warned, in order.
   */
  method OnCommand(name: string, message: string, games: seq<Game>) returns (cancelled: bool, warned: seq<nat>)
    ensures forall i: nat :: i in warned <==> i < |games| && PlayerIn(name, games[i]) && Forbids(games[i].rules, message)
    ensures forall i, j :: 0 <= i < j < |warned| ==> warned[i] < warned[j]
    ensures cancelled <==> |warned| > 0
  {
    cancelled, warned := false, [];
    if KitCommand(message) || PrivateMessageCommand(message) {
      var i := 0;
      while i < |games|
        invariant 0 <= i <= |games|
        invariant forall g: nat :: g in warned <==> g < i && PlayerIn(name, games[g]) && Forbids(games[g].rules, message)
        invariant forall a, b :: 0 <= a < b < |warned| ==> warned[a] < warned[b]
        invariant forall a :: 0 <= a < |warned| ==> warned[a] < i
        invariant cancelled <==> |warned| > 0
      {
        if PlayerIn(name, games[i]) && Forbids(games[i].rules, message) {
          cancelled := true;
          warned := warned + [i];
        }
        i := i + 1;
      }
    }
  }

  // ---------------------------------------------------------------------------
  // onSignChange

  /**
   * `onSignChange`, the index check: the index of a new lobby sign is its fourth line when that
   * is an integer and 0 otherwise, but a "players" sign (any case) whose fourth line is no
   * integer is refused.
   */
  function SignIndex(line2: string, line4: string): (index: Option<int>)
    ensures index.None? <==> EqualsIgnoreCase(line2, "players") && !IsInteger(line4)
    ensures index.Some? && IsInteger(line4) ==> ParseInt(line4) == Some(index.value)
    ensures index.Some? && !IsInteger(line4) ==> index.value == 0
  {
    if !EqualsIgnoreCase(line2, "players") || IsInteger(line4) then
      Some(if IsInteger(line4) then ParseInt(line4).value else 0)
    else None
  }
}
