/**
 * The API object a minigame plugin registers with the library: the one-instance-per-plugin
 * registry, the check of the plugin's approved library versions, arena creation in the arena
 * store, round creation and participant lookup across the minigame's rounds.
 *
 * The arena store (a YAML file in the source) is the map `arenas` from arena name to its record;
 * the library's own version list and last development build number are parameters.
 */
module Minigames {
  import opened Wrappers
  import opened Exceptions
  import opened JavaStrings
  import opened Rounds

  // ---------------------------------------------------------------------------
  // Version compatibility

  /**
   * The development-build test applied once an approved version matched: a version naming no
   * "dev" build is compatible; otherwise the number after the first "dev" must parse and be at
   * most `lastDev`.
   */
  function DevCheck(version: string, lastDev: int): (r: Result<bool, Error>)
    ensures r != Ok(true) ==> Contains(version, "dev")
  {
    if !Contains(version, "dev") then Ok(true)
    else
      var parts := Split(version, "dev");
      if |parts| < 2 then Err(IndexOutOfBounds)
      else match ParseInt(parts[1])
        case None => Err(NumberFormat)
        case Some(n) => Ok(n <= lastDev)
  }

  /** `isCompatible(version)` against the library's approved versions, tried in order. */
  function IsCompatible(version: string, approved: seq<string>, lastDev: int): (r: Result<bool, Error>)
    ensures r == Ok(true) ==> exists j :: 0 <= j < |approved| && Contains(version, approved[j])
    ensures r.Err? ==> Contains(version, "dev")
    decreases |approved|
  {
    if |approved| == 0 then Ok(false)
    else if Contains(version, approved[0]) then DevCheck(version, lastDev)
    else IsCompatible(version, approved[1..], lastDev)
  }

  /** The first approved version that occurs in `version` decides the answer. */
  lemma {:induction false} FirstMatchDecides(version: string, approved: seq<string>, lastDev: int, i: nat)
    requires i < |approved| && Contains(version, approved[i])
    requires forall j :: 0 <= j < i ==> !Contains(version, approved[j])
    ensures IsCompatible(version, approved, lastDev) == DevCheck(version, lastDev)
    decreases i
  {
    if i > 0 {
      FirstMatchDecides(version, approved[1..], lastDev, i - 1);
    }
  }

  /** When no approved version occurs in `version`, it is incompatible. */
  lemma {:induction false} NoMatchIncompatible(version: string, approved: seq<string>, lastDev: int)
    requires forall j :: 0 <= j < |approved| ==> !Contains(version, approved[j])
    ensures IsCompatible(version, approved, lastDev) == Ok(false)
    decreases |approved|
  {
    if |approved| > 0 {
      NoMatchIncompatible(version, approved[1..], lastDev);
    }
  }

  /**
   * A version of the form `p + "dev" + n`, with no 'd' before the "dev" and `n` a build number,
   * passes exactly when `n` is at most the last development build.
   */
  lemma DevBuildNumber(p: string, n: nat, lastDev: int)
    requires 'd' !in p && n <= INT_MAX
    ensures DevCheck(p + "dev" + NatToString(n), lastDev) == Ok(n <= lastDev)
  {
    var digits := NatToString(n);
    var version := p + "dev" + digits;
    ContainsAt(version, "dev", |p|);
    assert 'd' !in digits by {
      forall i | 0 <= i < |digits| ensures digits[i] != 'd' {
        assert IsDigit(digits[i]);
      }
    }
    NotContainsHead(digits, "dev");
    SplitAfterPrefix(p, "dev", digits);
    SplitAllAbsent(digits, "dev");
    assert Split(version, "dev") == [p, digits];
    IntToStringParses(n);
  }

  /** A version that ends right after its "dev" has no build number: reading it goes out of bounds. */
  lemma TrailingDevIsOutOfBounds(p: string, lastDev: int)
    requires 'd' !in p
    ensures DevCheck(p + "dev", lastDev) == Err(IndexOutOfBounds)
  {
    var version := p + "dev";
    assert version == p + "dev" + "";
    ContainsAt(version, "dev", |p|);
    SplitAfterPrefix(p, "dev", "");
    assert SplitAll(version, "dev") == [p, ""];
  }

  /** The versions the library itself approves, with its last development build 11, on "0.1" builds. */
  lemma LibraryVersions(p: string, n: nat)
    requires 'd' !in p && n <= INT_MAX && Contains(p, "0.1")
    ensures IsCompatible(p + "dev" + NatToString(n), ["0.1"], 11) == Ok(n <= 11)
  {
    var version := p + "dev" + NatToString(n);
    ContainsPrefix(p, "dev" + NatToString(n), "0.1");
    assert version == p + ("dev" + NatToString(n));
    FirstMatchDecides(version, ["0.1"], 11, 0);
    DevBuildNumber(p, n, 11);
  }

  /**
   * The versions of `versions` that are compatible, in order, or the exception the first
   * failing check throws.
   */
  function Compatible(versions: seq<string>, approved: seq<string>, lastDev: int): (r: Result<seq<string>, Error>)
    ensures r.Ok? ==> |r.value| <= |versions|
    decreases |versions|
  {
    if |versions| == 0 then Ok([])
    else match Compatible(versions[..|versions| - 1], approved, lastDev)
      case Err(e) => Err(e)
      case Ok(c) =>
        match IsCompatible(versions[|versions| - 1], approved, lastDev)
        case Err(e) => Err(e)
        case Ok(b) => Ok(if b then c + [versions[|versions| - 1]] else c)
  }

  /** Every version `Compatible` keeps is one of the inputs that passed the check. */
  lemma {:induction false} CompatibleSound(versions: seq<string>, approved: seq<string>, lastDev: int)
    requires Compatible(versions, approved, lastDev).Ok?
    ensures forall v :: v in Compatible(versions, approved, lastDev).value ==>
      v in versions && IsCompatible(v, approved, lastDev) == Ok(true)
    ensures forall v :: v in versions ==> IsCompatible(v, approved, lastDev).Ok?
    decreases |versions|
  {
    if |versions| > 0 {
      CompatibleSound(versions[..|versions| - 1], approved, lastDev);
      assert versions == versions[..|versions| - 1] + [versions[|versions| - 1]];
    }
  }

  /** The "tested only against development builds" flag: no compatible version lacks "dev". */
  predicate OnlyDev(compatible: seq<string>) {
    forall v :: v in compatible ==> Contains(v, "dev")
  }

  /**
   * A plugin that lists only development builds, or none that passes the check, is flagged as
   * tested only against development builds.
   */
  lemma NoCompatibleIsOnlyDev(versions: seq<string>, approved: seq<string>, lastDev: int)
    requires Compatible(versions, approved, lastDev).Ok?
    requires (forall v :: v in versions ==> Contains(v, "dev"))
             || (forall v :: v in versions ==> IsCompatible(v, approved, lastDev) == Ok(false))
    ensures OnlyDev(Compatible(versions, approved, lastDev).value)
  {
    CompatibleSound(versions, approved, lastDev);
  }

  /**
   * The loop of the constructor over the plugin's approved versions: collects the compatible
   * ones and clears `dev` at the first one that is not a development build.
   */
  method CheckVersions(versions: seq<string>, approved: seq<string>, lastDev: int) returns (result: Result<(seq<string>, bool), Error>)
    ensures Compatible(versions, approved, lastDev).Err? ==> result == Err(Compatible(versions, approved, lastDev).error)
    ensures Compatible(versions, approved, lastDev).Ok? ==>
      result.Ok? && result.value.0 == Compatible(versions, approved, lastDev).value
      && (result.value.1 <==> OnlyDev(result.value.0))
  {
    var dev := true;
    var compatible: seq<string> := [];
    var i := 0;
    while i < |versions|
      invariant 0 <= i <= |versions|
      invariant Compatible(versions[..i], approved, lastDev) == Ok(compatible)
      invariant dev <==> OnlyDev(compatible)
    {
      var v := versions[i];
      assert versions[..i + 1][..i] == versions[..i];
      match IsCompatible(v, approved, lastDev)
      case Err(e) =>
        ErrorPersists(versions, approved, lastDev, i + 1);
        return Err(e);
      case Ok(b) =>
        if b {
          compatible := compatible + [v];
          if !Contains(v, "dev") {
            dev := false;
          }
        }
      i := i + 1;
    }
    assert versions[..i] == versions;
    return Ok((compatible, dev));
  }

  /** Once a prefix of the versions fails, the whole list fails with the same exception. */
  lemma {:induction false} ErrorPersists(versions: seq<string>, approved: seq<string>, lastDev: int, k: nat)
    requires k <= |versions| && Compatible(versions[..k], approved, lastDev).Err?
    ensures Compatible(versions, approved, lastDev) == Compatible(versions[..k], approved, lastDev)
    decreases |versions| - k
  {
    if k < |versions| {
      assert versions[..k + 1][..k] == versions[..k];
      ErrorPersists(versions, approved, lastDev, k + 1);
    } else {
      assert versions[..k] == versions;
    }
  }

  // ---------------------------------------------------------------------------
  // Arena corners

  /** The smaller and the larger of two coordinates. */
  function Order(a: real, b: real): (r: (real, real))
    ensures r.0 <= r.1
    ensures (r.0 == a && r.1 == b) || (r.0 == b && r.1 == a)
  {
    if a < b then (a, b) else (b, a)
  }

  /** Two opposite corners of an arena turned into its minimum and maximum corners, axis by axis. */
  function Normalise(c1: Point, c2: Point): (r: (Point, Point))
    ensures r.0.x <= r.1.x && r.0.y <= r.1.y && r.0.z <= r.1.z
    ensures {r.0.x, r.1.x} == {c1.x, c2.x} && {r.0.y, r.1.y} == {c1.y, c2.y} && {r.0.z, r.1.z} == {c1.z, c2.z}
  {
    var (x0, x1) := Order(c1.x, c2.x);
    var (y0, y1) := Order(c1.y, c2.y);
    var (z0, z1) := Order(c1.z, c2.z);
    (Point(x0, y0, z0), Point(x1, y1, z1))
  }

  /** Normalising does not depend on which corner is given first. */
  lemma NormaliseSymmetric(c1: Point, c2: Point)
    ensures Normalise(c1, c2) == Normalise(c2, c1)
  {
  }

  function PointOf(l: Location): Point {
    Point(l.x, l.y, l.z)
  }

  // ---------------------------------------------------------------------------
  // Minigame instances

  /** A spawn written to the top level of the arena store by `addSpawn`. */
  datatype StraySpawn = StraySpawn(x: real, y: real, z: real, pitch: real, yaw: real)

  class Minigame {
    const pluginName: string
    const config: Config
    const host: Host
    var rounds: map<string, Round>
    var arenas: map<string, ArenaRecord>
    var strays: map<nat, StraySpawn>

    constructor (pluginName: string, config: Config, host: Host, arenas: map<string, ArenaRecord>)
      ensures this.pluginName == pluginName && this.config == config && this.host == host
      ensures rounds == map[] && this.arenas == arenas && strays == map[]
    {
      this.pluginName := pluginName;
      this.config := config;
      this.host := host;
      rounds := map[];
      this.arenas := arenas;
      strays := map[];
    }

    /**
     * `createRound(arena, discrete, preparationTime, roundTime)`: a fresh waiting round of the
     * stored arena with the given stage lengths, stored under the arena's name in place of any
     * earlier round there.
     */
    method CreateRound(arena: string, preparationTime: int, roundTime: int) returns (result: Result<Round, Error>)
      modifies this
      ensures arenas == old(arenas) && strays == old(strays)
      ensures arena !in arenas ==> result == Err(ArenaNotExists) && rounds == old(rounds)
      ensures arena in arenas ==>
        result.Ok? && fresh(result.value) && rounds == old(rounds)[arena := result.value]
        && result.value.Valid() && result.value.arena == arena && result.value.plugin == pluginName
        && result.value.stage == WAITING && result.value.players == map[]
        && result.value.prepareTime == preparationTime && result.value.roundTime == roundTime
        && result.value.spawns == LoadedSpawns(arenas[arena].world, arenas[arena].spawns)
    {
      if arena !in arenas {
        return Err(ArenaNotExists);
      }
      var r := new Round(pluginName, arena, arenas[arena], config.(prepareTime := preparationTime, playingTime := roundTime), host);
      rounds := rounds[arena := r];
      return Ok(r);
    }

    /**
     * `createArena(name, spawn, corner1, corner2)`: refuses corners in another world than the
     * spawn and a name already stored; otherwise stores the arena with the spawn as its spawn 0,
     * marked as bounded exactly when the first corner is given, with normalised corners when
     * both are.
     */
    method CreateArena(name: string, spawn: Location, corner1: Option<Location>, corner2: Option<Location>) returns (error: Option<Error>)
      modifies this
      ensures rounds == old(rounds) && strays == old(strays)
      ensures corner1.Some? && corner2.Some? && (spawn.world != corner1.value.world || spawn.world != corner2.value.world) ==>
        error == Some(InvalidLocation) && arenas == old(arenas)
      ensures !(corner1.Some? && corner2.Some? && (spawn.world != corner1.value.world || spawn.world != corner2.value.world)) ==>
        if name in old(arenas) then error == Some(ArenaExists) && arenas == old(arenas)
        else error.None? && arenas == old(arenas)[name := ArenaRecord(spawn.world, [spawn], corner1.Some?,
          if corner1.Some? && corner2.Some? then Some(Normalise(PointOf(corner1.value), PointOf(corner2.value))) else None)]
    {
      var corners: Option<(Point, Point)> := None;
      if corner1.Some? && corner2.Some? {
        if spawn.world != corner1.value.world {
          return Some(InvalidLocation);
        }
        if spawn.world != corner2.value.world {
          return Some(InvalidLocation);
        }
        corners := Some(Normalise(PointOf(corner1.value), PointOf(corner2.value)));
      }
      if name in arenas {
        return Some(ArenaExists);
      }
      arenas := arenas[name := ArenaRecord(spawn.world, [spawn], corner1.Some?, corners)];
      error := None;
    }

    /** Some round of this minigame has `name` in its roster. */
    ghost predicate IsParticipant(name: string)
      reads this, rounds.Values
    {
      exists a :: a in rounds && name in rounds[a].players
    }

    /** `getMGPlayer(name)`: the entry of the first round, in map order, whose roster holds `name`. */
    method GetMGPlayer(name: string) returns (p: Option<Participant>)
      ensures p.Some? ==> exists a :: a in rounds && name in rounds[a].players && rounds[a].players[name] == p.value
      ensures p.None? <==> !IsParticipant(name)
    {
      var remaining := rounds.Keys;
      while remaining != {}
        invariant remaining <= rounds.Keys
        invariant forall a :: a in rounds && a !in remaining ==> name !in rounds[a].players
        decreases |remaining|
      {
        var a :| a in remaining;
        if name in rounds[a].players {
          return Some(rounds[a].players[name]);
        }
        remaining := remaining - {a};
      }
      return None;
    }

    /** `isPlayer(name)`: some round of the minigame holds `name`. */
    method IsPlayer(name: string) returns (b: bool)
      ensures b <==> IsParticipant(name)
    {
      var p := GetMGPlayer(name);
      b := p.Some?;
    }

    /**
     * `addSpawn(arena, x, y, z, pitch, yaw)`: appends the spawn to the live round of the arena,
     * if there is one, and writes it to the store in slot 0 at the top level (the search for a
     * free slot never runs), leaving the arena's own record as it was.
     */
    method AddSpawn(arena: string, x: real, y: real, z: real, pitch: real, yaw: real) returns (slot: nat)
      requires arena in rounds ==> rounds[arena].Valid()
      modifies this, if arena in rounds then {rounds[arena]} else {}
      ensures rounds == old(rounds) && arenas == old(arenas)
      ensures slot == 0 && strays == old(strays)[slot := StraySpawn(x, y, z, pitch, yaw)]
      ensures arena in rounds ==>
        rounds[arena].Valid()
        && rounds[arena].spawns == old(rounds[arena].spawns) + [Location(rounds[arena].world, x, y, z, pitch, yaw)]
        && rounds[arena].players == old(rounds[arena].players) && rounds[arena].stage == old(rounds[arena].stage)
        && rounds[arena].time == old(rounds[arena].time) && rounds[arena].timerHandle == old(rounds[arena].timerHandle)
        && rounds[arena].minBound == old(rounds[arena].minBound) && rounds[arena].maxBound == old(rounds[arena].maxBound)
        && rounds[arena].rollback == old(rounds[arena].rollback)
    {
      if arena in rounds {
        var r := rounds[arena];
        r.spawns := r.spawns + [Location(r.world, x, y, z, pitch, yaw)];
      }
      slot := 0;
      strays := strays[slot := StraySpawn(x, y, z, pitch, yaw)];
    }
  }

  /** The static map from plugin name to its registered minigame. */
  class Registry {
    var instances: map<string, Minigame>

    constructor ()
      ensures instances == map[]
    {
      instances := map[];
    }

    /** `getMinigameInstance(plugin)`: the minigame registered for `plugin`, if any. */
    function Get(plugin: Option<string>): (m: Option<Minigame>)
      reads this
      ensures m.Some? <==> plugin.Some? && plugin.value in instances
      ensures m.Some? ==> m.value == instances[plugin.value] && m.value in instances.Values
    {
      if plugin.Some? && plugin.value in instances then Some(instances[plugin.value]) else None
    }

    /**
     * The `Minigame` constructor: a second instance for the same plugin is refused; otherwise
     * the approved versions are checked (an exception there aborts the registration) and the new
     * instance is registered. Also returns the compatible versions and the development-only flag
     * the constructor logs.
     */
    method Register(pluginName: string, versions: seq<string>, approved: seq<string>, lastDev: int,
                    config: Config, host: Host, arenas: map<string, ArenaRecord>)
      returns (result: Result<Minigame, Error>, compatible: seq<string>, dev: bool)
      modifies this
      ensures pluginName in old(instances) ==> result == Err(IllegalArgument) && instances == old(instances)
      ensures pluginName !in old(instances) && Compatible(versions, approved, lastDev).Err? ==>
        result == Err(Compatible(versions, approved, lastDev).error) && instances == old(instances)
      ensures pluginName !in old(instances) && Compatible(versions, approved, lastDev).Ok? ==>
        result.Ok? && fresh(result.value) && instances == old(instances)[pluginName := result.value]
        && result.value.pluginName == pluginName && result.value.rounds == map[]
        && compatible == Compatible(versions, approved, lastDev).value && (dev <==> OnlyDev(compatible))
    {
      compatible, dev := [], true;
      if pluginName in instances {
        return Err(IllegalArgument), compatible, dev;
      }
      var check := CheckVersions(versions, approved, lastDev);
      if check.Err? {
        return Err(check.error), compatible, dev;
      }
      compatible, dev := check.value.0, check.value.1;
      var m := new Minigame(pluginName, config, host, arenas);
      instances := instances[pluginName := m];
      result := Ok(m);
    }
  }
}
