/*
 * The participant record of the older library tree (`MGLib/src`): a name, the arena it plays in
 * (absent when none), the minigame plugin it belongs to, and whether it is "dead" in the game.
 *
 * The only constructor never assigns the plugin, so a constructed record has none, and every
 * lookup of its minigame through the registry finds nothing.
 */
module Players {
  import opened Wrappers
  import opened Exceptions
  import opened Rounds
  import opened Minigames

  /** The rounds of the minigame registered for `plugin`, none when there is no such minigame. */
  function RoundsOf(registry: Registry, plugin: Option<string>): (rs: set<Round>)
    reads registry, registry.instances.Values
    ensures registry.Get(plugin).None? ==> rs == {}
    ensures registry.Get(plugin).Some? ==> rs == registry.Get(plugin).value.rounds.Values
  {
    match registry.Get(plugin)
    case None => {}
    case Some(m) => m.rounds.Values
  }

  class MGPlayer {
    var plugin: Option<string>
    const name: string
    var arena: Option<string>
    var dead: bool

    /** `MGPlayer(name, arena)`: alive, and with no plugin. */
    constructor (name: string, arena: Option<string>)
      ensures this.name == name && this.arena == arena && !dead
      ensures plugin.None?
    {
      this.name := name;
      this.arena := arena;
      dead := false;
      plugin := None;
    }

    /** `setArena(arena)`: only the arena changes. */
    method SetArena(arena: Option<string>)
      modifies this
      ensures this.arena == arena
      ensures plugin == old(plugin) && dead == old(dead)
    {
      this.arena := arena;
    }

    /** `setDead(dead)`: only the dead flag changes. */
    method SetDead(dead: bool)
      modifies this
      ensures this.dead == dead
      ensures plugin == old(plugin) && arena == old(arena)
    {
      this.dead := dead;
    }

    /**
     * `getRound()`: looks the arena up, at the time of the call, in the round map of the
     * plugin's minigame; a missing minigame is dereferenced (a null pointer), and a missing
     * arena finds no round.
     */
    function GetRound(registry: Registry): (r: Result<Option<Round>, Error>)
      reads this, registry, registry.instances.Values
      ensures r.Err? <==> registry.Get(plugin).None?
      ensures r.Err? ==> r.error == NullPointer
      ensures r.Ok? && r.value.Some? ==>
        arena.Some? && arena.value in registry.Get(plugin).value.rounds
        && r.value.value == registry.Get(plugin).value.rounds[arena.value]
      ensures r.Ok? && r.value.None? ==> arena.None? || arena.value !in registry.Get(plugin).value.rounds
    {
      match registry.Get(plugin)
      case None => Err(NullPointer)
      case Some(m) => Ok(if arena.Some? && arena.value in m.rounds then Some(m.rounds[arena.value]) else None)
    }

    /**
     * `removeFromRound(location)`: an offline player is refused with an illegal argument, and so
     * is one found in no round. Otherwise the entry is removed from the first round (in map order)
     * whose roster holds the name, after which the removed entry is read back and dereferenced:
     * a null pointer, so the record is never reset, nobody is teleported and no leave event is
     * sent. Every call therefore fails. Changes no roster but the one it removes from.
     */
    method RemoveFromRound(location: Location, online: map<string, Location>, registry: Registry)
      returns (error: Option<Error>, ghost removedFrom: Option<Round>)
      modifies RoundsOf(registry, plugin)
      ensures error.Some?
      ensures name !in online ==> error == Some(IllegalArgument) && removedFrom.None?
      ensures name in online && registry.Get(plugin).None? ==> error == Some(NullPointer) && removedFrom.None?
      ensures name in online && registry.Get(plugin).Some? ==>
        var m := registry.Get(plugin).value;
        if exists a :: a in m.rounds && name in old(m.rounds[a].players) then
          error == Some(NullPointer) && removedFrom.Some? && removedFrom.value in m.rounds.Values
          && name in old(removedFrom.value.players)
          && removedFrom.value.players == old(removedFrom.value.players) - {name}
        else
          error == Some(IllegalArgument) && removedFrom.None?
      ensures forall r :: r in RoundsOf(registry, plugin) && Some(r) != removedFrom ==> r.players == old(r.players)
    {
      if name !in online {
        return Some(IllegalArgument), None;
      }
      var found := registry.Get(plugin);
      if found.None? {
        return Some(NullPointer), None;
      }
      var m := found.value;
      var remaining := m.rounds.Keys;
      while remaining != {}
        invariant remaining <= m.rounds.Keys
        invariant forall a :: a in m.rounds && a !in remaining ==> name !in m.rounds[a].players
        invariant forall r :: r in m.rounds.Values ==> r.players == old(r.players)
        decreases |remaining|
      {
        var a :| a in remaining;
        var r := m.rounds[a];
        if name in r.players {
          r.players := r.players - {name};
          // the entry just removed is read back: `get` gives null, and `setArena` on it fails
          return Some(NullPointer), Some(r);
        }
        remaining := remaining - {a};
      }
      return Some(IllegalArgument), None;
    }

    /**
     * `equals(p)`: the unchecked cast throws for an object of another class, and reading the
     * name of null throws. Otherwise the name, the arena and the dead flag decide; the plugin
     * does not. The tests are made in that order and stop at the first that fails, and the arena
     * test dereferences its own arena, so a record without an arena fails with a null pointer
     * exactly when the names agree.
     */
    function Equals(p: Argument<MGPlayer>): (r: Result<bool, Error>)
      reads this, if p.Instance? then {p.value} else {}
      ensures p.Foreign? <==> r == Err(ClassCast)
      ensures p.Null? ==> r == Err(NullPointer)
      ensures p.Instance? ==> (r.Err? <==> name == p.value.name && arena.None?)
      ensures p.Instance? && r.Err? ==> r.error == NullPointer
      ensures p.Instance? && r.Ok? ==> (r.value <==> name == p.value.name && arena == p.value.arena && dead == p.value.dead)
    {
      match p
      case Foreign => Err(ClassCast)
      case Null => Err(NullPointer)
      case Instance(other) =>
        if name != other.name then Ok(false)
        else if arena.None? then Err(NullPointer)
        else Ok(arena == other.arena && dead == other.dead)
    }
  }

  /** A newly constructed record can never reach its round: it has no plugin to look up. */
  method NewPlayerHasNoRound(name: string, arena: Option<string>, registry: Registry) returns (p: MGPlayer)
    ensures fresh(p) && p.GetRound(registry) == Err(NullPointer)
  {
    p := new MGPlayer(name, arena);
  }

  /**
   * Between records of the same name, equality is symmetric only when both have an arena:
   * otherwise the side without one throws.
   */
  lemma EqualsOneSided(a: MGPlayer, b: MGPlayer)
    requires a.name == b.name && a.arena.Some? && b.arena.None?
    ensures a.Equals(Instance(b)) == Ok(false)
    ensures b.Equals(Instance(a)) == Err(NullPointer)
  {
  }

  /** Records of different names are unequal both ways, with or without arenas: the name test comes first. */
  lemma DifferentNamesUnequal(a: MGPlayer, b: MGPlayer)
    requires a.name != b.name
    ensures a.Equals(Instance(b)) == Ok(false) && b.Equals(Instance(a)) == Ok(false)
  {
  }

  /** Two records with an arena compare the same way round, whatever their plugins. */
  lemma EqualsSymmetric(a: MGPlayer, b: MGPlayer)
    requires a.arena.Some? && b.arena.Some?
    ensures a.Equals(Instance(b)) == b.Equals(Instance(a))
  {
  }
}
