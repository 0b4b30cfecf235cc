/*
 * The utility functions of the library: the integer test, the shared table of the worlds each
 * minigame plugin plays in, and the level-gated log.
 */
module Util {
  import opened Wrappers
  import opened JavaStrings

  /** `isInteger(s)`: `Integer.parseInt(s)` succeeds. */
  function IsInteger(s: string): (b: bool)
    ensures b ==> |s| > 0
    ensures b ==> exists v :: INT_MIN <= v <= INT_MAX && ParseInt(s) == Some(v)
    ensures !b ==> ParseInt(s).None?
  {
    ParseInt(s).Some?
  }

  /** Every printed int is an integer. */
  lemma PrintedIsInteger(v: int)
    requires INT_MIN <= v <= INT_MAX
    ensures IsInteger(IntToString(v))
  {
    IntToStringParses(v);
  }

  /** A string of digits without sign is an integer exactly when its value fits in 32 bits. */
  lemma DigitsAreIntegerIffInRange(n: nat)
    ensures IsInteger(NatToString(n)) <==> n <= INT_MAX
  {
    DigitsOfNat(n);
    var s := NatToString(n);
    assert IsDigit(s[0]);
  }

  /** The empty string is not an integer, nor is a lone sign. */
  lemma SignAloneIsNotInteger()
    ensures !IsInteger("") && !IsInteger("-") && !IsInteger("+")
  {
  }

  /** `MGListener.worlds`: the worlds of each minigame plugin, by plugin name. */
  class WorldMap {
    var worlds: map<string, seq<string>>

    constructor ()
      ensures worlds == map[]
    {
      worlds := map[];
    }

    /** Some plugin's list holds `w`. */
    ghost predicate Registered(w: string)
      reads this
    {
      exists p :: p in worlds && w in worlds[p]
    }

    /** `getWorlds()`: every world of every plugin, each once. */
    method GetWorlds() returns (all: seq<string>)
      ensures Distinct(all)
      ensures forall w :: w in all <==> Registered(w)
    {
      all := [];
      var remaining := worlds.Keys;
      ghost var visited: set<string> := {};
      while remaining != {}
        invariant remaining + visited == worlds.Keys && remaining !! visited
        invariant Distinct(all)
        invariant forall w :: w in all <==> exists q :: q in visited && w in worlds[q]
        decreases |remaining|
      {
        var p :| p in remaining;
        all := AddAbsent(all, worlds[p]);
        visited := visited + {p};
        remaining := remaining - {p};
      }
    }

    /** The inner loop of `getWorlds()`: each world of `l` not yet in `all` is appended. */
    static method AddAbsent(all: seq<string>, l: seq<string>) returns (r: seq<string>)
      requires Distinct(all)
      ensures Distinct(r)
      ensures forall w :: w in r <==> w in all || w in l
    {
      r := all;
      var j := 0;
      while j < |l|
        invariant 0 <= j <= |l|
        invariant Distinct(r)
        invariant forall w :: w in r <==> w in all || w in l[..j]
      {
        if l[j] !in r {
          r := r + [l[j]];
        }
        assert l[..j + 1] == l[..j] + [l[j]];
        j := j + 1;
      }
      assert l[..|l|] == l;
    }

    /**
     * `getWorlds(plugin)`: the plugin's list; a plugin without one gets a new empty list,
     * stored for it. No other plugin's list changes.
     */
    method GetPluginWorlds(plugin: string) returns (l: seq<string>)
      modifies this
      ensures plugin in old(worlds) ==> l == old(worlds)[plugin] && worlds == old(worlds)
      ensures plugin !in old(worlds) ==> l == [] && worlds == old(worlds)[plugin := []]
    {
      if plugin in worlds {
        return worlds[plugin];
      }
      l := [];
      worlds := worlds[plugin := l];
    }
  }

  /** Asking twice for a plugin's worlds gives the same list, stored once. */
  method GetPluginWorldsTwice(m: WorldMap, plugin: string) returns (first: seq<string>, second: seq<string>)
    modifies m
    ensures first == second
    ensures m.worlds == old(m.worlds)[plugin := first]
  {
    first := m.GetPluginWorlds(plugin);
    ghost var between := m.worlds;
    second := m.GetPluginWorlds(plugin);
    assert m.worlds == between;
  }

  /** `log(message, level)`: the message is written exactly when the logging level reaches `level`. */
  function Log(message: string, level: int, loggingLevel: int): (written: Option<string>)
    ensures written.Some? <==> loggingLevel >= level
    ensures written.Some? ==> written.value == message
  {
    if loggingLevel >= level then Some(message) else None
  }
}
