# MGLib core, modelled in Dafny

MGLib is a library for Bukkit (Minecraft server) plugins that run minigames. A plugin registers a
`Minigame`. The minigame keeps its arenas (spawn points and optional bounding corners) and its
`Round`s. A round is an arena in play:

- a stage (waiting, preparing, playing);
- a clock, driven by a timer task once a second;
- a roster of participants;
- the checks made when a player joins or leaves.

A listener turns server events into decisions: damage and block changes are cancelled, players
are removed when they teleport out of an arena, and commands are refused. Messages are localized
in two ways:

- a per-plugin `Locale` table, loaded from `key|value` lines;
- localizable message objects, with translation tables, a fallback chain of locale codes and
  `%n` placeholders.

This project models that core in Dafny. There is one module per source unit:

| file | module | models |
|---|---|---|
| `wrappers.dfy` | `Wrappers`, `Exceptions` | Option/Result, and the exceptions the code throws |
| `java_strings.dfy` | `JavaStrings` | the Java string operations the core relies on: `split` (trailing empty fields dropped), `replaceAll` on a plain pattern, ASCII `toLowerCase`, `contains`, `Integer.parseInt` and decimal printing |
| `round.dfy` | `Rounds` | the `Round` class, its timer task as a function on clocks, the arena boundary and the server it talks to (a ghost event trace) |
| `minigame.dfy` | `Minigames` | version compatibility, the `Minigame` class and the static registry of instances |
| `mgplayer.dfy` | `Players` | the participant record of the older library tree |
| `mgutil.dfy` | `Util` | `isInteger`, the shared world lists, logging |
| `listener.dfy` | `Listener` | the event handlers' decisions |
| `locale.dfy` | `Locales` | the `Locale` table and its loading |
| `localizable.dfy` | `Localizables` | simple and combined localizable messages |

Objects that the source updates in place are classes: `Round`, `Minigame`, the registry,
`MGPlayer`, the world map, `Locale`, and the translation-table store. Their methods state the
whole new state. The rules those methods follow are functions (the timer step, the boundary
correction, the fallback resolution, the table built from loaded lines), and the lemmas are about
those functions.

The server is a parameter throughout:

- `online` maps each online player to its location;
- participant objects found or made by the server arrive as `found` and `created`;
- the loaded arena file arrives as a record;
- timer task ids arrive as `handle`;
- notifications are appended to a ghost trace in `Host`.

## Model

| member | source | states |
|---|---|---|
| Rounds.Remaining | src/main/java/net/amigocraft/mglib/api/Round.java:180-195 | in a preparing or playing stage with a positive limit, the limit minus the elapsed time; while waiting, or without a limit for the stage, -1 |
| Rounds.RemainingCountsDown | src/main/java/net/amigocraft/mglib/api/Round.java:430-447 | while time is left in a limited stage, one timer run keeps the stage and takes exactly one second off the remaining time |
| Rounds.PlayingRunsOut | src/main/java/net/amigocraft/mglib/api/Round.java:430-447 | a limited playing stage counts up to its limit, and the next run ends the round (waiting, time -1) |
| Rounds.PreparingRunsOut | src/main/java/net/amigocraft/mglib/api/Round.java:430-447 | a limited preparation stage counts up to its limit, and the next run starts play at time 0 |
| Rounds.WholeRound | src/main/java/net/amigocraft/mglib/api/Round.java:415-447 | a started round with a playing limit is over after exactly (prepare+1 if it prepares) + play + 1 timer runs |
| Rounds.UnlimitedPlayNeverEnds | src/main/java/net/amigocraft/mglib/api/Round.java:433-447 | with no playing limit, the timer only counts up and never ends the round |
| Rounds.CorrectionIffOutside | src/main/java/net/amigocraft/mglib/api/Round.java:452-471 | a participant is moved back exactly when standing outside the arena's box |
| Rounds.UnsetBoundsHoldEveryone | src/main/java/net/amigocraft/mglib/api/Round.java:452-469 | bounds that are NaN, as an arena stored with one corner has, fail no test, so nobody is ever moved |
| Rounds.CorrectionFixesOneAxis | src/main/java/net/amigocraft/mglib/api/Round.java:452-471 | in a box whose numeric minima are at most its numeric maxima, each correction fixes exactly one out-of-range axis and keeps the world |
| Rounds.AboveGoesToFloor | src/main/java/net/amigocraft/mglib/api/Round.java:462-463 | a participant above the box on y is sent to the box's floor, not its ceiling |
| Rounds.OneHitPerCorrection | src/main/java/net/amigocraft/mglib/api/Round.java:449-471 | the boundary pass sends exactly one border notification per participant outside the box |
| Rounds.AliveAndSpectatingPartition | src/main/java/net/amigocraft/mglib/api/Round.java:347-401 | alive and spectating participants together are the whole roster |
| Rounds.LoadedSpawns | src/main/java/net/amigocraft/mglib/api/Round.java:96-104 | one spawn per stored spawn, at its coordinates in the arena's world, facing pitch 0 and yaw 0: the orientation test looks under the arena's section, where the store never writes |
| Rounds.LoadedAsStoredIff | src/main/java/net/amigocraft/mglib/api/Round.java:96-104 | the loaded spawns equal the stored ones exactly when every stored spawn is in the arena's world at pitch 0 and yaw 0 |
| Rounds.Round.constructor | src/main/java/net/amigocraft/mglib/api/Round.java:86-127 | a waiting round at time 0 with no timer and an empty roster; spawns at the stored coordinates in the arena's world, all at pitch 0 and yaw 0 (`LoadedSpawns`); bounds present exactly when the arena is bounded, taken from the stored corners, or NaN on every axis when no corners are stored; times, capacity, exit and flags, the round's own rollback flag among them, from the configuration |
| Rounds.Round.Tick | src/main/java/net/amigocraft/mglib/api/Round.java:277-279 | the time goes up by one; nothing else changes |
| Rounds.Round.AddTime | src/main/java/net/amigocraft/mglib/api/Round.java:295-297 | the time goes up by t; nothing else changes |
| Rounds.Round.SubtractTime | src/main/java/net/amigocraft/mglib/api/Round.java:286-288 | the time goes down by t; nothing else changes |
| Rounds.Round.Start | src/main/java/net/amigocraft/mglib/api/Round.java:415-483 | a round that is not waiting is refused with an illegal-state error and left as it was; a waiting one gets the start clock (preparing if it has a preparation time, else playing, at 0), the timer handle, and a prepare or start notification followed by the scheduling |
| Rounds.Round.End | src/main/java/net/amigocraft/mglib/api/Round.java:491-506 | the round is waiting at time -1 with no timer; exactly the offline participants stay in the roster; every participant is visited once; the notifications are the timer cancellation when one ran, each participant's leave in visiting order, the end, and the rollback when the configuration (not the round's flag) enables it |
| Rounds.Round.RemoveEveryone | src/main/java/net/amigocraft/mglib/api/Round.java:497-502 | each participant is removed in turn, which leaves only the offline ones |
| Rounds.Round.RemoveVisited | src/main/java/net/amigocraft/mglib/api/Round.java:497-502 | removing one name still to visit: an online one leaves the roster, and its leave notifications are appended |
| Rounds.Round.Step | src/main/java/net/amigocraft/mglib/api/Round.java:430-476 | one timer run: the clock after it is `TimerStep` of the old one; a stage change is reported exactly when the limit was reached; the roster changes only when play runs out, and then exactly the offline participants stay; the pass succeeds exactly when no participant of a bounded round is offline; the notifications are the clock part's (see RunClock), then one teleport and border notification per visited participant outside the bounds, every participant being visited when the pass succeeds, then a tick exactly when the pass succeeded and the round has not ended |
| Rounds.Round.RunClock | src/main/java/net/amigocraft/mglib/api/Round.java:431-447 | the clock part of a timer run: the clock becomes `TimerStep` of the old one, and the roster changes only when play runs out (then exactly the offline participants stay); counting up notifies nothing, the end of preparation notifies the start of play, and running out of play notifies what `end(true)` does, with every participant visited once |
| Rounds.Round.EnforceBounds | src/main/java/net/amigocraft/mglib/api/Round.java:449-471 | each participant outside the box, in roster order, is moved by `Correction` and announced; the pass fails at the first participant who is not online |
| Rounds.Round.AddPlayer | src/main/java/net/amigocraft/mglib/api/Round.java:611-710 | the refusals in source order: offline, full, wrong stage (a message, no change), already in an arena, inventory not saved, no participant object; the failures that change nothing; otherwise the participant enters as `Enter` states |
| Rounds.Round.Enter | src/main/java/net/amigocraft/mglib/api/Round.java:701-709 | the entrant is put in the roster; with no spawns the join then fails (an illegal argument with random spawning, a division by zero otherwise); else the entrant is sent to the requested spawn when it is valid, to roster size modulo spawn count without random spawning, and announced, and the round starts exactly when it was waiting and has reached its minimum |
| Rounds.Round.RemovePlayer | src/main/java/net/amigocraft/mglib/api/Round.java:720-734 | a name not in the roster is refused; an online participant leaves the roster, reset and sent to the location; an offline one stays; the leave is announced either way |
| Rounds.Round.PlayerCount | src/main/java/net/amigocraft/mglib/api/Round.java:373-375 | the roster's size is the alive count plus the spectating count |
| Rounds.Round.CountWhere | src/main/java/net/amigocraft/mglib/api/Round.java:382-401 | the counting loop gives the number of participants with the given spectating flag |
| Rounds.Round.AliveCount | src/main/java/net/amigocraft/mglib/api/Round.java:382-388 | the number of participants not spectating |
| Rounds.Round.SpectatingCount | src/main/java/net/amigocraft/mglib/api/Round.java:395-401 | the number of spectating participants |
| Rounds.Round.ListWhere | src/main/java/net/amigocraft/mglib/api/Round.java:347-366 | exactly the roster entries with the given spectating flag, each once |
| Rounds.Round.AliveList | src/main/java/net/amigocraft/mglib/api/Round.java:347-353 | exactly the participants not spectating, each once |
| Rounds.Round.SpectatingList | src/main/java/net/amigocraft/mglib/api/Round.java:360-366 | exactly the spectating participants, each once |
| Rounds.Round.GetTeam | src/main/java/net/amigocraft/mglib/api/Round.java:333-340 | the sub-roster of exactly the participants on the team |
| Rounds.Round.SetMinBound | src/main/java/net/amigocraft/mglib/api/Round.java:544-546 | the minimum bound becomes the point in the round's world; fails with a null pointer on an unbounded arena; nothing else changes |
| Rounds.Round.SetMaxBound | src/main/java/net/amigocraft/mglib/api/Round.java:555-557 | as written, the minimum bound (not the maximum) becomes the point in the round's world, and the maximum bound never changes; fails with a null pointer on an unbounded arena |
| Rounds.Round.SetRollbackEnabled | src/main/java/net/amigocraft/mglib/api/Round.java:875-877 | only the round's own rollback flag changes |
| Rounds.Round.Equals | src/main/java/net/amigocraft/mglib/api/Round.java:943-946 | a class-cast error exactly for an object of another class, a null pointer exactly for null; for a round, equal exactly when the arena names are, nothing else taking part (partner: `EqualsIgnoresPluginAndStage`) |
| Rounds.EqualsIgnoresPluginAndStage | src/main/java/net/amigocraft/mglib/api/Round.java:943-946 | for all rounds, equality holds exactly when the arena names agree, whatever the plugins, stages and rosters, and it is symmetric |
| Rounds.EndTwice | src/main/java/net/amigocraft/mglib/api/Round.java:491-506 | ending an ended round is allowed and announces the end a second time |
| Rounds.RollbackIgnoresOwnFlag | src/main/java/net/amigocraft/mglib/api/Round.java:504-505 | whatever the round's own rollback flag is set to, ending it rolls the arena back exactly when the configuration enables rollback |
| Minigames.DevCheck | MGLib/src/net/amigocraft/mglib/api/Minigame.java:107-110 | only a version containing "dev" can be rejected or make the check throw |
| Minigames.IsCompatible | MGLib/src/net/amigocraft/mglib/api/Minigame.java:104-115 | a version is accepted only when some approved version occurs in it, and the check throws only on a "dev" version (partners: `FirstMatchDecides`, `NoMatchIncompatible`) |
| Minigames.Compatible | MGLib/src/net/amigocraft/mglib/api/Minigame.java:55-63 | the compatible versions are no more than the listed ones (partners: `CompatibleSound`, `ErrorPersists`) |
| Minigames.FirstMatchDecides | MGLib/src/net/amigocraft/mglib/api/Minigame.java:104-115 | the first approved version contained in the version decides compatibility, through the development-build check |
| Minigames.NoMatchIncompatible | MGLib/src/net/amigocraft/mglib/api/Minigame.java:104-115 | a version containing no approved version is incompatible |
| Minigames.DevBuildNumber | MGLib/src/net/amigocraft/mglib/api/Minigame.java:107-110 | a version `p + "dev" + n` passes exactly when n is at most the last development build |
| Minigames.TrailingDevIsOutOfBounds | MGLib/src/net/amigocraft/mglib/api/Minigame.java:107-110 | a version ending in "dev" makes the check fail with an out-of-bounds error |
| Minigames.LibraryVersions | MGLib/src/net/amigocraft/mglib/MGLib.java:22-28 | with the library's approved list ["0.1"] and last development build 11, a "0.1" build `dev n` is compatible exactly when n <= 11 |
| Minigames.CompatibleSound | MGLib/src/net/amigocraft/mglib/api/Minigame.java:57-63 | every version kept as compatible is an input that passed the check |
| Minigames.NoCompatibleIsOnlyDev | MGLib/src/net/amigocraft/mglib/api/Minigame.java:55-70 | when every listed version is a development build, or none passes the check, the compatible versions leave the plugin flagged as tested only against development builds |
| Minigames.CheckVersions | MGLib/src/net/amigocraft/mglib/api/Minigame.java:55-63 | the loop gives the compatible versions in order, and the development-only flag is set exactly when none of them lacks "dev"; or the first exception thrown |
| Minigames.ErrorPersists | MGLib/src/net/amigocraft/mglib/api/Minigame.java:57-63 | once a prefix of the versions throws, the whole list throws the same exception |
| Minigames.Order | MGLib/src/net/amigocraft/mglib/api/Minigame.java:230-253 | the smaller and larger of two coordinates, as a pair that is a permutation of the inputs |
| Minigames.Normalise | MGLib/src/net/amigocraft/mglib/api/Minigame.java:230-253 | the minimum corner is at or below the maximum corner on every axis, and each coordinate comes from one of the two corners |
| Minigames.NormaliseSymmetric | MGLib/src/net/amigocraft/mglib/api/Minigame.java:230-253 | normalising does not depend on the order of the corners |
| Minigames.Minigame.constructor | MGLib/src/net/amigocraft/mglib/api/Minigame.java:51-54 | a minigame for the plugin with no rounds, the given arenas and no stray spawns |
| Minigames.Minigame.CreateRound | MGLib/src/net/amigocraft/mglib/api/Minigame.java:173-178 | an unknown arena is refused; otherwise a fresh waiting round of the arena with the given times replaces any round stored under that name, its spawns loaded from the record without their pitch and yaw |
| Minigames.Minigame.CreateArena | MGLib/src/net/amigocraft/mglib/api/Minigame.java:200-284 | corners in another world are refused, and so is an existing name; otherwise the arena is stored with the spawn as its only spawn, bounded exactly when the first corner is given, with normalised corners when both are |
| Minigames.Minigame.GetMGPlayer | MGLib/src/net/amigocraft/mglib/api/Minigame.java:331-336 | absent exactly when no round has the name; otherwise an entry of a round whose roster holds it |
| Minigames.Minigame.IsPlayer | MGLib/src/net/amigocraft/mglib/api/Minigame.java:346-350 | true exactly when some round's roster holds the name |
| Minigames.Minigame.AddSpawn | MGLib/src/net/amigocraft/mglib/api/Minigame.java:362-381 | the spawn is appended to the arena's live round if any, which stays valid and keeps its roster, stage, clock, timer, bounds and rollback flag; the spawn is written to slot 0 at the top level of the store; the arena record is unchanged |
| Minigames.Registry.constructor | MGLib/src/net/amigocraft/mglib/api/Minigame.java:35 | no minigame is registered |
| Minigames.Registry.Get | MGLib/src/net/amigocraft/mglib/api/Minigame.java:132-134 | a minigame exactly when the plugin name is given and registered, and then the one registered under it |
| Minigames.Registry.Register | MGLib/src/net/amigocraft/mglib/api/Minigame.java:51-83 | a plugin already registered is refused with an illegal-argument error; an exception in the version check aborts; otherwise the new instance is registered under the plugin and nothing else changes |
| Players.RoundsOf | MGLib/src/net/amigocraft/mglib/round/MGPlayer.java:91-93 | the rounds of the plugin's minigame, or none when it has no minigame |
| Players.MGPlayer.constructor | MGLib/src/net/amigocraft/mglib/round/MGPlayer.java:16-30 | a live record with the name and arena and no plugin |
| Players.MGPlayer.SetArena | MGLib/src/net/amigocraft/mglib/round/MGPlayer.java:72-74 | only the arena changes |
| Players.MGPlayer.SetDead | MGLib/src/net/amigocraft/mglib/round/MGPlayer.java:100-102 | only the dead flag changes |
| Players.MGPlayer.GetRound | MGLib/src/net/amigocraft/mglib/round/MGPlayer.java:91-93 | a null-pointer error exactly when the plugin has no minigame; otherwise the round stored under the arena, if any |
| Players.MGPlayer.RemoveFromRound | MGLib/src/net/amigocraft/mglib/round/MGPlayer.java:119-138 | always fails: offline gives an illegal argument, and so does a name found in no round; a name found is removed from that round's roster and then fails with a null pointer; no other roster changes |
| Players.MGPlayer.Equals | MGLib/src/net/amigocraft/mglib/round/MGPlayer.java:140-143 | a class-cast error exactly for an object of another class and a null pointer for null; for a record, the tests stop at the first that fails: a null pointer exactly when the names agree and its own arena is absent, otherwise equal exactly when name, arena and dead flag agree |
| Players.NewPlayerHasNoRound | MGLib/src/net/amigocraft/mglib/round/MGPlayer.java:27-30 | a newly constructed record's round lookup always fails with a null pointer |
| Players.EqualsOneSided | MGLib/src/net/amigocraft/mglib/round/MGPlayer.java:140-143 | between records of the same name, one with an arena and one without, equality gives false one way and a null pointer the other way |
| Players.DifferentNamesUnequal | MGLib/src/net/amigocraft/mglib/round/MGPlayer.java:140-143 | records of different names are unequal both ways, with or without arenas |
| Players.EqualsSymmetric | MGLib/src/net/amigocraft/mglib/round/MGPlayer.java:140-143 | between records that both have an arena, equality is symmetric |
| Util.IsInteger | src/main/java/net/amigocraft/mglib/MGUtil.java:66-73 | true exactly when the string parses as a 32-bit integer |
| Util.PrintedIsInteger | src/main/java/net/amigocraft/mglib/MGUtil.java:66-73 | every printed 32-bit integer is an integer |
| Util.DigitsAreIntegerIffInRange | src/main/java/net/amigocraft/mglib/MGUtil.java:66-73 | a string of digits is an integer exactly when its value is at most 2^31-1 |
| Util.SignAloneIsNotInteger | src/main/java/net/amigocraft/mglib/MGUtil.java:66-73 | neither the empty string nor a lone sign is an integer |
| Util.WorldMap.constructor | MGLib/src/net/amigocraft/mglib/MGListener.java:60 | no plugin has worlds |
| Util.WorldMap.GetWorlds | src/main/java/net/amigocraft/mglib/MGUtil.java:80-87 | every world of every plugin, each exactly once |
| Util.WorldMap.AddAbsent | src/main/java/net/amigocraft/mglib/MGUtil.java:80-87 | the worlds of the list not yet collected are appended, so the collection stays without repeats and holds exactly both |
| Util.WorldMap.GetPluginWorlds | src/main/java/net/amigocraft/mglib/MGUtil.java:95-103 | the plugin's list, or a new empty list stored for it; no other plugin's list changes |
| Util.GetPluginWorldsTwice | src/main/java/net/amigocraft/mglib/MGUtil.java:95-103 | asking twice gives the same list, and the map changes only in the plugin's entry |
| Util.Log | src/main/java/net/amigocraft/mglib/MGUtil.java:111-114 | the message is written exactly when the logging level reaches its level |
| Listener.OnEntityDamage | MGLib/src/net/amigocraft/mglib/MGListener.java:116-149 | cancelled exactly when an entity dealt the damage and, in some minigame, the attacking player or the player hit is barred |
| Listener.OnPlayerTeleport | MGLib/src/net/amigocraft/mglib/MGListener.java:186-223 | the removals are exactly the (minigame, first round holding the player) pairs whose round the destination leaves, one per minigame, in order |
| Listener.OnInventoryClick | MGLib/src/net/amigocraft/mglib/MGListener.java:225-243 | a block-inventory click is logged for the first running round holding the player, and not at all when there is none |
| Listener.OnBlockChange | MGLib/src/net/amigocraft/mglib/MGListener.java:245-269 | the change is logged for exactly the guarded rounds whose minigame permits it; it is cancelled exactly when a guarded round's minigame forbids it |
| Listener.OnEnvironment | MGLib/src/net/amigocraft/mglib/MGListener.java:271-404 | a null pointer exactly when a plugin listing the world has no minigame; otherwise cancelled exactly when some listing plugin's minigame forbids the event |
| Listener.ScanWorlds | MGLib/src/net/amigocraft/mglib/MGListener.java:275-282 | over one plugin's worlds: a null pointer exactly when the world is listed and the plugin has no minigame; otherwise the block is protected exactly when the world is listed and the minigame forbids the event |
| Listener.AddWorlds | MGLib/src/net/amigocraft/mglib/MGListener.java:67-83 | a loaded arena file replaces the plugin's list with its arena names; otherwise the map is unchanged |
| Listener.OnInteractGate | MGLib/src/net/amigocraft/mglib/MGListener.java:441-450 | cancelled exactly when the player is spectating in some minigame |
| Listener.OnCommand | MGLib/src/net/amigocraft/mglib/MGListener.java:518-539 | the warnings are exactly the minigames the player is in whose flags forbid the command, in order; cancelled exactly when there is one |
| Listener.SignIndex | MGLib/src/net/amigocraft/mglib/MGListener.java:412-415 | refused exactly for a "players" sign whose fourth line is no integer; otherwise the parsed fourth line, or 0 |
| Locales.ParseLine | src/main/java/net/amigocraft/mglib/api/Locale.java:122-125 | a line gives an entry only when it has a pipe, and the key is exactly what comes before the first one (partners: `ParseKeyValue`, `ParseDropsExtraFields`, `EmptyValueIgnored`) |
| Locales.ParseKeyValue | src/main/java/net/amigocraft/mglib/api/Locale.java:122-125 | a line `key|value` gives back its key and non-empty value |
| Locales.ParseDropsExtraFields | src/main/java/net/amigocraft/mglib/api/Locale.java:122-125 | fields after the second are ignored |
| Locales.EmptyValueIgnored | src/main/java/net/amigocraft/mglib/api/Locale.java:122-125 | a line `key|` is skipped, because the split drops the empty trailing field |
| Locales.PrimaryLastWins | src/main/java/net/amigocraft/mglib/api/Locale.java:121-126 | of several configured-locale lines with one key, the last one's value is stored |
| Locales.PrimaryKeepsOthers | src/main/java/net/amigocraft/mglib/api/Locale.java:121-126 | a key no configured-locale line carries keeps its earlier entry or stays absent |
| Locales.DefaultOverwritesLowerCased | src/main/java/net/amigocraft/mglib/api/Locale.java:132-139 | a default line whose key has upper case overwrites the entry under its lower-cased key |
| Locales.DefaultSkipsPresent | src/main/java/net/amigocraft/mglib/api/Locale.java:132-139 | a default line whose key is present as written changes nothing |
| Locales.Prefix | src/main/java/net/amigocraft/mglib/api/Locale.java:64-67 | empty exactly for "MGLib"; otherwise the plugin name in brackets |
| Locales.Locale.constructor | src/main/java/net/amigocraft/mglib/api/Locale.java:64-67 | the plugin, its prefix, and no messages |
| Locales.Locale.GetMessage | src/main/java/net/amigocraft/mglib/api/Locale.java:76-82 | the message under the lower-cased key, or the key itself |
| Locales.Locale.Initialize | src/main/java/net/amigocraft/mglib/api/Locale.java:90-160 | nothing is read without a resource; otherwise the table is the default lines merged over the configured lines merged over the old table |
| Locales.Locale.ReadPrimary | src/main/java/net/amigocraft/mglib/api/Locale.java:117-127 | the reading loop builds `PrimaryTable` of the lines |
| Locales.Locale.ReadDefaults | src/main/java/net/amigocraft/mglib/api/Locale.java:128-140 | the reading loop builds `DefaultTable` of the lines |
| Locales.UpperCaseKeyUnreachable | src/main/java/net/amigocraft/mglib/api/Locale.java:76-82 | a key stored with upper case is never found by a lookup |
| Locales.LookupBeforeLoading | src/main/java/net/amigocraft/mglib/api/Locale.java:64-82 | before loading, every lookup gives the key back |
| Localizables.Strip | src/main/java/net/amigocraft/mglib/impl/BukkitLocalizable.java:76 | the code with every '_' and '-' deleted and every other character kept in order (`Without`) |
| Localizables.Normalize | src/main/java/net/amigocraft/mglib/impl/BukkitLocalizable.java:115 | the stripped code lower-cased: `ToLower` of `Without`, hence no '_', no '-' and no upper-case letter |
| Localizables.NormalizeIdempotent | src/main/java/net/amigocraft/mglib/impl/BukkitLocalizable.java:115 | normalising twice is normalising once |
| Localizables.AddedWithUpperCaseIsMissed | src/main/java/net/amigocraft/mglib/impl/BukkitLocalizable.java:75-78 | a translation stored under a code with upper case is never the code a lookup uses |
| Localizables.TranslationStore.constructor | src/main/java/net/amigocraft/mglib/impl/BukkitLocalizable.java:59 | no tables yet |
| Localizables.TranslationStore.NewMessage | src/main/java/net/amigocraft/mglib/impl/BukkitLocalizable.java:54-60 | a simple message with a new, empty table, and no other table changes |
| Localizables.TranslationStore.AddLocale | src/main/java/net/amigocraft/mglib/impl/BukkitLocalizable.java:75-78 | the translation is stored under the stripped code in the message's table only |
| Localizables.CreateChild | src/main/java/net/amigocraft/mglib/impl/BukkitLocalizable.java:85-87 | the child has the key, the table and the parent of the message, and the new replacements |
| Localizables.GetLocales | src/main/java/net/amigocraft/mglib/impl/BukkitLocalizable.java:89-91 | the message's table, which its children share (`CreateChild`, `AddThroughChild`) |
| Localizables.AddThroughChild | src/main/java/net/amigocraft/mglib/impl/BukkitLocalizable.java:62-91 | a translation added through a child lands in the root's table |
| Localizables.GetParent | src/main/java/net/amigocraft/mglib/impl/CombinedLocalizable.java:54-56 | a simple message's own parent; a combined one's comes from its first element, and an empty one fails with an out-of-bounds error |
| Localizables.GetKey | src/main/java/net/amigocraft/mglib/impl/CombinedLocalizable.java:45-51 | a simple message's own key; a combined message with elements has a key ending in '+' (partners: `KeyCountsElements`, `ConcatKey`) |
| Localizables.Keys | src/main/java/net/amigocraft/mglib/impl/CombinedLocalizable.java:45-51 | at least one character per element, the last one a '+' when there are elements |
| Localizables.GetReplacements | src/main/java/net/amigocraft/mglib/impl/CombinedLocalizable.java:59-65 | a simple message's own replacements; a combined message's hold every replacement of every element (partner: `ConcatReplacements`) |
| Localizables.AllReplacements | src/main/java/net/amigocraft/mglib/impl/CombinedLocalizable.java:59-65 | every replacement of every element is in the joined list |
| Localizables.KeyCountsElements | src/main/java/net/amigocraft/mglib/impl/CombinedLocalizable.java:45-51 | with no '+' in the element keys, a combined key has one '+' per element |
| Localizables.Equals | src/main/java/net/amigocraft/mglib/impl/BukkitLocalizable.java:209-216 | false for a non-message; otherwise equal parents and equal keys, or the error of either parent lookup |
| Localizables.ChildEqualsParent | src/main/java/net/amigocraft/mglib/impl/BukkitLocalizable.java:209-216 | a child equals its message both ways, whatever its replacements |
| Localizables.Concatenated | src/main/java/net/amigocraft/mglib/impl/CombinedLocalizable.java:68-77 | the copied lists with a combined argument's lists appended, or a simple argument appended as one element with no separator |
| Localizables.Concat | src/main/java/net/amigocraft/mglib/impl/CombinedLocalizable.java:68-79 | always fails with a class-cast error |
| Localizables.ConcatWithSpace | src/main/java/net/amigocraft/mglib/impl/CombinedLocalizable.java:82-84 | the same as a concatenation with any separator |
| Localizables.ConcatKey | src/main/java/net/amigocraft/mglib/impl/CombinedLocalizable.java:45-77 | the assembled message's key is the two keys joined, with a '+' after a simple argument |
| Localizables.ConcatReplacements | src/main/java/net/amigocraft/mglib/impl/CombinedLocalizable.java:59-77 | the assembled message's replacements are the two lists joined |
| Localizables.Substitute | src/main/java/net/amigocraft/mglib/impl/BukkitLocalizable.java:117-123 | the substitution loop gives `Substituted` of the message and the texts |
| Localizables.NoPlaceholderUnchanged | src/main/java/net/amigocraft/mglib/impl/BukkitLocalizable.java:117-123 | a message without '%' is unchanged by substitution |
| Localizables.FirstPlaceholderEatsTenth | src/main/java/net/amigocraft/mglib/impl/BukkitLocalizable.java:122 | replacing "%1" rewrites the start of "%10" too |
| Localizables.NormalisedServerEnds | src/main/java/net/amigocraft/mglib/impl/BukkitLocalizable.java:126-134 | with a normalised server code, the fallback chain always ends |
| Localizables.Texts | src/main/java/net/amigocraft/mglib/impl/BukkitLocalizable.java:118-121 | one text per replacement: a plain object's own text, or a nested message's localization in the same code; an error exactly when some nested message's localization fails |
| Localizables.PlainTexts | src/main/java/net/amigocraft/mglib/impl/BukkitLocalizable.java:120-121 | the i-th text is the i-th plain replacement's text |
| Localizables.LocalizeFollowsResolution | src/main/java/net/amigocraft/mglib/impl/BukkitLocalizable.java:114-135 | with plain replacements and three calls available, `localize` gives the substituted translation the fallback chain resolves to, or the raw key |
| Localizables.UnendingOverflows | src/main/java/net/amigocraft/mglib/impl/BukkitLocalizable.java:126-134 | a lookup the chain sends round forever overflows the stack, however deep the stack |
| Localizables.Localize | src/main/java/net/amigocraft/mglib/impl/BukkitLocalizable.java:114-135 | without fuel the stack overflows; a combined message with no elements fails with an out-of-bounds error; a combined message's text ends with a space; the only errors are the overflow and that one (partners: `LocalizeFollowsResolution`, `UnendingOverflows`) |
| Localizables.Joined | src/main/java/net/amigocraft/mglib/impl/CombinedLocalizable.java:87-94 | the elements' texts each followed by a space: at least one character per element, ending in a space when there are elements; the only errors are those `Localize` gives |
| Localizables.JoinedFailsIff | src/main/java/net/amigocraft/mglib/impl/CombinedLocalizable.java:87-94 | a combined message's text fails exactly when one of its elements fails |
| Localizables.EmptyCombinedFails | src/main/java/net/amigocraft/mglib/impl/CombinedLocalizable.java:92 | a combined message with no elements fails with an out-of-bounds error, since dropping its last character asks for a substring ending at -1 |
| Localizables.CombinedEndsWithSpace | src/main/java/net/amigocraft/mglib/impl/CombinedLocalizable.java:87-94 | a combined message's text does not depend on its separators, and ends with the space after its last element |

## Left out

- Bukkit itself is not part of this model. That covers worlds, player objects, inventories, the scheduler, events and chat. The server's answers are parameters, and its effects are a ghost trace of events.
- Rounds.Round.Tick: the time is an unbounded integer. Java's 32-bit wrap-around after 2^31-1 seconds is not modelled.
- Rounds.Round.AddTime: likewise, the time does not wrap at 32 bits.
- Rounds.Round.SubtractTime: likewise, the time does not wrap at 32 bits.
- Rounds.Round.AddPlayer: the inventory snapshot (file I/O) is reduced to whether it could be written.
- Rounds.Round.AddPlayer: a participant object is a value in the roster. Aliasing between the minigame's and the round's copy is not modelled.
- The rollback manager, lobby signs beyond the sign-index check, metadata, broadcasts and `hashCode` are not modelled; they are I/O or plain accessors.
- Plain getters and setters of `Round` and `Minigame` are not modelled.
- The `Round` constructor's failure when the arena's world cannot be loaded is not modelled. The arena record is given already loaded.
- Minigames.Minigame.CreateRound: the `discrete` flag is not modelled. It only affects persistence.
- Minigames.Minigame.CreateArena: the name test is on string contents, where the source compares references with `!=`.
- Minigames.Minigame.CreateArena: corner coordinates that are NaN are not modelled. Player and corner coordinates are reals; only the bounds a one-corner arena stores are NaN.
- Minigames.Minigame.CreateArena: the registration of the world is not modelled. It adds the world to a list built fresh on each call from the configuration, so it has no lasting effect.
- Minigames.Registry.Register: the plugin's own construction, the log lines and the rollback check after registration are not modelled.
- Minigames.Minigame.GetMGPlayer: the round map is visited in an unspecified order, standing in for `HashMap` iteration.
- Players.MGPlayer.RemoveFromRound: the round map is likewise visited in an unspecified order.
- `MGListener.onPlayerQuit`, `onPlayerJoin`, the lobby-update handlers and the sign handling inside `onPlayerInteract` are not modelled. They only send messages, teleport or repaint signs.
- Listener.OnEntityDamage: the handler calls the newer tree's participant class, whose code is not part of this model. The model assumes that a participant's `getRound()` is the round it was just found in and never null.
- Listener.OnPlayerTeleport: the same participant class is assumed to return normally from `removeFromRound(location)`; only its not-present exception is caught in the source, and the older tree's method of that name always throws.
- Listener.OnInteractGate: likewise, a participant's `isSpectating()` is assumed to be the spectating flag its round's roster holds.
- Listener.OnEnvironment: the event's cancel flag set before a null pointer is thrown is not reported. The result is just the error.
- Listener.OnCommand: the command text is taken as given. A leading '/' the server may add is not stripped.
- `BukkitLocalizable.localizeFor` and `sendTo` are not modelled. They look up a player's locale and send chat.
- Localizables.LocalizeFollowsResolution: call depth is an explicit fuel bound, standing in for the JVM stack. It is stated for plain replacements only. Nested messages are localized through the same function.
- `CombinedLocalizable` declares no constructor call its superclass accepts, so it is modelled as a value with elements and separators. `createChild` and `addLocale` are modelled on simple messages only.
- `Locale.initialize`: the stream fallback is given as its lines. When the configured stream falls back to the default one, the default lines come as `primary` and `defaults` is empty, because the stream is used up.
- Util.WorldMap.GetPluginWorlds: the list is returned as a value. Later changes through an alias of the list are not modelled.
- Util.Log: the log output is returned as an optional message instead of being written.
- Java string semantics are limited to ASCII. `toLowerCase` folds only 'A' to 'Z', and `parseInt` reads ASCII digits.
- `replaceAll` treats its pattern and replacement literally. The core's patterns hold no regex metacharacters, and a '$' or '\' in a replacement text is not interpreted.
- Null strings are not modelled except where the source dereferences a null it created itself.
