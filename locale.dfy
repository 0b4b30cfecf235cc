/*
 * The plugin-level locale manager: a table of messages loaded from pipe-separated lines, one
 * stream for the configured locale and one for the default locale, and the lookup of a message
 * by key. The streams are given as their sequences of lines.
 */
module Locales {
  import opened Wrappers
  import opened JavaStrings

  /** A line `key|value|...` gives its first two fields; a line with fewer fields gives nothing. */
  function ParseLine(line: string): (entry: Option<(string, string)>)
    ensures entry.Some? ==> var key := entry.value.0; |key| < |line| && line[..|key|] == key && line[|key|] == '|'
  {
    var params := Split(line, "|");
    if |params| > 1 then
      JoinSplitAll(line, "|");
      assert line == params[0] + "|" + Join(SplitAll(line, "|")[1..], "|");
      Some((params[0], params[1]))
    else None
  }

  /** A key and a non-empty value, neither holding a pipe, are read back from their line. */
  lemma ParseKeyValue(key: string, value: string)
    requires '|' !in key && '|' !in value && value != ""
    ensures ParseLine(key + "|" + value) == Some((key, value))
  {
    SplitAfterPrefix(key, "|", value);
    NotContainsHead(value, "|");
    SplitAllAbsent(value, "|");
    assert SplitAll(key + "|" + value, "|") == [key, value];
  }

  /** Fields after the second are dropped. */
  lemma ParseDropsExtraFields(key: string, value: string, rest: string)
    requires '|' !in key && '|' !in value && value != ""
    ensures ParseLine(key + "|" + value + "|" + rest) == Some((key, value))
  {
    var line := key + "|" + value + "|" + rest;
    assert line == key + "|" + (value + "|" + rest);
    SplitAfterPrefix(key, "|", value + "|" + rest);
    SplitAfterPrefix(value, "|", rest);
    var pieces := SplitAll(line, "|");
    assert pieces[0] == key && pieces[1] == value;
    var r := DropTrailingEmpty(pieces);
    assert |r| > 1;
  }

  /** A line whose value is empty is ignored: the split drops the trailing empty field. */
  lemma EmptyValueIgnored(key: string)
    requires '|' !in key
    ensures ParseLine(key + "|") == None
  {
    assert key + "|" == key + "|" + "";
    SplitAfterPrefix(key, "|", "");
    assert SplitAll(key + "|", "|") == [key, ""];
  }

  /** The table after reading the configured locale's lines: every entry stored under its key as written. */
  function PrimaryTable(messages: map<string, string>, lines: seq<string>): map<string, string>
    decreases |lines|
  {
    if |lines| == 0 then messages
    else
      var table := PrimaryTable(messages, lines[..|lines| - 1]);
      match ParseLine(lines[|lines| - 1])
      case None => table
      case Some((k, v)) => table[k := v]
  }

  /**
   * The table after reading the default locale's lines: an entry is skipped when its key as
   * written is present, and stored under its lower-cased key otherwise.
   */
  function DefaultTable(messages: map<string, string>, lines: seq<string>): map<string, string>
    decreases |lines|
  {
    if |lines| == 0 then messages
    else
      var table := DefaultTable(messages, lines[..|lines| - 1]);
      match ParseLine(lines[|lines| - 1])
      case None => table
      case Some((k, v)) => if k in table then table else table[ToLower(k) := v]
  }

  /** Of several lines with the same key in the configured locale, the last one wins. */
  lemma {:induction false} PrimaryLastWins(messages: map<string, string>, lines: seq<string>, i: nat, key: string, value: string)
    requires i < |lines| && ParseLine(lines[i]) == Some((key, value))
    requires forall j :: i < j < |lines| ==> ParseLine(lines[j]).None? || ParseLine(lines[j]).value.0 != key
    ensures key in PrimaryTable(messages, lines) && PrimaryTable(messages, lines)[key] == value
    decreases |lines|
  {
    if i < |lines| - 1 {
      PrimaryLastWins(messages, lines[..|lines| - 1], i, key, value);
    }
  }

  /** A key that no line of the configured locale carries keeps its earlier entry, or stays absent. */
  lemma {:induction false} PrimaryKeepsOthers(messages: map<string, string>, lines: seq<string>, key: string)
    requires forall j :: 0 <= j < |lines| ==> ParseLine(lines[j]).None? || ParseLine(lines[j]).value.0 != key
    ensures key in PrimaryTable(messages, lines) <==> key in messages
    ensures key in messages ==> PrimaryTable(messages, lines)[key] == messages[key]
    decreases |lines|
  {
    if |lines| > 0 {
      PrimaryKeepsOthers(messages, lines[..|lines| - 1], key);
    }
  }

  /**
   * A default line whose key holds upper case is not skipped when only its lower-cased form is
   * present, and then overwrites that entry.
   */
  lemma DefaultOverwritesLowerCased(messages: map<string, string>, key: string, value: string)
    requires '|' !in key && '|' !in value && value != ""
    requires key !in messages && ToLower(key) in messages
    ensures DefaultTable(messages, [key + "|" + value]) == messages[ToLower(key) := value]
  {
    ParseKeyValue(key, value);
    assert [key + "|" + value][..0] == [];
  }

  /** A default line whose key is present as written leaves the table as it was. */
  lemma DefaultSkipsPresent(messages: map<string, string>, key: string, value: string)
    requires '|' !in key && '|' !in value && value != ""
    requires key in messages
    ensures DefaultTable(messages, [key + "|" + value]) == messages
  {
    ParseKeyValue(key, value);
    assert [key + "|" + value][..0] == [];
  }

  /** The chat prefix of a plugin: none for the library itself, the plugin's name in brackets otherwise. */
  function Prefix(plugin: string): (prefix: string)
    ensures prefix == "" <==> plugin == "MGLib"
    ensures plugin != "MGLib" ==>
      |prefix| == |plugin| + 2 && prefix[0] == '[' && prefix[|prefix| - 1] == ']' && prefix[1..|prefix| - 1] == plugin
  {
    if plugin == "MGLib" then "" else "[" + plugin + "]"
  }

  class Locale {
    const plugin: string
    const prefix: string
    var messages: map<string, string>

    /** `Locale(plugin)`: no messages yet, and the prefix of the plugin. */
    constructor (plugin: string)
      ensures this.plugin == plugin && prefix == Prefix(plugin) && messages == map[]
    {
      this.plugin := plugin;
      prefix := Prefix(plugin);
      messages := map[];
    }

    /**
     * `getMessage(key)`: the message stored under the lower-cased key, or the key itself when
     * there is none.
     */
    function GetMessage(key: string): (message: string)
      reads this
      ensures ToLower(key) in messages ==> message == messages[ToLower(key)]
      ensures ToLower(key) !in messages ==> message == key
    {
      if ToLower(key) in messages then messages[ToLower(key)] else key
    }

    /**
     * `initialize()`: without a `locales` resource nothing is read. Otherwise the configured
     * locale's lines are read first (`primary`, absent when no stream could be opened), then the
     * default locale's (`defaults`). When the configured stream falls back to the default one,
     * `primary` holds the default lines and `defaults` is empty, the stream being used up.
     */
    method Initialize(hasResource: bool, primary: Option<seq<string>>, defaults: Option<seq<string>>)
      modifies this
      ensures !hasResource ==> messages == old(messages)
      ensures hasResource ==>
        messages == DefaultTable(
          PrimaryTable(old(messages), if primary.Some? then primary.value else []),
          if defaults.Some? then defaults.value else [])
    {
      if !hasResource {
        return;
      }
      ReadPrimary(if primary.Some? then primary.value else []);
      ReadDefaults(if defaults.Some? then defaults.value else []);
    }

    /** The first reading loop of `initialize()`: each entry under its key as written. */
    method ReadPrimary(lines: seq<string>)
      modifies this
      ensures messages == PrimaryTable(old(messages), lines)
    {
      var i := 0;
      while i < |lines|
        invariant 0 <= i <= |lines|
        invariant messages == PrimaryTable(old(messages), lines[..i])
      {
        var params := Split(lines[i], "|");
        if |params| > 1 {
          messages := messages[params[0] := params[1]];
        }
        assert lines[..i + 1][..i] == lines[..i];
        i := i + 1;
      }
      assert lines[..|lines|] == lines;
    }

    /** The second reading loop of `initialize()`: entries whose key is absent as written, lower-cased. */
    method ReadDefaults(lines: seq<string>)
      modifies this
      ensures messages == DefaultTable(old(messages), lines)
    {
      var j := 0;
      while j < |lines|
        invariant 0 <= j <= |lines|
        invariant messages == DefaultTable(old(messages), lines[..j])
      {
        var params := Split(lines[j], "|");
        if |params| > 1 {
          if params[0] !in messages {
            messages := messages[ToLower(params[0]) := params[1]];
          }
        }
        assert lines[..j + 1][..j] == lines[..j];
        j := j + 1;
      }
      assert lines[..|lines|] == lines;
    }
  }

  /** A key stored with upper case can never be looked up: lookups lower-case the key first. */
  lemma UpperCaseKeyUnreachable(stored: string, key: string)
    requires !IsLower(stored)
    ensures ToLower(key) != stored
  {
    ToLowerIsLower(key);
  }

  /** Without any message loaded, every lookup gives the key back. */
  method LookupBeforeLoading(plugin: string, key: string) returns (message: string)
    ensures message == key
  {
    var l := new Locale(plugin);
    l.Initialize(false, None, None);
    message := l.GetMessage(key);
  }
}
