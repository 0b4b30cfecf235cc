/*
 * Localizable messages. A simple message has a key, replacement objects for its `%1`, `%2`, ...
 * placeholders and a translation table (locale code to message), shared with every child made
 * from it; a combined message is a list of messages with separators. Tables are objects that
 * translations are added to in place, so they live in a `TranslationStore` and messages refer to
 * them by identity. The locale a message belongs to is likewise referred to by identity.
 *
 * `localize` calls itself for the fallback chain and for replacements that are messages
 * themselves, and may never return; each model of it takes the call depth available as `fuel`,
 * running out of which is the stack overflow.
 */
module Localizables {
  import opened Wrappers
  import opened Exceptions
  import opened JavaStrings

  /** The locale code every lookup falls back to. */
  const FALLBACK_LOCALE := "enus"

  /** A replacement object: a message, localized in turn, or any other object, by its `toString`. */
  datatype Replacement = Text(text: string) | Nested(message: Localizable)

  datatype Localizable =
    | Simple(parent: nat, key: string, replacements: seq<Replacement>, table: nat)
    | Combined(elements: seq<Localizable>, separators: seq<string>)

  // ---------------------------------------------------------------------------
  // locale codes

  /** The characters of `s` that are not in `drop`, in their order. */
  function Without(s: string, drop: set<char>): string
    decreases |s|
  {
    if |s| == 0 then "" else (if s[0] in drop then "" else [s[0]]) + Without(s[1..], drop)
  }

  lemma {:induction false} WithoutDropsThem(s: string, drop: set<char>, c: char)
    requires c in drop
    ensures c !in Without(s, drop)
    decreases |s|
  {
    if |s| > 0 {
      WithoutDropsThem(s[1..], drop, c);
    }
  }

  /** Replacing one character by nothing drops exactly that character. */
  lemma {:induction false} DeleteCharIsWithout(s: string, c: char)
    ensures ReplaceAll(s, [c], "") == Without(s, {c})
    decreases |s|
  {
    if |s| > 0 {
      DeleteCharIsWithout(s[1..], c);
      assert s[..1] == [s[0]];
    }
  }

  lemma {:induction false} WithoutTwice(s: string, a: char, b: char)
    ensures Without(Without(s, {a}), {b}) == Without(s, {a, b})
    decreases |s|
  {
    if |s| > 0 {
      WithoutTwice(s[1..], a, b);
      var head := if s[0] == a then "" else [s[0]];
      assert Without(s, {a}) == head + Without(s[1..], {a});
      WithoutAppend(head, Without(s[1..], {a}), {b});
    }
  }

  lemma {:induction false} WithoutAppend(x: string, y: string, drop: set<char>)
    ensures Without(x + y, drop) == Without(x, drop) + Without(y, drop)
    decreases |x|
  {
    if |x| > 0 {
      assert (x + y)[1..] == x[1..] + y;
      WithoutAppend(x[1..], y, drop);
    } else {
      assert x + y == y;
    }
  }

  /** The code with every underscore and hyphen deleted, as translations are stored and looked up. */
  function Strip(code: string): (r: string)
    ensures r == Without(code, {'_', '-'})
    ensures '_' !in r && '-' !in r
  {
    var once := ReplaceAll(code, "_", "");
    DeleteCharIsWithout(code, '_');
    DeleteCharIsWithout(once, '-');
    WithoutTwice(code, '_', '-');
    WithoutDropsThem(code, {'_', '-'}, '_');
    WithoutDropsThem(code, {'_', '-'}, '-');
    ReplaceAll(once, "-", "")
  }

  /** The code lower-cased after stripping, as `localize` looks it up. */
  function Normalize(code: string): (r: string)
    ensures r == ToLower(Without(code, {'_', '-'}))
    ensures '_' !in r && '-' !in r && IsLower(r)
  {
    var s := Strip(code);
    LowerKeepsAbsent(s, '_');
    LowerKeepsAbsent(s, '-');
    ToLowerIsLower(s);
    ToLower(s)
  }

  lemma LowerKeepsAbsent(s: string, c: char)
    requires c !in s && !('A' <= c <= 'Z') && !('a' <= c <= 'z')
    ensures c !in ToLower(s)
  {
    forall i | 0 <= i < |s| ensures ToLower(s)[i] != c {
      assert s[i] != c;
    }
  }

  lemma {:induction false} LowerIsFixed(s: string)
    requires IsLower(s)
    ensures ToLower(s) == s
  {
    assert forall i :: 0 <= i < |s| ==> ToLower(s)[i] == s[i];
  }

  /** Normalising a normalised code changes nothing. */
  lemma NormalizeIdempotent(code: string)
    ensures Normalize(Normalize(code)) == Normalize(code)
  {
    var n := Normalize(code);
    NotContainsHead(n, "_");
    ReplaceAllAbsent(n, "_", "");
    NotContainsHead(n, "-");
    ReplaceAllAbsent(n, "-", "");
    assert Strip(n) == n;
    LowerIsFixed(n);
  }

  /**
   * A translation added under a code with upper case (as in "en_US", stored as "enUS") is missed
   * by every lookup of that code, which lower-cases it.
   */
  lemma AddedWithUpperCaseIsMissed(code: string)
    requires !IsLower(Strip(code))
    ensures Normalize(code) != Strip(code)
  {
  }

  // ---------------------------------------------------------------------------
  // the translation tables

  class TranslationStore {
    var tables: map<nat, map<string, string>>
    var next: nat

    ghost predicate Valid()
      reads this
    {
      forall t :: t in tables ==> t < next
    }

    constructor ()
      ensures Valid() && tables == map[]
    {
      tables := map[];
      next := 0;
    }

    /** `new BukkitLocalizable(parent, key, replacements)`: a simple message with a new, empty table. */
    method NewMessage(parent: nat, key: string, replacements: seq<Replacement>) returns (l: Localizable)
      requires Valid()
      modifies this
      ensures Valid()
      ensures l == Simple(parent, key, replacements, old(next)) && old(next) !in old(tables)
      ensures tables == old(tables)[l.table := map[]]
    {
      l := Simple(parent, key, replacements, next);
      tables := tables[next := map[]];
      next := next + 1;
    }

    /**
     * `addLocale(locale, message)`: stores the translation in the message's table (the root's,
     * for a child) under the stripped code, which is not lower-cased. No other table changes.
     */
    method AddLocale(l: Localizable, locale: string, message: string)
      requires l.Simple? && l.table in tables
      modifies this
      ensures tables == old(tables)[l.table := old(tables)[l.table][Strip(locale) := message]]
      ensures next == old(next)
    {
      tables := tables[l.table := tables[l.table][Strip(locale) := message]];
    }
  }

  /** `createChild(replacements)`: same key, parent and table; new replacements. */
  function CreateChild(l: Localizable, replacements: seq<Replacement>): (child: Localizable)
    requires l.Simple?
    ensures child.Simple? && child.key == l.key && child.replacements == replacements
    ensures GetLocales(child) == GetLocales(l) && GetParent(child) == GetParent(l)
  {
    Simple(l.parent, l.key, replacements, l.table)
  }

  /** `getLocales()`: the table of the root message, which every child shares. */
  function GetLocales(l: Localizable): (table: nat)
    requires l.Simple?
    ensures table == l.table
  {
    l.table
  }

  /** A translation added through a child is one of the root's. */
  method AddThroughChild(store: TranslationStore, root: Localizable, replacements: seq<Replacement>, locale: string, message: string)
    requires root.Simple? && root.table in store.tables
    modifies store
    ensures root.table in store.tables
    ensures store.tables[root.table] == old(store.tables[root.table])[Strip(locale) := message]
  {
    var child := CreateChild(root, replacements);
    store.AddLocale(child, locale, message);
  }

  // ---------------------------------------------------------------------------
  // keys, parents, replacements and equality

  /** `getParent()`: a combined message's is its first element's, which must exist. */
  function GetParent(l: Localizable): (r: Result<nat, Error>)
    ensures l.Simple? ==> r == Ok(l.parent)
    ensures l.Combined? && |l.elements| > 0 ==> r == GetParent(l.elements[0])
    ensures l.Combined? && |l.elements| == 0 ==> r == Err(IndexOutOfBounds)
    ensures r.Err? ==> r.error == IndexOutOfBounds
    decreases l
  {
    match l
    case Simple(parent, _, _, _) => Ok(parent)
    case Combined(es, _) => if |es| == 0 then Err(IndexOutOfBounds) else GetParent(es[0])
  }

  /** `getKey()`: a combined message's key is each element's key followed by '+'. */
  function GetKey(l: Localizable): (key: string)
    ensures l.Simple? ==> key == l.key
    ensures l.Combined? && |l.elements| > 0 ==> |key| > 0 && key[|key| - 1] == '+'
    decreases l, 1
  {
    match l
    case Simple(_, key, _, _) => key
    case Combined(es, _) => Keys(es)
  }

  function Keys(es: seq<Localizable>): (key: string)
    ensures |key| >= |es|
    ensures |es| > 0 ==> key[|key| - 1] == '+'
    decreases es, 0
  {
    if |es| == 0 then "" else Keys(es[..|es| - 1]) + GetKey(es[|es| - 1]) + "+"
  }

  /** `getReplacementSequences()`: a combined message's are its elements', in order. */
  function GetReplacements(l: Localizable): (r: seq<Replacement>)
    ensures l.Simple? ==> r == l.replacements
    ensures l.Combined? ==> forall i, x :: 0 <= i < |l.elements| && x in GetReplacements(l.elements[i]) ==> x in r
    decreases l, 1
  {
    match l
    case Simple(_, _, rs, _) => rs
    case Combined(es, _) => AllReplacements(es)
  }

  function AllReplacements(es: seq<Localizable>): (r: seq<Replacement>)
    ensures forall i, x :: 0 <= i < |es| && x in GetReplacements(es[i]) ==> x in r
    decreases es, 0
  {
    if |es| == 0 then [] else AllReplacements(es[..|es| - 1]) + GetReplacements(es[|es| - 1])
  }

  /** The number of times `c` occurs in `s`. */
  function Occurrences(s: string, c: char): nat
    decreases |s|
  {
    if |s| == 0 then 0 else Occurrences(s[..|s| - 1], c) + (if s[|s| - 1] == c then 1 else 0)
  }

  lemma {:induction false} OccurrencesAppend(a: string, b: string, c: char)
    ensures Occurrences(a + b, c) == Occurrences(a, c) + Occurrences(b, c)
    decreases |b|
  {
    if |b| == 0 {
      assert a + b == a;
    } else {
      var s := a + b;
      assert s[..|s| - 1] == a + b[..|b| - 1];
      OccurrencesAppend(a, b[..|b| - 1], c);
    }
  }

  lemma {:induction false} NoOccurrences(s: string, c: char)
    requires c !in s
    ensures Occurrences(s, c) == 0
    decreases |s|
  {
    if |s| > 0 {
      assert forall x :: x in s[..|s| - 1] ==> x in s;
      NoOccurrences(s[..|s| - 1], c);
    }
  }

  /** With no '+' in any element key, a combined key has one '+' per element. */
  lemma {:induction false} KeyCountsElements(es: seq<Localizable>)
    requires forall i :: 0 <= i < |es| ==> '+' !in GetKey(es[i])
    ensures Occurrences(Keys(es), '+') == |es|
  {
    if |es| > 0 {
      var init := es[..|es| - 1];
      KeyCountsElements(init);
      var k := GetKey(es[|es| - 1]);
      OccurrencesAppend(Keys(init) + k, "+", '+');
      OccurrencesAppend(Keys(init), k, '+');
      NoOccurrences(k, '+');
      assert "+"[..0] == "";
    }
  }

  lemma {:induction false} KeysAppend(a: seq<Localizable>, b: seq<Localizable>)
    ensures Keys(a + b) == Keys(a) + Keys(b)
    decreases |b|
  {
    if |b| > 0 {
      var c := a + b;
      assert c[..|c| - 1] == a + b[..|b| - 1];
      KeysAppend(a, b[..|b| - 1]);
    } else {
      assert a + b == a;
    }
  }

  lemma {:induction false} ReplacementsAppend(a: seq<Localizable>, b: seq<Localizable>)
    ensures AllReplacements(a + b) == AllReplacements(a) + AllReplacements(b)
    decreases |b|
  {
    if |b| > 0 {
      var c := a + b;
      assert c[..|c| - 1] == a + b[..|b| - 1];
      ReplacementsAppend(a, b[..|b| - 1]);
    } else {
      assert a + b == a;
    }
  }

  /**
   * `equals(other)`: `other` is a message (absent: any other object, or null) with an equal
   * parent and an equal key; replacements are not compared.
   */
  function Equals(l: Localizable, other: Option<Localizable>): (r: Result<bool, Error>)
    ensures other.None? ==> r == Ok(false)
    ensures other.Some? && GetParent(l).Ok? && GetParent(other.value).Ok? ==>
      r == Ok(GetParent(l).value == GetParent(other.value).value && GetKey(l) == GetKey(other.value))
    ensures other.Some? && (GetParent(l).Err? || GetParent(other.value).Err?) ==> r == Err(IndexOutOfBounds)
  {
    if other.None? then Ok(false)
    else match GetParent(l)
      case Err(e) => Err(e)
      case Ok(p) =>
        match GetParent(other.value)
        case Err(e) => Err(e)
        case Ok(q) => Ok(p == q && GetKey(l) == GetKey(other.value))
  }

  /** A child equals the message it was made from, whatever its replacements. */
  lemma ChildEqualsParent(l: Localizable, replacements: seq<Replacement>)
    requires l.Simple?
    ensures Equals(CreateChild(l, replacements), Some(l)) == Ok(true)
    ensures Equals(l, Some(CreateChild(l, replacements))) == Ok(true)
  {
  }

  // ---------------------------------------------------------------------------
  // combined messages

  /**
   * The message `concat(localizable, separator)` assembles: the element and separator lists
   * copied, then a combined argument's elements and separators appended, or any other argument
   * appended as one element with no separator. The separator argument takes no part.
   */
  function Concatenated(c: Localizable, l: Localizable): (r: Localizable)
    requires c.Combined?
    ensures r.Combined?
    ensures l.Combined? ==> r.elements == c.elements + l.elements && r.separators == c.separators + l.separators
    ensures !l.Combined? ==> r.elements == c.elements + [l] && r.separators == c.separators
  {
    if l.Combined? then Combined(c.elements + l.elements, c.separators + l.separators)
    else Combined(c.elements + [l], c.separators)
  }

  /**
   * `concat(localizable, separator)`: the assembled lists are turned into plain object arrays,
   * which cannot be cast to arrays of messages, so the call always fails before a message is
   * made.
   */
  function Concat(c: Localizable, l: Localizable, separator: string): (r: Result<Localizable, Error>)
    requires c.Combined?
    ensures r.Err? && r.error == ClassCast
  {
    Err(ClassCast)
  }

  /** `concat(localizable)` is `concat(localizable, " ")`, and fails in the same way whatever the separator. */
  function ConcatWithSpace(c: Localizable, l: Localizable): (r: Result<Localizable, Error>)
    requires c.Combined?
    ensures forall separator :: r == Concat(c, l, separator)
  {
    Concat(c, l, " ")
  }

  /** The key of the assembled message is the two keys one after the other, with a '+' after a simple one. */
  lemma ConcatKey(c: Localizable, l: Localizable)
    requires c.Combined?
    ensures GetKey(Concatenated(c, l)) == GetKey(c) + GetKey(l) + (if l.Combined? then "" else "+")
  {
    if l.Combined? {
      KeysAppend(c.elements, l.elements);
    } else {
      KeysAppend(c.elements, [l]);
      assert [l][..0] == [];
    }
  }

  /** The replacements of the assembled message are the two lists of replacements one after the other. */
  lemma ConcatReplacements(c: Localizable, l: Localizable)
    requires c.Combined?
    ensures GetReplacements(Concatenated(c, l)) == GetReplacements(c) + GetReplacements(l)
  {
    if l.Combined? {
      ReplacementsAppend(c.elements, l.elements);
    } else {
      ReplacementsAppend(c.elements, [l]);
      assert [l][..0] == [];
    }
  }

  // ---------------------------------------------------------------------------
  // localize

  /** The placeholder of the i-th replacement, counting from 1. */
  function Placeholder(i: nat): string {
    "%" + IntToString(i)
  }

  /** The message after replacing the placeholders `%1` ... `%n` in turn, each everywhere it occurs. */
  function Substituted(message: string, texts: seq<string>): string
    decreases |texts|
  {
    if |texts| == 0 then message
    else ReplaceAll(Substituted(message, texts[..|texts| - 1]), Placeholder(|texts|), texts[|texts| - 1])
  }

  /** The substitution loop of `localize`. */
  method Substitute(message: string, texts: seq<string>) returns (result: string)
    ensures result == Substituted(message, texts)
  {
    result := message;
    var i := 0;
    while i < |texts|
      invariant 0 <= i <= |texts|
      invariant result == Substituted(message, texts[..i])
    {
      result := ReplaceAll(result, "%" + IntToString(i + 1), texts[i]);
      assert texts[..i + 1][..i] == texts[..i];
      i := i + 1;
    }
    assert texts[..|texts|] == texts;
  }

  /** A message without '%' is left as it is. */
  lemma {:induction false} NoPlaceholderUnchanged(message: string, texts: seq<string>)
    requires '%' !in message && forall i :: 0 <= i < |texts| ==> '%' !in texts[i]
    ensures Substituted(message, texts) == message
    decreases |texts|
  {
    if |texts| > 0 {
      NoPlaceholderUnchanged(message, texts[..|texts| - 1]);
      NotContainsHead(message, Placeholder(|texts|));
      ReplaceAllAbsent(message, Placeholder(|texts|), texts[|texts| - 1]);
    }
  }

  /** The first placeholder also rewrites the start of the tenth: "%10" becomes the first text and "0". */
  lemma FirstPlaceholderEatsTenth(text: string)
    ensures ReplaceAll("%10", "%1", text) == text + "0"
  {
    assert "%10"[..2] == "%1";
    assert "%10"[2..] == "0";
    assert !Contains("0", "%1");
    ReplaceAllAbsent("0", "%1", text);
  }

  /** Where a lookup of `locale` ends: the translation used, the raw key, or no end at all. */
  datatype Resolution = Translation(code: string) | RawKey | Unending

  /**
   * The fallback chain of `localize` on one table: the requested code, then (if the code is the
   * server's as configured) the fallback code, else the server code; a server code that is not
   * normalised, has no translation and does not normalise to the fallback code sends the
   * lookup round forever.
   */
  function Resolve(locales: map<string, string>, locale: string, server: string): Resolution {
    var n := Normalize(locale);
    if n in locales then Translation(n)
    else if n == FALLBACK_LOCALE then RawKey
    else if n == server then (if FALLBACK_LOCALE in locales then Translation(FALLBACK_LOCALE) else RawKey)
    else
      var s := Normalize(server);
      if s in locales then Translation(s)
      else if s == FALLBACK_LOCALE then RawKey
      else if s == server then (if FALLBACK_LOCALE in locales then Translation(FALLBACK_LOCALE) else RawKey)
      else Unending
  }

  /** A server code that is already normalised always ends the chain. */
  lemma NormalisedServerEnds(locales: map<string, string>, locale: string, server: string)
    requires Normalize(server) == server
    ensures Resolve(locales, locale, server) != Unending
  {
  }

  /**
   * `localize(locale)` with `fuel` calls available. A simple message normalises the code and,
   * on a hit, substitutes its replacements, each localized in the normalised code; on a miss it
   * follows the fallback chain. A combined message localizes each element in the code as given
   * and puts one space after each; its separators are not used. The call meant to drop the last
   * space discards its result, so that space stays; with no elements that call asks for a
   * substring ending at -1 and throws. Running out of `fuel` is the stack overflow of a chain
   * that never ends.
   */
  function Localize(l: Localizable, locale: string, server: string, tables: map<nat, map<string, string>>, fuel: nat)
    : (r: Result<string, Error>)
    ensures fuel == 0 ==> r == Err(StackOverflow)
    ensures fuel > 0 && l.Combined? && |l.elements| == 0 ==> r == Err(IndexOutOfBounds)
    ensures l.Combined? && r.Ok? ==> |r.value| > 0 && r.value[|r.value| - 1] == ' '
    ensures r.Err? ==> r.error == StackOverflow || r.error == IndexOutOfBounds
    decreases fuel, 0
  {
    if fuel == 0 then Err(StackOverflow)
    else match l
      case Simple(_, key, rs, t) =>
        var locales := if t in tables then tables[t] else map[];
        var n := Normalize(locale);
        if n in locales then
          match Texts(rs, n, server, tables, fuel - 1)
          case Err(e) => Err(e)
          case Ok(texts) => Ok(Substituted(locales[n], texts))
        else if n == FALLBACK_LOCALE then Ok(key)
        else if n == server then Localize(l, FALLBACK_LOCALE, server, tables, fuel - 1)
        else Localize(l, server, server, tables, fuel - 1)
      case Combined(es, _) => if |es| == 0 then Err(IndexOutOfBounds) else Joined(es, locale, server, tables, fuel - 1)
  }

  /** The replacement texts: a message's own localization, or the object's text. */
  function Texts(rs: seq<Replacement>, locale: string, server: string, tables: map<nat, map<string, string>>, fuel: nat)
    : (r: Result<seq<string>, Error>)
    ensures r.Ok? ==> |r.value| == |rs|
    ensures r.Ok? ==> forall i :: 0 <= i < |rs| && rs[i].Text? ==> r.value[i] == rs[i].text
    ensures r.Ok? ==> forall i :: 0 <= i < |rs| && rs[i].Nested? ==> Localize(rs[i].message, locale, server, tables, fuel) == Ok(r.value[i])
    ensures r.Err? <==> exists i :: 0 <= i < |rs| && rs[i].Nested? && Localize(rs[i].message, locale, server, tables, fuel).Err?
    ensures r.Err? ==> r.error == StackOverflow || r.error == IndexOutOfBounds
    decreases fuel, 1, |rs|
  {
    if |rs| == 0 then Ok([])
    else match Texts(rs[..|rs| - 1], locale, server, tables, fuel)
      case Err(e) => Err(e)
      case Ok(init) =>
        match rs[|rs| - 1]
        case Text(s) => Ok(init + [s])
        case Nested(m) =>
          match Localize(m, locale, server, tables, fuel)
          case Err(e) => Err(e)
          case Ok(s) => Ok(init + [s])
  }

  /** Each element localized and followed by one space; the first element that fails decides the error. */
  function Joined(es: seq<Localizable>, locale: string, server: string, tables: map<nat, map<string, string>>, fuel: nat)
    : (r: Result<string, Error>)
    ensures r.Ok? && |es| > 0 ==> |r.value| > 0 && r.value[|r.value| - 1] == ' '
    ensures r.Ok? ==> |r.value| >= |es|
    ensures r.Err? ==> r.error == StackOverflow || r.error == IndexOutOfBounds
    decreases fuel, 1, |es|
  {
    if |es| == 0 then Ok("")
    else
      var front := es[..|es| - 1];
      match Joined(front, locale, server, tables, fuel)
      case Err(e) => Err(e)
      case Ok(init) =>
        var last := Localize(es[|es| - 1], locale, server, tables, fuel);
        if last.Err? then Err(last.error)
        else
          var t := init + last.value + " ";
          assert t[|t| - 1] == ' ';
          Ok(t)
  }

  /** A combined message's elements fail together: the text fails exactly when one element's does. */
  lemma {:induction false} JoinedFailsIff(es: seq<Localizable>, locale: string, server: string,
                                          tables: map<nat, map<string, string>>, fuel: nat)
    ensures Joined(es, locale, server, tables, fuel).Err? <==>
      exists i :: 0 <= i < |es| && Localize(es[i], locale, server, tables, fuel).Err?
    decreases |es|
  {
    if |es| > 0 {
      var front := es[..|es| - 1];
      JoinedFailsIff(front, locale, server, tables, fuel);
      assert forall i :: 0 <= i < |front| ==> front[i] == es[i];
    }
  }

  /** All the replacements are plain objects. */
  predicate PlainReplacements(rs: seq<Replacement>) {
    forall i :: 0 <= i < |rs| ==> rs[i].Text?
  }

  /** The texts of plain replacements. */
  function PlainTexts(rs: seq<Replacement>): (texts: seq<string>)
    requires PlainReplacements(rs)
    ensures |texts| == |rs|
    ensures forall i :: 0 <= i < |rs| ==> texts[i] == rs[i].text
    decreases |rs|
  {
    if |rs| == 0 then [] else PlainTexts(rs[..|rs| - 1]) + [rs[|rs| - 1].text]
  }

  lemma {:induction false} TextsOfPlain(rs: seq<Replacement>, locale: string, server: string, tables: map<nat, map<string, string>>, fuel: nat)
    requires PlainReplacements(rs)
    ensures Texts(rs, locale, server, tables, fuel) == Ok(PlainTexts(rs))
    decreases |rs|
  {
    if |rs| > 0 {
      TextsOfPlain(rs[..|rs| - 1], locale, server, tables, fuel);
    }
  }

  /** "enus" is its own normal form. */
  lemma FallbackIsNormal()
    ensures Normalize(FALLBACK_LOCALE) == FALLBACK_LOCALE
  {
    var e := FALLBACK_LOCALE;
    NotContainsHead(e, "_");
    ReplaceAllAbsent(e, "_", "");
    NotContainsHead(e, "-");
    ReplaceAllAbsent(e, "-", "");
    assert Strip(e) == e;
    LowerIsFixed(e);
  }

  /** What a resolved lookup gives: the translation with its placeholders replaced, or the key. */
  function Answer(r: Resolution, locales: map<string, string>, key: string, texts: seq<string>): string
    requires r.Translation? ==> r.code in locales
  {
    match r
    case Translation(code) => Substituted(locales[code], texts)
    case RawKey => key
    case Unending => key
  }

  /** A code with a translation is served from it, with one call. */
  lemma LocalizeHit(l: Localizable, locale: string, server: string, tables: map<nat, map<string, string>>, fuel: nat)
    requires l.Simple? && PlainReplacements(l.replacements) && l.table in tables
    requires fuel >= 1 && Normalize(locale) in tables[l.table]
    ensures Localize(l, locale, server, tables, fuel) == Ok(Substituted(tables[l.table][Normalize(locale)], PlainTexts(l.replacements)))
  {
    var n := Normalize(locale);
    var texts := Texts(l.replacements, n, server, tables, fuel - 1);
    TextsOfPlain(l.replacements, n, server, tables, fuel - 1);
    assert texts == Ok(PlainTexts(l.replacements));
  }

  /** A lookup of the fallback code: its translation if there is one, the key otherwise. */
  lemma LocalizeFallback(l: Localizable, server: string, tables: map<nat, map<string, string>>, fuel: nat)
    requires l.Simple? && PlainReplacements(l.replacements) && l.table in tables && fuel >= 1
    ensures FALLBACK_LOCALE in tables[l.table] ==>
      Localize(l, FALLBACK_LOCALE, server, tables, fuel) == Ok(Substituted(tables[l.table][FALLBACK_LOCALE], PlainTexts(l.replacements)))
    ensures FALLBACK_LOCALE !in tables[l.table] ==> Localize(l, FALLBACK_LOCALE, server, tables, fuel) == Ok(l.key)
  {
    FallbackIsNormal();
    if FALLBACK_LOCALE in tables[l.table] {
      LocalizeHit(l, FALLBACK_LOCALE, server, tables, fuel);
    }
  }

  /**
   * With plain replacements and three calls available, `localize` gives exactly what the
   * fallback chain resolves to: the substituted translation or the raw key.
   */
  lemma LocalizeFollowsResolution(l: Localizable, locale: string, server: string, tables: map<nat, map<string, string>>, fuel: nat)
    requires l.Simple? && PlainReplacements(l.replacements) && l.table in tables
    requires fuel >= 3 && Resolve(tables[l.table], locale, server) != Unending
    ensures Localize(l, locale, server, tables, fuel)
      == Ok(Answer(Resolve(tables[l.table], locale, server), tables[l.table], l.key, PlainTexts(l.replacements)))
  {
    var locales := tables[l.table];
    var n := Normalize(locale);
    if n in locales {
      LocalizeHit(l, locale, server, tables, fuel);
    } else if n == FALLBACK_LOCALE {
    } else if n == server {
      LocalizeFallback(l, server, tables, fuel - 1);
    } else {
      var s := Normalize(server);
      if s in locales {
        LocalizeHit(l, server, server, tables, fuel - 1);
      } else if s == FALLBACK_LOCALE {
        assert Localize(l, locale, server, tables, fuel) == Localize(l, server, server, tables, fuel - 1);
      } else {
        assert s == server;
        LocalizeFallback(l, server, tables, fuel - 2);
        assert Localize(l, locale, server, tables, fuel) == Localize(l, server, server, tables, fuel - 1);
      }
    }
  }

  /** A lookup sent round the chain forever runs out of calls, however many it has. */
  lemma {:induction false} UnendingOverflows(l: Localizable, locale: string, server: string, tables: map<nat, map<string, string>>, fuel: nat)
    requires l.Simple? && l.table in tables && Resolve(tables[l.table], locale, server) == Unending
    ensures Localize(l, locale, server, tables, fuel) == Err(StackOverflow)
    decreases fuel
  {
    if fuel > 0 {
      NormalizeIdempotent(server);
      assert Resolve(tables[l.table], server, server) == Unending;
      UnendingOverflows(l, server, server, tables, fuel - 1);
    }
  }

  /** A combined message with no elements fails: dropping its last character reads out of bounds. */
  lemma EmptyCombinedFails(separators: seq<string>, locale: string, server: string,
                           tables: map<nat, map<string, string>>, fuel: nat)
    requires fuel > 0
    ensures Localize(Combined([], separators), locale, server, tables, fuel) == Err(IndexOutOfBounds)
  {
  }

  /** A combined message's text ends with a space when it has elements, whatever its separators. */
  lemma CombinedEndsWithSpace(es: seq<Localizable>, separators: seq<string>, other: seq<string>,
                              locale: string, server: string, tables: map<nat, map<string, string>>, fuel: nat)
    requires |es| > 0 && Localize(Combined(es, separators), locale, server, tables, fuel).Ok?
    ensures Localize(Combined(es, separators), locale, server, tables, fuel) == Localize(Combined(es, other), locale, server, tables, fuel)
    ensures var s := Localize(Combined(es, separators), locale, server, tables, fuel).value;
      |s| > 0 && s[|s| - 1] == ' '
  {
  }
}
