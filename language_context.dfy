/**
 * The interface language of the client (client/src/contexts/LanguageContext.jsx):
 * the French and Arabic translation tables, the nested-key lookup `t` with
 * its fallback to French, and the current language with its right-to-left
 * flag.
 */
module LanguageContext {
  import opened Common
  import opened Text

  /** A translation table: a string, or a table of named sub-entries. */
  datatype Entry = Text(text: string) | Table(entries: map<string, Entry>)

  /** The table `translations[language]`: only "fr" and "ar" have one. */
  function Root(fr: Entry, ar: Entry, language: string): (r: Option<Entry>)
    ensures r.Some? <==> language == "fr" || language == "ar"
  {
    if language == "fr" then Some(fr) else if language == "ar" then Some(ar) else None
  }

  /** One step of the walk: the named sub-entry of a table, if there is one. */
  function Step(v: Option<Entry>, k: string): Option<Entry>
  {
    if v.Some? && v.value.Table? && k in v.value.entries then Some(v.value.entries[k]) else None
  }

  /** The entry reached by following `keys` from `v`; `None` once a segment is missing. */
  function Walk(v: Option<Entry>, keys: seq<string>): Option<Entry>
    decreases |keys|
  {
    if keys == [] then v else Walk(Step(v, keys[0]), keys[1..])
  }

  lemma {:induction false} WalkNone(keys: seq<string>)
    ensures Walk(None, keys) == None
  {
    if keys != [] {
      WalkNone(keys[1..]);
    }
  }

  /** Walking a path in two parts is walking it at once. */
  lemma {:induction false} WalkAppend(v: Option<Entry>, a: seq<string>, b: seq<string>)
    ensures Walk(v, a + b) == Walk(Walk(v, a), b)
    decreases |a|
  {
    if a != [] {
      assert (a + b)[0] == a[0] && (a + b)[1..] == a[1..] + b;
      WalkAppend(Step(v, a[0]), a[1..], b);
    } else {
      assert a + b == b;
    }
  }

  /**
   * What `t(key)` answers: the string the dotted key reaches in the current
   * language; when a segment is missing there, the string it reaches in
   * French; otherwise the key itself.
   */
  function Translation(fr: Entry, ar: Entry, language: string, key: string): string
  {
    var keys := Split(key, '.');
    var found := Walk(Root(fr, ar, language), keys);
    var value := if found.Some? then found else Walk(Some(fr), keys);
    if value.Some? && value.value.Text? then value.value.text else key
  }

  /**
   * `t`: the loop walks the current language's table segment by segment; on
   * the first missing segment it walks the whole key again from the French
   * root and stops.
   */
  method Translate(fr: Entry, ar: Entry, language: string, key: string) returns (r: string)
    ensures r == Translation(fr, ar, language, key)
  {
    var keys := Split(key, '.');
    var root := Root(fr, ar, language);
    var value := root;
    var i := 0;
    while i < |keys|
      invariant 0 <= i <= |keys|
      invariant value == Walk(root, keys[..i]) && (i > 0 ==> value.Some?)
    {
      var k := keys[i];
      assert keys[..i + 1] == keys[..i] + [k];
      WalkAppend(root, keys[..i], [k]);
      if value.Some? && value.value.Table? && k in value.value.entries {
        value := Some(value.value.entries[k]);
      } else {
        assert Walk(root, keys) == None by {
          assert keys == keys[..i + 1] + keys[i + 1..];
          WalkAppend(root, keys[..i + 1], keys[i + 1..]);
          WalkNone(keys[i + 1..]);
        }
        var french := WalkFrench(fr, keys);
        if french.None? {
          return key;
        }
        value := french;
        break;
      }
      i := i + 1;
    }
    if i == |keys| {
      assert keys[..i] == keys;
    }
    r := if value.Some? && value.value.Text? then value.value.text else key;
  }

  /** The fallback walk of `t`: the whole key again from the French root, `None` from the first missing segment. */
  method WalkFrench(fr: Entry, keys: seq<string>) returns (french: Option<Entry>)
    ensures french == Walk(Some(fr), keys)
  {
    french := Some(fr);
    var j := 0;
    while j < |keys|
      invariant 0 <= j <= |keys|
      invariant french == Walk(Some(fr), keys[..j]) && french.Some?
    {
      var fk := keys[j];
      assert keys[..j + 1] == keys[..j] + [fk];
      WalkAppend(Some(fr), keys[..j], [fk]);
      if french.value.Table? && fk in french.value.entries {
        french := Some(french.value.entries[fk]);
      } else {
        assert Walk(Some(fr), keys) == None by {
          assert keys == keys[..j + 1] + keys[j + 1..];
          WalkAppend(Some(fr), keys[..j + 1], keys[j + 1..]);
          WalkNone(keys[j + 1..]);
        }
        return None;
      }
      j := j + 1;
    }
    assert keys[..j] == keys;
  }

  /** A dotted key whose every segment is present in the current language and that ends on a string yields that string. */
  lemma {:induction false} ResolvedKeyIsItsText(fr: Entry, ar: Entry, language: string, path: seq<string>, s: string)
    requires |path| >= 1 && forall i :: 0 <= i < |path| ==> '.' !in path[i]
    requires Walk(Root(fr, ar, language), path) == Some(Text(s))
    ensures Translation(fr, ar, language, Join(path, '.')) == s
  {
    SplitJoin(path, '.');
  }

  /** A key whose walk completes in Arabic is answered the same whatever the French table holds: French is never consulted. */
  lemma ArabicKeyIgnoresFrench(fr: Entry, fr2: Entry, ar: Entry, key: string)
    requires Walk(Some(ar), Split(key, '.')).Some?
    ensures Translation(fr, ar, "ar", key) == Translation(fr2, ar, "ar", key)
  {
  }

  /**
   * A segment missing from the current language sends the whole key to
   * French; a key French lacks too, or one that ends on a table rather
   * than a string, comes back unchanged.
   */
  lemma {:induction false} MissingKeyFallsBack(fr: Entry, ar: Entry, language: string, path: seq<string>)
    requires |path| >= 1 && forall i :: 0 <= i < |path| ==> '.' !in path[i]
    requires Walk(Root(fr, ar, language), path) == None
    ensures Walk(Some(fr), path).Some? && Walk(Some(fr), path).value.Text? ==>
      Translation(fr, ar, language, Join(path, '.')) == Walk(Some(fr), path).value.text
    ensures Walk(Some(fr), path).None? || Walk(Some(fr), path).value.Table? ==>
      Translation(fr, ar, language, Join(path, '.')) == Join(path, '.')
  {
    SplitJoin(path, '.');
  }

  /** A key reaching a table (not a string) in the current language is answered with itself. */
  lemma {:induction false} TableKeyIsItself(fr: Entry, ar: Entry, language: string, path: seq<string>)
    requires |path| >= 1 && forall i :: 0 <= i < |path| ==> '.' !in path[i]
    requires Walk(Root(fr, ar, language), path).Some? && Walk(Root(fr, ar, language), path).value.Table?
    ensures Translation(fr, ar, language, Join(path, '.')) == Join(path, '.')
  {
    SplitJoin(path, '.');
  }

  /** An unsupported stored language reads every key from French. */
  lemma UnknownLanguageReadsFrench(fr: Entry, ar: Entry, language: string, key: string)
    requires language != "fr" && language != "ar"
    ensures Translation(fr, ar, language, key) == Translation(fr, ar, "fr", key)
  {
    WalkNone(Split(key, '.'));
    assert Split(key, '.') == [Split(key, '.')[0]] + Split(key, '.')[1..];
  }

  /** The provider's language state. */
  class Language {
    var language: string

    /** The language read from storage, French when none (or an empty one) is stored. */
    constructor(stored: Option<string>)
      ensures language == if stored.Some? && stored.value != "" then stored.value else "fr"
    {
      language := if stored.Some? && stored.value != "" then stored.value else "fr";
    }

    /** `isRTL`: right-to-left exactly for Arabic. */
    predicate IsRTL()
      reads this
    {
      language == "ar"
    }

    /** `switchLanguage`: only a language with a table is taken; anything else leaves the language as it was. */
    method SwitchLanguage(lang: string)
      modifies this
      ensures lang == "fr" || lang == "ar" ==> language == lang
      ensures lang != "fr" && lang != "ar" ==> language == old(language)
      ensures IsRTL() <==> language == "ar"
    {
      if Root(Text(""), Text(""), lang).Some? {
        language := lang;
      }
    }
  }
}
