/**
 * Translation lookup of skihide/i18n.py: `t(key)` walks the dot-separated
 * segments of `key` through the nested translation tables and falls back
 * to `key` itself when any step fails; `detect_system_language` turns the
 * system locale into a language code.
 */
module I18n {
  import opened Wrappers
  import opened Strings

  /** A value decoded from a language file's JSON. */
  datatype Value =
    | Null
    | Bool(b: bool)
    | Num(n: real)
    | Str(s: string)
    | Arr(items: seq<Value>)
    | Obj(fields: map<string, Value>)

  const EmptyTable := Obj(map[])

  /** `value[p]` for a string `p`: only a dict holding `p` answers; anything else raises. */
  function Index(v: Value, p: string): (r: Option<Value>)
    ensures r.Some? <==> v.Obj? && p in v.fields
    ensures r.Some? ==> r.value == v.fields[p]
  {
    if v.Obj? && p in v.fields then Some(v.fields[p]) else None
  }

  /** The value reached by indexing with each segment of `path` in turn. */
  function Lookup(v: Value, path: seq<string>): (r: Option<Value>)
    ensures path == [] ==> r == Some(v)
    // a non-empty path needs a dict holding its first segment
    ensures path != [] && r.Some? ==> v.Obj? && path[0] in v.fields
    ensures path != [] && r.Some? ==> Lookup(v.fields[path[0]], path[1..]) == r
    decreases |path|
  {
    if path == [] then Some(v)
    else
      match Index(v, path[0])
      case None => None
      case Some(child) => Lookup(child, path[1..])
  }

  /** What `t(key)` returns without keyword arguments. */
  function Translate(translations: Value, key: string): (r: Value)
    // the value found at the dotted path, or else the key itself
    ensures Lookup(translations, Split(key, '.')) == Some(r) || r == Str(key)
    ensures Lookup(translations, Split(key, '.')).Some? ==> Lookup(translations, Split(key, '.')) == Some(r)
    // a table that is not a dict (for example one that failed to load) answers nothing
    ensures !translations.Obj? ==> r == Str(key)
  {
    match Lookup(translations, Split(key, '.'))
    case Some(v) => v
    case None => Str(key)
  }

  /** Looking up a longer path is looking up its first part, then the rest from there. */
  lemma {:induction false} LookupAppend(v: Value, p: seq<string>, q: seq<string>)
    ensures Lookup(v, p + q) == match Lookup(v, p) case None => None case Some(u) => Lookup(u, q)
    decreases |p|
  {
    if p == [] {
      assert p + q == q;
    } else {
      assert (p + q)[0] == p[0] && (p + q)[1..] == p[1..] + q;
      match Index(v, p[0])
      case None =>
      case Some(child) => LookupAppend(child, p[1..], q);
    }
  }

  /**
   * A lookup succeeds exactly when every segment in turn names an entry of
   * the table reached by the segments before it.
   */
  lemma {:induction false} LookupWalk(v: Value, path: seq<string>)
    ensures Lookup(v, path).Some? <==>
      forall i :: 0 <= i < |path| ==>
        Lookup(v, path[..i]).Some? && Index(Lookup(v, path[..i]).value, path[i]).Some?
    decreases |path|
  {
    if path != [] {
      assert path[..0] == [];
      match Index(v, path[0])
      case None =>
      case Some(child) =>
        LookupWalk(child, path[1..]);
        forall i | 0 < i <= |path|
          ensures Lookup(v, path[..i]) == Lookup(child, path[1..][..i - 1])
        {
          assert path[..i][0] == path[0] && path[..i][1..] == path[1..][..i - 1];
        }
        forall i | 0 < i < |path|
          ensures path[i] == path[1..][i - 1]
        {
        }
        if Lookup(v, path).Some? {
          forall i | 0 <= i < |path|
            ensures Lookup(v, path[..i]).Some? && Index(Lookup(v, path[..i]).value, path[i]).Some?
          {
            if i > 0 {
              assert 0 <= i - 1 < |path[1..]|;
            }
          }
        } else {
          var j :| 0 <= j < |path[1..]| &&
            !(Lookup(child, path[1..][..j]).Some? && Index(Lookup(child, path[1..][..j]).value, path[1..][j]).Some?);
          assert !(Lookup(v, path[..j + 1]).Some? && Index(Lookup(v, path[..j + 1]).value, path[j + 1]).Some?);
        }
      }
    }

  /** After a failed `set_language` the table is empty and every key translates to itself. */
  lemma EmptyTableEchoesKey(key: string)
    ensures Translate(EmptyTable, key) == Str(key)
  {
    var parts := Split(key, '.');
    assert Index(EmptyTable, parts[0]).None?;
  }

  /** `t("section.name")` finds the entry `name` of the table `section`. */
  lemma {:induction false} TranslateDotted(translations: Value, section: string, name: string)
    requires !Contains(section, '.') && !Contains(name, '.')
    requires translations.Obj? && section in translations.fields
    requires translations.fields[section].Obj? && name in translations.fields[section].fields
    ensures Translate(translations, section + "." + name) == translations.fields[section].fields[name]
  {
    SplitPrefix(section, '.', name);
    SplitNoSeparator(name, '.');
    assert section + "." + name == section + ['.'] + name;
    assert Split(section + "." + name, '.') == [section, name];
    var inner := translations.fields[section];
    assert [section, name][1..] == [name];
    assert Lookup(inner, [name]) == Lookup(inner.fields[name], []);
    assert Lookup(translations, [section, name]) == Lookup(inner, [name]);
  }

  /** `detect_system_language`, given what `locale.getdefaultlocale()` reported (`None` also when it raised). */
  function DetectSystemLanguage(locale: Option<string>): (lang: string)
    ensures locale.None? || locale == Some("") ==> lang == "en_US"
    ensures locale.Some? && locale.value != "" ==>
      lang == if StartsWith(Lower(locale.value), "zh") then "zh_CN" else Lower(locale.value)
    ensures lang != ""
  {
    match locale
    case None => "en_US"
    case Some(l) =>
      if l == "" then "en_US"
      else
        var lower := Lower(l);
        if StartsWith(lower, "zh") then "zh_CN" else lower
  }

  /** The detected language does not depend on the case of the locale. */
  lemma DetectIgnoresCase(l: string)
    ensures DetectSystemLanguage(Some(Lower(l))) == DetectSystemLanguage(Some(l))
  {
    LowerIdempotent(l);
  }

  /** The module state: `_translations`, `_current_lang` and the `_current_language` global `set_language` writes. */
  class Catalog {
    var translations: Value
    var currentLang: string
    var currentLanguage: Option<string>

    constructor ()
      ensures translations == EmptyTable && currentLang == "zh_CN" && currentLanguage == None
    {
      translations := EmptyTable;
      currentLang := "zh_CN";
      currentLanguage := None;
    }

    /**
     * `set_language(lang)`; `loaded` is the decoded `lang.json`, or `None`
     * when opening or decoding it raised.
     */
    method SetLanguage(lang: string, loaded: Option<Value>)
      modifies this
      ensures loaded.Some? ==> translations == loaded.value && currentLanguage == Some(lang)
      ensures loaded.None? ==> translations == EmptyTable && currentLanguage == old(currentLanguage)
      ensures currentLang == old(currentLang)
    {
      if loaded.Some? {
        translations := loaded.value;
        currentLanguage := Some(lang);
      } else {
        translations := EmptyTable;
      }
    }

    /** `t(key)` without keyword arguments. */
    method T(key: string) returns (r: Value)
      ensures r == Translate(translations, key)
    {
      var parts := Split(key, '.');
      var value := translations;
      var i := 0;
      while i < |parts|
        invariant 0 <= i <= |parts|
        invariant Lookup(translations, parts) == Lookup(value, parts[i..])
      {
        assert parts[i..][0] == parts[i] && parts[i..][1..] == parts[i + 1..];
        var next := Index(value, parts[i]);
        if next.None? {
          return Str(key);
        }
        value := next.value;
        i := i + 1;
      }
      return value;
    }
  }
}
