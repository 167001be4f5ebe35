/**
 * The configuration holders of helpers.py: `HTTPJsonConfig`, a JSON document
 * of sections fetched from a URL, and `PlivoConfig`, an INI file whose
 * `[common] JSON_CONFIG_URL` option may hand the configuration over to such
 * a document. Parsing the INI file, fetching and decoding the JSON are not
 * modelled: what the parser holds after a read, and what the fetch returned,
 * are inputs.
 */
module Config {
  import opened Wrappers
  import opened Text

  /** A JSON value as the configuration sees it: `None`, a `str`, or anything
      else, kept with the text `str()` renders for it. */
  datatype JsonValue = JNull | JStr(s: string) | JOther(text: string)

  /** A configuration document: section name to option name to value. */
  type JsonDoc = map<string, map<string, JsonValue>>

  /** One section of the INI parser: its name and its (option, value) pairs
      in the order `items(section)` returns them. */
  datatype Section = Section(name: string, items: seq<(string, string)>)

  /** The `default=` keyword of `PlivoConfig.get`: absent, or any value including None. */
  datatype DefaultArg = NoDefault | Default(value: Option<string>)

  /** `str(val)`. */
  function Rendered(v: JsonValue): string {
    match v
    case JNull => "None"
    case JStr(s) => s
    case JOther(text) => text
  }

  /** The options of one INI section as a dictionary; a later pair overrides an earlier one. */
  function ItemsMap(items: seq<(string, string)>): map<string, JsonValue>
    decreases |items|
  {
    if items == [] then map[]
    else var last := items[|items| - 1]; ItemsMap(items[..|items| - 1])[last.0 := JStr(last.1)]
  }

  /** The INI sections as a dictionary of dictionaries; a later section overrides an earlier one. */
  function IniCache(secs: seq<Section>): JsonDoc
    decreases |secs|
  {
    if secs == [] then map[]
    else var last := secs[|secs| - 1]; IniCache(secs[..|secs| - 1])[last.name := ItemsMap(last.items)]
  }

  lemma ItemsMapSnoc(items: seq<(string, string)>, j: int)
    requires 0 <= j < |items|
    ensures ItemsMap(items[..j + 1]) == ItemsMap(items[..j])[items[j].0 := JStr(items[j].1)]
  {
    assert items[..j + 1][..j] == items[..j];
  }

  lemma IniCacheSnoc(secs: seq<Section>, i: int)
    requires 0 <= i < |secs|
    ensures IniCache(secs[..i + 1]) == IniCache(secs[..i])[secs[i].name := ItemsMap(secs[i].items)]
  {
    assert secs[..i + 1][..i] == secs[..i];
  }

  /** The options of ItemsMap are exactly the option names listed. */
  lemma {:induction false} ItemsMapKeys(items: seq<(string, string)>)
    ensures ItemsMap(items).Keys == set i | 0 <= i < |items| :: items[i].0
    decreases |items|
  {
    if items != [] {
      var init := items[..|items| - 1];
      ItemsMapKeys(init);
      forall k | k in ItemsMap(items).Keys ensures exists i :: 0 <= i < |items| && items[i].0 == k {
        if k != items[|items| - 1].0 {
          var i :| 0 <= i < |init| && init[i].0 == k;
          assert items[i] == init[i];
        }
      }
      forall i | 0 <= i < |items| ensures items[i].0 in ItemsMap(items).Keys {
        if i < |init| { assert init[i] == items[i]; }
      }
    }
  }

  /** An option's value is the one given by its last occurrence. */
  lemma {:induction false} ItemsMapLastWins(items: seq<(string, string)>, i: int)
    requires 0 <= i < |items|
    requires forall j :: i < j < |items| ==> items[j].0 != items[i].0
    ensures items[i].0 in ItemsMap(items) && ItemsMap(items)[items[i].0] == JStr(items[i].1)
    decreases |items|
  {
    if i < |items| - 1 {
      var init := items[..|items| - 1];
      assert init[i] == items[i];
      ItemsMapLastWins(init, i);
    }
  }

  /** Every value an INI section holds is a string. */
  lemma {:induction false} ItemsMapStrings(items: seq<(string, string)>)
    ensures forall k :: k in ItemsMap(items) ==> ItemsMap(items)[k].JStr?
    decreases |items|
  {
    if items != [] { ItemsMapStrings(items[..|items| - 1]); }
  }

  /** The sections of IniCache are exactly the section names listed. */
  lemma {:induction false} IniCacheKeys(secs: seq<Section>)
    ensures IniCache(secs).Keys == set i | 0 <= i < |secs| :: secs[i].name
    decreases |secs|
  {
    if secs != [] {
      var init := secs[..|secs| - 1];
      IniCacheKeys(init);
      forall k | k in IniCache(secs).Keys ensures exists i :: 0 <= i < |secs| && secs[i].name == k {
        if k != secs[|secs| - 1].name {
          var i :| 0 <= i < |init| && init[i].name == k;
          assert secs[i] == init[i];
        }
      }
      forall i | 0 <= i < |secs| ensures secs[i].name in IniCache(secs).Keys {
        if i < |init| { assert init[i] == secs[i]; }
      }
    }
  }

  /** A section's options are those of the last section of that name. */
  lemma {:induction false} IniCacheLastWins(secs: seq<Section>, i: int)
    requires 0 <= i < |secs|
    requires forall j :: i < j < |secs| ==> secs[j].name != secs[i].name
    ensures secs[i].name in IniCache(secs) && IniCache(secs)[secs[i].name] == ItemsMap(secs[i].items)
    decreases |secs|
  {
    if i < |secs| - 1 {
      var init := secs[..|secs| - 1];
      assert init[i] == secs[i];
      IniCacheLastWins(init, i);
    }
  }

  /** Every value read from an INI file is a string. */
  lemma {:induction false} IniCacheStrings(secs: seq<Section>)
    ensures forall s, k :: s in IniCache(secs) && k in IniCache(secs)[s] ==> IniCache(secs)[s][k].JStr?
    decreases |secs|
  {
    if secs != [] {
      IniCacheStrings(secs[..|secs| - 1]);
      ItemsMapStrings(secs[|secs| - 1].items);
    }
  }

  /**
   * `self._cfg.get('common', 'JSON_CONFIG_URL')` after the read, kept only
   * when it is a non-empty string (`if self._json_source:`); a missing
   * section or option is None.
   */
  function JsonConfigUrl(secs: seq<Section>): (r: Option<string>)
    ensures r.Some? <==>
              && "common" in IniCache(secs) && "JSON_CONFIG_URL" in IniCache(secs)["common"]
              && IniCache(secs)["common"]["JSON_CONFIG_URL"] != JStr("")
    ensures r.Some? ==> r.value != "" && IniCache(secs)["common"]["JSON_CONFIG_URL"] == JStr(r.value)
  {
    IniCacheStrings(secs);
    var c := IniCache(secs);
    if "common" in c && "JSON_CONFIG_URL" in c["common"] then
      var s := c["common"]["JSON_CONFIG_URL"].s;
      if s != "" then Some(s) else None
    else None
  }

  /** `HTTPJsonConfig`: a JSON configuration document, None until read. */
  class HttpJsonConfig {
    var jdata: Option<JsonDoc>

    constructor()
      ensures jdata == None
    {
      jdata := None;
    }

    /**
     * `read(url)`: the document the POST to the URL returned. A failed fetch
     * or a body that is not JSON arrives as `Err(FetchFailed)`; it raises,
     * and the old document stays.
     */
    method Read(fetched: Result<JsonDoc, Failure>) returns (err: Option<Failure>)
      modifies this
      ensures fetched.Ok? ==> err == None && jdata == Some(fetched.value)
      ensures fetched.Err? ==> err == Some(fetched.error) && jdata == old(jdata)
    {
      if fetched.Ok? {
        jdata := Some(fetched.value);
        err := None;
      } else {
        err := Some(fetched.error);
      }
    }

    /**
     * `get(section, key)`: the value as text, "" for a null value and for a
     * missing section or option. Indexing a document never read raises TypeError.
     */
    function Get(section: string, key: string): (r: Result<string, Failure>)
      reads this
      ensures r.Err? <==> jdata.None?
      ensures r.Err? ==> r.error == TypeError
      ensures jdata.Some? && !(section in jdata.value && key in jdata.value[section]) ==> r == Ok("")
      ensures jdata.Some? && section in jdata.value && key in jdata.value[section] ==>
                var v := jdata.value[section][key];
                r == Ok(if v.JNull? then "" else Rendered(v))
    {
      if jdata.None? then Err(TypeError)
      else if section in jdata.value && key in jdata.value[section] then
        var v := jdata.value[section][key];
        if v.JNull? then Ok("") else Ok(Rendered(v))
      else Ok("")
    }

    /** `dumps()`: the document itself. */
    function Dumps(): (r: Option<JsonDoc>)
      reads this
      ensures r == jdata
    {
      jdata
    }
  }

  /** Once a document was read, `get` never raises, and it sees a string value as it is. */
  lemma JsonGetAfterRead(c: HttpJsonConfig, section: string, key: string)
    requires c.jdata.Some?
    ensures c.Get(section, key).Ok?
    ensures section in c.jdata.value && key in c.jdata.value[section] && c.jdata.value[section][key].JStr? ==>
              c.Get(section, key) == Ok(c.jdata.value[section][key].s)
  {
  }

  /**
   * `PlivoConfig`: the INI file at `source`, or the JSON document its
   * `[common] JSON_CONFIG_URL` names, flattened into the dictionary `cache`
   * that every lookup reads.
   */
  class PlivoConfig {
    const source: string
    /** What `self._cfg.sections()` and `items(section)` give after the last read. */
    var sections: seq<Section>
    var jsonSource: Option<string>
    var jsonCfg: HttpJsonConfig?
    var cache: JsonDoc

    constructor(source: string)
      ensures this.source == source
      ensures sections == [] && jsonSource == None && jsonCfg == null && cache == map[]
    {
      this.source := source;
      sections := [];
      jsonSource := None;
      jsonCfg := null;
      cache := map[];
    }

    /**
     * `_set_cache()`: a copy of the JSON document when there is a JSON
     * configuration, otherwise every INI section with its options, walked in
     * the parser's order. Copying a JSON configuration that holds no document
     * raises TypeError and leaves the cache as it was.
     */
    method SetCache() returns (err: Option<Failure>)
      modifies this
      ensures sections == old(sections) && jsonSource == old(jsonSource) && jsonCfg == old(jsonCfg)
      ensures jsonCfg == null ==> err == None && cache == IniCache(sections)
      ensures jsonCfg != null && jsonCfg.jdata.Some? ==> err == None && cache == jsonCfg.jdata.value
      ensures jsonCfg != null && jsonCfg.jdata.None? ==> err == Some(TypeError) && cache == old(cache)
    {
      if jsonCfg != null {
        if jsonCfg.jdata.None? {
          return Some(TypeError);
        }
        cache := jsonCfg.jdata.value;
        return None;
      }
      cache := map[];
      var i := 0;
      while i < |sections|
        invariant 0 <= i <= |sections|
        invariant sections == old(sections) && jsonSource == old(jsonSource) && jsonCfg == old(jsonCfg)
        invariant cache == IniCache(sections[..i])
      {
        var section := sections[i];
        IniCacheSnoc(sections, i);
        cache := cache[section.name := map[]];
        var j := 0;
        while j < |section.items|
          invariant 0 <= j <= |section.items|
          invariant sections == old(sections) && jsonSource == old(jsonSource) && jsonCfg == old(jsonCfg)
          invariant cache == IniCache(sections[..i])[section.name := ItemsMap(section.items[..j])]
        {
          var (option, value) := section.items[j];
          ItemsMapSnoc(section.items, j);
          cache := cache[section.name := cache[section.name][option := JStr(value)]];
          j := j + 1;
        }
        assert section.items[..j] == section.items;
        i := i + 1;
      }
      assert sections[..i] == sections;
      return None;
    }

    /**
     * `read()`: `parsed` is what the parser holds after reading `source`, and
     * `fetched` what reading the JSON configuration URL gives, consulted only
     * when that option is set. A failed fetch raises before the cache is
     * rebuilt, leaving a JSON configuration without a document.
     */
    method Read(parsed: seq<Section>, fetched: Result<JsonDoc, Failure>) returns (err: Option<Failure>)
      modifies this
      ensures Loaded(parsed, fetched, err, old(cache))
      ensures jsonCfg != null ==> fresh(jsonCfg)
    {
      sections := parsed;
      jsonSource := JsonConfigUrl(sections);
      if jsonSource.Some? {
        var json := new HttpJsonConfig();
        jsonCfg := json;
        err := json.Read(fetched);
        if err.Some? {
          return;
        }
      } else {
        jsonCfg := null;
      }
      err := SetCache();
    }

    /** The state Read leaves, given the cache it found. */
    ghost predicate Loaded(parsed: seq<Section>, fetched: Result<JsonDoc, Failure>, err: Option<Failure>,
                           previous: JsonDoc)
      reads this, jsonCfg
    {
      && sections == parsed
      && jsonSource == JsonConfigUrl(parsed)
      && (jsonSource.None? ==> jsonCfg == null && err == None && cache == IniCache(parsed))
      && (jsonSource.Some? && fetched.Ok? ==>
            jsonCfg != null && jsonCfg.jdata == Some(fetched.value) && err == None && cache == fetched.value)
      && (jsonSource.Some? && fetched.Err? ==>
            jsonCfg != null && jsonCfg.jdata == None && err == Some(fetched.error) && cache == previous)
    }

    /** `reload()`: read again. */
    method Reload(parsed: seq<Section>, fetched: Result<JsonDoc, Failure>) returns (err: Option<Failure>)
      modifies this
      ensures Loaded(parsed, fetched, err, old(cache))
      ensures jsonCfg != null ==> fresh(jsonCfg)
    {
      err := Read(parsed, fetched);
    }

    /** `dumps()`: the cache. */
    function Dumps(): (r: JsonDoc)
      reads this
      ensures r == cache
    {
      cache
    }

    /** `self[section]`: the options of one section; KeyError when it is missing. */
    function GetSection(section: string): (r: Result<map<string, JsonValue>, Failure>)
      reads this
      ensures section in cache <==> r.Ok?
      ensures r.Ok? ==> r.value == cache[section]
      ensures r.Err? ==> r.error == KeyError
    {
      if section in cache then Ok(cache[section]) else Err(KeyError)
    }

    /**
     * `get(section, key, default=...)`: the value with surrounding whitespace
     * removed. A value that is not a string has no `strip` and raises
     * AttributeError whatever the default. A missing section or option gives
     * the default when one is passed and raises KeyError otherwise.
     */
    function Get(section: string, key: string, default: DefaultArg): (r: Result<Option<string>, Failure>)
      reads this
      ensures section in cache && key in cache[section] && cache[section][key].JStr? ==>
                r == Ok(Some(StripSpace(cache[section][key].s)))
      ensures section in cache && key in cache[section] && !cache[section][key].JStr? ==>
                r == Err(AttributeError)
      ensures !(section in cache && key in cache[section]) ==>
                r == if default.Default? then Ok(default.value) else Err(KeyError)
    {
      if section in cache && key in cache[section] then
        var v := cache[section][key];
        if v.JStr? then Ok(Some(StripSpace(v.s))) else Err(AttributeError)
      else if default.Default? then Ok(default.value)
      else Err(KeyError)
    }
  }

  /** With an INI source every value is a string, so `get` never raises AttributeError. */
  lemma IniGetHasNoAttributeError(c: PlivoConfig, section: string, key: string, default: DefaultArg)
    requires c.cache == IniCache(c.sections)
    ensures c.Get(section, key, default) != Err(AttributeError)
  {
    IniCacheStrings(c.sections);
  }

  /**
   * With an INI source, `get` returns the stripped value of the option's last
   * occurrence in the last section of that name.
   */
  lemma IniGetLastValue(c: PlivoConfig, i: int, j: int, default: DefaultArg)
    requires c.cache == IniCache(c.sections)
    requires 0 <= i < |c.sections| && forall k :: i < k < |c.sections| ==> c.sections[k].name != c.sections[i].name
    requires var items := c.sections[i].items;
             0 <= j < |items| && forall k :: j < k < |items| ==> items[k].0 != items[j].0
    ensures var (option, value) := c.sections[i].items[j];
            c.Get(c.sections[i].name, option, default) == Ok(Some(StripSpace(value)))
  {
    IniCacheLastWins(c.sections, i);
    ItemsMapLastWins(c.sections[i].items, j);
  }
}
