/**
 * ConfigHelper: the index settings and type mappings a client applies when it creates an
 * index. Settings come either from an explicitly given Settings object, which wins, or from a
 * builder that is created on first use; mappings are a table from type name to mapping source.
 * Settings and builders are modelled as maps from key to value. The mapping table is a Java
 * HashMap, which stores a null type or a null mapping like any other, so both are optional here.
 */
module Config {
  import opened Common
  import opened Stream
  import opened Text

  type SettingsMap = map<string, string>

  class ConfigHelper {
    var builder: Option<SettingsMap>     // settingsBuilder, null until first needed
    var explicit: Option<SettingsMap>    // settings, null unless given
    var mappings: map<Option<string>, Option<string>>

    constructor ()
      ensures builder == None && explicit == None && mappings == map[]
    {
      builder := None;
      explicit := None;
      mappings := map[];
    }

    /** reset: a new, empty builder; the explicit settings and the mappings stay. */
    method Reset()
      modifies this
      ensures builder == Some(map[]) && explicit == old(explicit) && mappings == old(mappings)
    {
      builder := Some(map[]);
    }

    /** settings(Settings): the given settings (possibly null) replace the explicit ones. */
    method SetSettings(settings: Option<SettingsMap>)
      modifies this
      ensures explicit == settings && builder == old(builder) && mappings == old(mappings)
    {
      explicit := settings;
    }

    /** The builder, or an empty one when there is none yet, as setting(key, value) fills it. */
    function BuilderOrEmpty(): SettingsMap
      reads this
    {
      if builder.Some? then builder.value else map[]
    }

    /** setting(key, String): creates the builder if there is none, then puts the value under the key. */
    method SetString(key: string, value: string)
      modifies this
      ensures builder == Some(old(BuilderOrEmpty())[key := value])
      ensures explicit == old(explicit) && mappings == old(mappings)
    {
      if builder.None? {
        builder := Some(map[]);
      }
      builder := Some(builder.value[key := value]);
    }

    /**
     * setting(key, Boolean): the builder, created first if there is none, stores the boolean in
     * its text form. A null Boolean is unboxed for put(String, boolean) and throws a
     * NullPointerException once the builder exists, leaving it as it was.
     */
    method SetBoolean(key: string, value: Option<bool>) returns (outcome: Outcome)
      modifies this
      ensures outcome == if value.None? then Threw(NullPointer) else Returned
      ensures builder == Some(if value.Some? then old(BuilderOrEmpty())[key := BooleanString(value.value)] else old(BuilderOrEmpty()))
      ensures explicit == old(explicit) && mappings == old(mappings)
    {
      if value.None? {
        if builder.None? {
          builder := Some(map[]);
        }
        return Threw(NullPointer);
      }
      SetString(key, BooleanString(value.value));
      outcome := Returned;
    }

    /**
     * setting(key, Integer): the builder, created first if there is none, stores the int in its
     * decimal form. A null Integer is unboxed for put(String, int) and throws a
     * NullPointerException once the builder exists, leaving it as it was.
     */
    method SetInteger(key: string, value: Option<Int32>) returns (outcome: Outcome)
      modifies this
      ensures outcome == if value.None? then Threw(NullPointer) else Returned
      ensures builder == Some(if value.Some? then old(BuilderOrEmpty())[key := DecimalString(value.value)] else old(BuilderOrEmpty()))
      ensures explicit == old(explicit) && mappings == old(mappings)
    {
      if value.None? {
        if builder.None? {
          builder := Some(map[]);
        }
        return Threw(NullPointer);
      }
      SetString(key, DecimalString(value.value));
      outcome := Returned;
    }

    /** settingsBuilder(): the builder, or a fresh empty one that is not kept. */
    method SettingsBuilder() returns (r: SettingsMap)
      ensures builder.Some? ==> r == builder.value
      ensures builder.None? ==> r == map[]
    {
      if builder.Some? {
        r := builder.value;
      } else {
        r := map[];
      }
    }

    /**
     * settings(): the explicit settings when there are some, whatever the builder holds;
     * otherwise what the builder holds, creating an empty builder if there is none.
     */
    method Settings() returns (r: SettingsMap)
      modifies this
      ensures r == if old(explicit).Some? then old(explicit).value else old(BuilderOrEmpty())
      ensures builder == if old(explicit).None? && old(builder).None? then Some(map[]) else old(builder)
      ensures explicit == old(explicit) && mappings == old(mappings)
    {
      if explicit.Some? {
        return explicit.value;
      }
      if builder.None? {
        builder := Some(map[]);
      }
      r := builder.value;
    }

    /** mapping(type, String): stores the mapping, null or not, under the type, null or not, replacing any earlier one. */
    method MappingString(docType: Option<string>, mapping: Option<string>)
      modifies this
      ensures mappings == old(mappings)[docType := mapping]
      ensures builder == old(builder) && explicit == old(explicit)
    {
      mappings := mappings[docType := mapping];
    }

    /**
     * mapping(type, InputStream): without a type nothing happens; otherwise the stream's text
     * (here given as `content`) is stored under the type.
     */
    method MappingStream(docType: Option<string>, content: string)
      modifies this
      ensures mappings == if docType.None? then old(mappings) else old(mappings)[docType := Some(content)]
      ensures builder == old(builder) && explicit == old(explicit)
    {
      if docType.None? {
        return;
      }
      mappings := mappings[docType := Some(content)];
    }

    /** mappings(): null when no mapping is stored, otherwise the table. */
    function Mappings(): (r: Option<map<Option<string>, Option<string>>>)
      reads this
      ensures r.None? <==> |mappings| == 0
      ensures r.Some? ==> r.value == mappings
    {
      if mappings == map[] then None else Some(mappings)
    }
  }

  /**
   * A later mapping for the same type replaces the earlier one: the table ends as if only the
   * second had been given, so every other type keeps its mapping and no other type appears.
   */
  method MappingOverwrites(config: ConfigHelper, docType: Option<string>, first: Option<string>, second: Option<string>)
    modifies config
    ensures config.mappings == old(config.mappings)[docType := second]
    ensures docType in config.mappings && config.mappings[docType] == second
    ensures forall t :: t != docType ==> (t in config.mappings <==> t in old(config.mappings))
    ensures config.Mappings() == Some(config.mappings)
  {
    config.MappingString(docType, first);
    config.MappingString(docType, second);
  }

  /** Explicit settings win over whatever the builder was given, before or after. */
  method ExplicitSettingsWin(config: ConfigHelper, settings: SettingsMap, key: string, value: string)
    returns (r: SettingsMap)
    modifies config
    ensures r == settings
  {
    config.SetString(key, value);
    config.SetSettings(Some(settings));
    config.SetString(key, value);
    r := config.Settings();
  }

  /** A helper with nothing configured yields empty settings, and keeps the empty builder it made. */
  method NothingConfigured() returns (r: SettingsMap, kept: Option<SettingsMap>)
    ensures r == map[] && kept == Some(map[])
  {
    var config := new ConfigHelper();
    r := config.Settings();
    kept := config.builder;
  }
}
