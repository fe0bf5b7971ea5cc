/** The project configuration manager: a JSON document of nested maps kept in one file, a
    cached copy of it, a recursive merge of updates into it and a dotted-path reader. */
module ConfigStore {
  import opened Wrappers
  import opened Text

  /** A JSON value as it comes out of the configuration file.  Floating-point numbers are not
      part of this model. */
  datatype Value =
    | Null
    | Bool(b: bool)
    | Int(i: int)
    | Str(s: string)
    | List(items: seq<Value>)
    | Map(entries: map<string, Value>)

  // -------------------------------------------------------------------------------------------
  // Deep merge

  /** What the merge puts under a key of the updates: the merge of the two maps when both the
      old and the new value are maps, the new value otherwise. */
  function Entry(original: map<string, Value>, updates: map<string, Value>, k: string): (v: Value)
    requires k in updates
    ensures !(updates[k].Map? && k in original && original[k].Map?) ==> v == updates[k]
    ensures v.Map? <==> updates[k].Map?
    decreases Map(updates), 0
  {
    if updates[k].Map? && k in original && original[k].Map? then
      Map(Merge(original[k].entries, updates[k].entries))
    else updates[k]
  }

  /** The configuration after `deep_update(original, updates)`. */
  function Merge(original: map<string, Value>, updates: map<string, Value>): (r: map<string, Value>)
    ensures r.Keys == original.Keys + updates.Keys
    ensures forall k :: k in original && k !in updates ==> r[k] == original[k]
    decreases Map(updates), 1
  {
    map k | k in original.Keys + updates.Keys ::
      if k in updates then Entry(original, updates, k) else original[k]
  }

  /** The merge after only the keys in `done` of the updates have been applied. */
  ghost function PartMerge(original: map<string, Value>, updates: map<string, Value>, done: set<string>): (r: map<string, Value>)
    requires done <= updates.Keys
  {
    map k | k in original.Keys + done :: if k in done then Entry(original, updates, k) else original[k]
  }

  lemma MergeStep(original: map<string, Value>, updates: map<string, Value>, todo: set<string>, k: string)
    requires todo <= updates.Keys && k in todo
    ensures PartMerge(original, updates, updates.Keys - todo)[k := Entry(original, updates, k)]
         == PartMerge(original, updates, updates.Keys - (todo - {k}))
  {
    assert updates.Keys - (todo - {k}) == (updates.Keys - todo) + {k};
  }

  lemma MergeNone(original: map<string, Value>, updates: map<string, Value>)
    ensures PartMerge(original, updates, {}) == original
  {
  }

  lemma MergeAll(original: map<string, Value>, updates: map<string, Value>)
    ensures PartMerge(original, updates, updates.Keys) == Merge(original, updates)
  {
  }

  /** `deep_update`: walks the keys of the updates, recursing where both sides hold a map and
      overwriting otherwise.  The in-place update of `original` is the returned map. */
  method DeepUpdate(original: map<string, Value>, updates: map<string, Value>) returns (r: map<string, Value>)
    ensures r == Merge(original, updates)
    decreases Map(updates)
  {
    MergeNone(original, updates);
    r := original;
    var todo := updates.Keys;
    while todo != {}
      invariant todo <= updates.Keys
      invariant r == PartMerge(original, updates, updates.Keys - todo)
      decreases |todo|
    {
      var key :| key in todo;
      var value := updates[key];
      if value.Map? && key in r && r[key].Map? {
        var sub := DeepUpdate(r[key].entries, value.entries);
        r := r[key := Map(sub)];
      } else {
        r := r[key := value];
      }
      MergeStep(original, updates, todo, key);
      todo := todo - {key};
    }
    assert updates.Keys - todo == updates.Keys;
    MergeAll(original, updates);
  }

  /** Merging a configuration into itself changes nothing. */
  lemma {:induction false} MergeSelf(m: map<string, Value>)
    ensures Merge(m, m) == m
    decreases Map(m)
  {
    forall k | k in m ensures Merge(m, m)[k] == m[k] {
      if m[k].Map? {
        MergeSelf(m[k].entries);
      }
    }
  }

  /** Applying the same updates twice gives what applying them once gives. */
  lemma {:induction false} MergeIdempotent(original: map<string, Value>, updates: map<string, Value>)
    ensures Merge(Merge(original, updates), updates) == Merge(original, updates)
    decreases Map(updates)
  {
    var once := Merge(original, updates);
    forall k | k in once ensures Merge(once, updates)[k] == once[k] {
      if k in updates && updates[k].Map? {
        if k in original && original[k].Map? {
          var inner := Merge(original[k].entries, updates[k].entries);
          assert once[k] == Map(inner);
          MergeIdempotent(original[k].entries, updates[k].entries);
          assert Merge(once, updates)[k] == Map(Merge(inner, updates[k].entries));
        } else {
          assert once[k] == updates[k];
          MergeSelf(updates[k].entries);
          assert Merge(once, updates)[k] == Map(Merge(updates[k].entries, updates[k].entries));
        }
      }
    }
  }

  // -------------------------------------------------------------------------------------------
  // Dotted lookup

  /** `value = value[key]` for each key of the path: a step succeeds only on a map holding the
      key (a missing key raises `KeyError`, indexing a string, list, number, bool or null with
      a string raises `TypeError`). */
  function Lookup(v: Value, path: seq<string>): (r: Option<Value>)
    decreases |path|
  {
    if path == [] then Some(v)
    else if v.Map? && path[0] in v.entries then Lookup(v.entries[path[0]], path[1..])
    else None
  }

  /** A path is looked up one part after the other. */
  lemma {:induction false} LookupAppend(v: Value, a: seq<string>, b: seq<string>)
    ensures Lookup(v, a + b) == match Lookup(v, a) case Some(m) => Lookup(m, b) case None => None
    decreases |a|
  {
    if a != [] {
      assert (a + b)[0] == a[0];
      assert (a + b)[1..] == a[1..] + b;
      if v.Map? && a[0] in v.entries {
        LookupAppend(v.entries[a[0]], a[1..], b);
      }
    } else {
      assert a + b == b;
    }
  }

  /** The value at a path, or `default` when the path does not resolve. */
  function LookupOr(v: Value, path: seq<string>, default: Value): (r: Value)
  {
    match Lookup(v, path)
    case Some(x) => x
    case None => default
  }

  /** Every non-map value an update sets is found at its path in the merged configuration,
      whatever the configuration held before. */
  lemma {:induction false} MergeSetsLeaves(original: map<string, Value>, updates: map<string, Value>, path: seq<string>, v: Value)
    requires |path| > 0 && Lookup(Map(updates), path) == Some(v) && !v.Map?
    ensures Lookup(Map(Merge(original, updates)), path) == Some(v)
    decreases |path|
  {
    var k := path[0];
    var merged := Merge(original, updates);
    assert k in updates;
    if |path| == 1 {
      assert updates[k] == v;
    } else {
      var rest := path[1..];
      assert Lookup(updates[k], rest) == Some(v);
      assert updates[k].Map?;
      if k in original && original[k].Map? {
        MergeSetsLeaves(original[k].entries, updates[k].entries, rest, v);
      }
    }
  }

  /** A path whose first key the updates do not mention reads the same after the merge. */
  lemma MergeKeepsOtherPaths(original: map<string, Value>, updates: map<string, Value>, path: seq<string>)
    requires |path| > 0 && path[0] !in updates
    ensures Lookup(Map(Merge(original, updates)), path) == Lookup(Map(original), path)
  {
  }

  // -------------------------------------------------------------------------------------------
  // The configuration file and its cache

  /** The configuration file: absent, not valid JSON (with the decoder's message), or a stored
      document. */
  datatype Disk = Missing | Corrupt(reason: string) | Stored(config: map<string, Value>)

  /** How a write of the configuration file fails: `open(..., 'w')` itself fails and the file is
      left as it was, or the file was opened, and so emptied, and `json.dump` then fails part way.
      What is left then is a proper prefix of a text that ends with the closing brace, so the
      next load rejects it with the decoder's message `decodeError`. */
  datatype WriteFault = OpenFailed(message: string) | DumpFailed(message: string, decodeError: string)

  /** The configuration file after a failed write. */
  function AfterFault(disk: Disk, fault: WriteFault): (d: Disk)
    ensures fault.OpenFailed? ==> d == disk
    ensures fault.DumpFailed? ==> d.Corrupt? && d.reason == fault.decodeError
  {
    match fault
    case OpenFailed(_) => disk
    case DumpFailed(_, decodeError) => Corrupt(decodeError)
  }

  /** The exception `save_config` raises when the write fails. */
  function SaveError(fault: WriteFault): (message: string)
    ensures StartsWith(message, "Failed to save configuration: ")
  {
    "Failed to save configuration: " + fault.message
  }

  /** `not self.config_data`: nothing cached yet, or an empty document cached. */
  predicate NeedsLoad(cached: Option<map<string, Value>>)
  {
    cached.None? || cached.value == map[]
  }

  /** The exception `load_config` raises, or the document it returns. */
  function LoadResult(configFile: string, disk: Disk): (r: Result<map<string, Value>>)
    ensures r.Ok? <==> disk.Stored?
    ensures disk.Missing? ==> StartsWith(r.message, "Failed to load configuration: ")
    ensures disk.Corrupt? ==> StartsWith(r.message, "Invalid JSON in configuration file: ")
  {
    match disk
    case Missing => Err("Failed to load configuration: Configuration file " + configFile + " not found")
    case Corrupt(reason) => Err("Invalid JSON in configuration file: " + reason)
    case Stored(config) => Ok(config)
  }

  /** The document `update_config` and `get_config_value` work on: the cached one, unless the
      cache is empty, in which case the file is read. */
  function Current(configFile: string, cached: Option<map<string, Value>>, disk: Disk): (r: Result<map<string, Value>>)
    ensures !NeedsLoad(cached) ==> r == Ok(cached.value)
    ensures NeedsLoad(cached) ==> r == LoadResult(configFile, disk)
  {
    if NeedsLoad(cached) then LoadResult(configFile, disk) else Ok(cached.value)
  }

  class ConfigManager {
    const configFile: string
    /** The configuration file on disk. */
    var disk: Disk
    /** `self.config_data` */
    var configData: Option<map<string, Value>>

    constructor(configFile: string, disk: Disk)
      ensures this.configFile == configFile && this.disk == disk && configData == None
    {
      this.configFile := configFile;
      this.disk := disk;
      configData := None;
    }

    predicate ConfigExists()
      reads this
    {
      !disk.Missing?
    }

    /** Reads the file; only a successful read replaces the cache. */
    method LoadConfig() returns (r: Result<map<string, Value>>)
      modifies this`configData
      ensures r == LoadResult(configFile, disk)
      ensures configData == if r.Ok? then Some(r.value) else old(configData)
    {
      r := LoadResult(configFile, disk);
      if r.Ok? {
        configData := Some(r.value);
      }
    }

    /** Caches `config`, then writes it; `writeError` is the failure of the write, if any.  The
        cache is replaced even when the write fails. */
    method SaveConfig(config: map<string, Value>, writeError: Option<WriteFault>) returns (r: Result<()>)
      modifies this`configData, this`disk
      ensures configData == Some(config)
      ensures writeError.None? ==> r == Ok(()) && disk == Stored(config)
      ensures writeError.Some? ==> r == Err(SaveError(writeError.value)) && disk == AfterFault(old(disk), writeError.value)
    {
      configData := Some(config);
      if writeError.Some? {
        disk := AfterFault(disk, writeError.value);
        return Err(SaveError(writeError.value));
      }
      disk := Stored(config);
      r := Ok(());
    }

    /** `update_config`: loads the file when the cache is empty, merges the updates into the
        document and saves the result, which also becomes the cache. */
    method UpdateConfig(updates: map<string, Value>, writeError: Option<WriteFault>) returns (r: Result<()>)
      modifies this`configData, this`disk
      ensures match Current(configFile, old(configData), old(disk))
        case Err(e) => r == Err(e) && configData == old(configData) && disk == old(disk)
        case Ok(base) =>
          configData == Some(Merge(base, updates)) &&
          (writeError.None? ==> r == Ok(()) && disk == Stored(Merge(base, updates))) &&
          (writeError.Some? ==> r == Err(SaveError(writeError.value)) && disk == AfterFault(old(disk), writeError.value))
    {
      if NeedsLoad(configData) {
        var loaded := LoadConfig();
        if loaded.Err? {
          return Err(loaded.message);
        }
      }
      var merged := DeepUpdate(configData.value, updates);
      r := SaveConfig(merged, writeError);
    }

    /** `get_config_value`: the value at the dot-separated path, or `default` when a key is
        missing or a step meets something that is not a map. */
    method GetConfigValue(keyPath: string, default: Value) returns (r: Result<Value>)
      modifies this`configData
      ensures match Current(configFile, old(configData), disk)
        case Err(e) => r == Err(e) && configData == old(configData)
        case Ok(base) => configData == Some(base) && r == Ok(LookupOr(Map(base), Split(keyPath, '.'), default))
    {
      if NeedsLoad(configData) {
        var loaded := LoadConfig();
        if loaded.Err? {
          return Err(loaded.message);
        }
      }
      var keys := Split(keyPath, '.');
      var value := Map(configData.value);
      var i := 0;
      while i < |keys|
        invariant 0 <= i <= |keys|
        invariant Lookup(Map(configData.value), keys) == Lookup(value, keys[i..])
      {
        assert keys[i..][1..] == keys[i + 1..];
        if !(value.Map? && keys[i] in value.entries) {
          return Ok(default);
        }
        value := value.entries[keys[i]];
        i := i + 1;
      }
      r := Ok(value);
    }
  }
}
