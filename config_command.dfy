/** The `config set` and `config get` commands: dotted key paths checked against the stored
    configuration, and the conversion of the command-line text into a configuration value. */
module ConfigCommand {
  import opened Wrappers
  import opened Text
  import opened ConfigStore

  /** The top-level sections a key path may name. */
  const Sections: set<string> := {"aws", "build", "deployment", "project"}

  const NoConfigForSet := "No configuration found. Run 'deploy-tool init' first."
  const NoConfigForGet := "No configuration found."
  const ShortKeyForSet := "You must specify a section and a key, like 'aws.bucket'"
  const ShortKeyForGet := "You must specify a section and a key, like 'aws.bucket', 'project.name'"

  function BadSection(section: string): (message: string)
  {
    "Invalid top-level section: '" + section + "'"
  }

  /** `set`: an intermediate key `k` of `key` is missing. */
  function MissingKey(key: string, k: string): (message: string)
  {
    "Invalid key path: '" + key + "' \U{2014} '" + k + "' does not exist."
  }

  /** `set`: the value at an intermediate key `k` of `key` is not a mapping. */
  function NotSection(key: string, k: string): (message: string)
  {
    "Invalid key path: '" + key + "' \U{2014} '" + k + "' is not a section."
  }

  /** `set`: the last key is missing under the dotted `parent` path. */
  function MissingLast(last: string, parent: string): (message: string)
  {
    "Invalid key: '" + last + "' does not exist under '" + parent + "'."
  }

  /** `get`: the path does not resolve. */
  function NotFound(key: string): (message: string)
  {
    "Key '" + key + "' not found."
  }

  /** What a command ends with: the saved configuration of `set`, the value `get` shows, a
      warning, an error message, or an exception caught by the command's outer handler (with
      its text when the model knows it; a `TypeError` raised by Python itself has none). */
  datatype Outcome =
    | Saved(config: map<string, Value>)
    | Shown(value: Value)
    | Warned(message: string)
    | Refused(message: string)
    | Raised(error: Option<string>)

  /** Python's `k in v` for a string `k`: a key test on a dict, a substring test on a str, an
      element test on a list, and a `TypeError` (None) on anything else. */
  function PyIn(k: string, v: Value): (r: Option<bool>)
    ensures v.Map? ==> r == Some(k in v.entries)
    ensures r.None? <==> v.Null? || v.Bool? || v.Int?
  {
    match v
    case Map(entries) => Some(k in entries)
    case Str(s) => Some(Contains(s, k))
    case List(items) => Some(Str(k) in items)
    case _ => None
  }

  // -------------------------------------------------------------------------------------------
  // Writing one leaf

  /** The value `v` with the value at `path` replaced by `x`; the path must resolve. */
  function Assign(v: Value, path: seq<string>, x: Value): (r: Value)
    requires Lookup(v, path).Some?
    ensures path != [] ==> r.Map? && r.entries.Keys == v.entries.Keys
    decreases |path|
  {
    if path == [] then x
    else Map(v.entries[path[0] := Assign(v.entries[path[0]], path[1..], x)])
  }

  /** The written value is read back at its path. */
  lemma {:induction false} AssignReads(v: Value, path: seq<string>, x: Value)
    requires Lookup(v, path).Some?
    ensures Lookup(Assign(v, path, x), path) == Some(x)
    decreases |path|
  {
    if path != [] {
      AssignReads(v.entries[path[0]], path[1..], x);
    }
  }

  /** Two paths that part ways somewhere. */
  predicate Apart(p: seq<string>, q: seq<string>)
  {
    exists i :: 0 <= i < |p| && i < |q| && p[i] != q[i]
  }

  /** Every path that parts ways with the written one reads as before. */
  lemma {:induction false} AssignKeepsOthers(v: Value, path: seq<string>, x: Value, q: seq<string>)
    requires Lookup(v, path).Some? && Apart(path, q)
    ensures Lookup(Assign(v, path, x), q) == Lookup(v, q)
    decreases |path|
  {
    var i :| 0 <= i < |path| && i < |q| && path[i] != q[i];
    if path[0] == q[0] {
      assert path[1..][i - 1] != q[1..][i - 1];
      AssignKeepsOthers(v.entries[path[0]], path[1..], x, q[1..]);
    }
  }

  /** Writing a value that is not a map creates no path that did not resolve before. */
  lemma {:induction false} AssignCreatesNothing(v: Value, path: seq<string>, x: Value, q: seq<string>)
    requires Lookup(v, path).Some? && !x.Map?
    requires Lookup(Assign(v, path, x), q).Some?
    ensures Lookup(v, q).Some?
    decreases |path|
  {
    if path != [] && q != [] && q[0] == path[0] {
      AssignCreatesNothing(v.entries[path[0]], path[1..], x, q[1..]);
    }
  }

  /** How far a walk along `path` gets from `v`: the length of the longest prefix of `path` that
      resolves, so `path[Reach(v, path)]` is the first key that is missing or whose holder is not
      a map. */
  function Reach(v: Value, path: seq<string>): (j: nat)
    ensures j <= |path|
    ensures j == |path| <==> Lookup(v, path).Some?
    ensures Lookup(v, path[..j]).Some?
    decreases |path|
  {
    if path != [] && v.Map? && path[0] in v.entries then
      var j := 1 + Reach(v.entries[path[0]], path[1..]);
      assert path[..j][1..] == path[1..][..j - 1];
      j
    else 0
  }

  /** A prefix that resolves and continues at `i` reaches past `i`; one that stops at `i`
      reaches exactly `i`. */
  lemma {:induction false} ReachFrom(v: Value, path: seq<string>, i: nat, m: Value)
    requires i < |path| && Lookup(v, path[..i]) == Some(m)
    ensures Reach(v, path) >= i
    ensures Reach(v, path) == i <==> !(m.Map? && path[i] in m.entries)
    decreases i
  {
    if i > 0 {
      assert path[..i][1..] == path[1..][..i - 1];
      ReachFrom(v.entries[path[0]], path[1..], i - 1, m);
    }
  }

  /** The value the walk stops at: the holder of the first key that does not resolve. */
  function Holder(v: Value, path: seq<string>): (m: Value)
  {
    Lookup(v, path[..Reach(v, path)]).value
  }

  /** How `set` ends when the walk from the section value `root` along `path` does not resolve:
      the missing or non-map position decides the message, and a type error comes from an `in`
      test or an index on a section that is not a mapping. */
  function SetStop(root: Value, path: seq<string>, key: string, parent: string): (o: Outcome)
    requires Reach(root, path) < |path|
    ensures o.Refused? || (o == Raised(None) && !root.Map?)
  {
    var j := Reach(root, path);
    var m := Holder(root, path);
    ReachFrom(root, path, j, m);
    assert j == 0 ==> path[..j] == [];
    if j > 0 && !m.Map? then Refused(NotSection(key, path[j - 1]))
    else if PyIn(path[j], m) != Some(false) then Raised(None)
    else if j < |path| - 1 then Refused(MissingKey(key, path[j]))
    else Refused(MissingLast(path[j], parent))
  }

  /** How `get` ends when the walk from `root` along `path` does not resolve: the warning when
      the `in` test at the stopping point is false, a type error from the `in` test or the index
      otherwise. */
  function GetStop(root: Value, path: seq<string>, key: string): (o: Outcome)
    requires Reach(root, path) < |path|
    ensures o == Warned(NotFound(key)) || o == Raised(None)
  {
    if PyIn(path[Reach(root, path)], Holder(root, path)) == Some(false) then Warned(NotFound(key))
    else Raised(None)
  }

  /** A key path `set` accepts: a section and at least one key, an allowed section, and a path
      that already resolves in the configuration. */
  predicate Settable(config: map<string, Value>, keys: seq<string>)
  {
    |keys| >= 2 && keys[0] in Sections && Lookup(Map(config), keys).Some?
  }

  lemma LookupStep(v: Value, a: seq<string>, m: Value, k: string)
    requires Lookup(v, a) == Some(m) && m.Map? && k in m.entries
    ensures Lookup(v, a + [k]) == Some(m.entries[k])
  {
    LookupAppend(v, a, [k]);
  }

  /** A walk along `path` that goes on at position `i` resolves one more key. */
  lemma StepAt(v: Value, path: seq<string>, i: nat, m: Value)
    requires i < |path| && Lookup(v, path[..i]) == Some(m) && m.Map? && path[i] in m.entries
    ensures Lookup(v, path[..i + 1]) == Some(m.entries[path[i]])
  {
    TakeNext(path, i);
    LookupStep(v, path[..i], m, path[i]);
  }

  /** `config set KEY VALUE` on a configuration file `disk`; `writeError` is the failure of the
      final write, if any.  Returns what the command ends with and the file afterwards. */
  method SetCommand(configFile: string, disk: Disk, key: string, text: string, writeError: Option<WriteFault>)
    returns (outcome: Outcome, after: Disk)
    ensures disk.Missing? ==> outcome == Refused(NoConfigForSet) && after == disk
    ensures disk.Corrupt? ==> outcome == Raised(Some(LoadResult(configFile, disk).message)) && after == disk
    ensures disk.Stored? ==>
      var keys := Split(key, '.');
      (outcome.Saved? <==> Settable(disk.config, keys) && writeError.None?) &&
      if |keys| < 2 then outcome == Refused(ShortKeyForSet) && after == disk
      else if keys[0] !in disk.config || keys[0] !in Sections then outcome == Refused(BadSection(keys[0])) && after == disk
      else if Reach(disk.config[keys[0]], keys[1..]) < |keys| - 1 then
        outcome == SetStop(disk.config[keys[0]], keys[1..], key, Join(keys[..|keys| - 1], '.')) && after == disk
      else
        var updated := Assign(Map(disk.config), keys, ParseValue(text)).entries;
        if writeError.None? then outcome == Saved(updated) && after == Stored(updated)
        else outcome == Raised(Some(SaveError(writeError.value))) && after == AfterFault(disk, writeError.value)
  {
    var manager := new ConfigManager(configFile, disk);
    if !manager.ConfigExists() {
      return Refused(NoConfigForSet), disk;
    }
    var loaded := manager.LoadConfig();
    if loaded.Err? {
      return Raised(Some(loaded.message)), disk;
    }
    var config := loaded.value;
    var keys := Split(key, '.');
    if |keys| < 2 {
      return Refused(ShortKeyForSet), disk;
    }
    var section := keys[0];
    if section !in config || section !in Sections {
      return Refused(BadSection(section)), disk;
    }
    var root := config[section];
    assert Lookup(Map(config), keys) == Lookup(root, keys[1..]);
    var stop := SetWalk(root, keys[1..], key, Join(keys[..|keys| - 1], '.'));
    if stop.Some? {
      return stop.value, disk;
    }
    var updated := config[section := Assign(root, keys[1..], ParseValue(text))];
    var saved := manager.SaveConfig(updated, writeError);
    if saved.Err? {
      return Raised(Some(saved.message)), manager.disk;
    }
    return Saved(updated), manager.disk;
  }

  /** The walk of `set` from the section value `root` along `path`, the parts of `key` after the
      section: `None` when the path resolves, otherwise how the command ends. */
  method SetWalk(root: Value, path: seq<string>, key: string, parent: string) returns (stop: Option<Outcome>)
    requires |path| >= 1
    ensures stop.None? <==> Lookup(root, path).Some?
    ensures stop.Some? ==> stop == Some(SetStop(root, path, key, parent))
  {
    var current := root;
    var i := 0;
    assert path[..i] == [];
    while i < |path| - 1
      invariant 0 <= i <= |path| - 1
      invariant Lookup(root, path[..i]) == Some(current)
      invariant i <= Reach(root, path)
      invariant i > 0 ==> current.Map?
    {
      var k := path[i];
      var found := PyIn(k, current);
      if found.None? {
        ReachFrom(root, path, i, current);
        return Some(Raised(None));
      }
      if !found.value {
        ReachFrom(root, path, i, current);
        return Some(Refused(MissingKey(key, k)));
      }
      if !current.Map? {
        ReachFrom(root, path, i, current);
        return Some(Raised(None));
      }
      ReachFrom(root, path, i, current);
      StepAt(root, path, i, current);
      current := current.entries[k];
      if !current.Map? {
        ReachFrom(root, path, i + 1, current);
        return Some(Refused(NotSection(key, k)));
      }
      i := i + 1;
    }
    var last := path[|path| - 1];
    var found := PyIn(last, current);
    ReachFrom(root, path, i, current);
    if found.None? {
      return Some(Raised(None));
    }
    if !found.value {
      return Some(Refused(MissingLast(last, parent)));
    }
    if !current.Map? {
      return Some(Raised(None));
    }
    StepAt(root, path, i, current);
    assert path[..i + 1] == path;
    return None;
  }

  /** `config get KEY` on a configuration file `disk`. */
  method GetCommand(configFile: string, disk: Disk, key: string) returns (outcome: Outcome)
    ensures disk.Missing? ==> outcome == Refused(NoConfigForGet)
    ensures disk.Corrupt? ==> outcome == Raised(Some(LoadResult(configFile, disk).message))
    ensures disk.Stored? ==>
      var keys := Split(key, '.');
      (|keys| < 2 ==> outcome == Refused(ShortKeyForGet)) &&
      (|keys| >= 2 && (keys[0] !in disk.config || keys[0] !in Sections) ==> outcome == Refused(BadSection(keys[0]))) &&
      (|keys| >= 2 && keys[0] in disk.config && keys[0] in Sections ==>
        (outcome.Shown? <==> Lookup(Map(disk.config), keys).Some?) &&
        (outcome.Shown? ==> Lookup(Map(disk.config), keys) == Some(outcome.value)) &&
        (!outcome.Shown? ==> outcome == GetStop(disk.config[keys[0]], keys[1..], key)))
  {
    var manager := new ConfigManager(configFile, disk);
    if !manager.ConfigExists() {
      return Refused(NoConfigForGet);
    }
    var loaded := manager.LoadConfig();
    if loaded.Err? {
      return Raised(Some(loaded.message));
    }
    var config := loaded.value;
    var keys := Split(key, '.');
    if |keys| < 2 {
      return Refused(ShortKeyForGet);
    }
    var section := keys[0];
    if section !in config || section !in Sections {
      return Refused(BadSection(section));
    }
    var root := config[section];
    assert Lookup(Map(config), keys) == Lookup(root, keys[1..]);
    outcome := GetWalk(root, keys[1..], key);
  }

  /** The walk of `get` from the section value `root` along `path`: the value when the path
      resolves, otherwise a warning or a type error. */
  method GetWalk(root: Value, path: seq<string>, key: string) returns (outcome: Outcome)
    ensures outcome.Shown? <==> Lookup(root, path).Some?
    ensures outcome.Shown? ==> Lookup(root, path) == Some(outcome.value)
    ensures !outcome.Shown? ==> outcome == GetStop(root, path, key)
  {
    var current := root;
    var i := 0;
    assert path[..i] == [];
    while i < |path|
      invariant 0 <= i <= |path|
      invariant Lookup(root, path[..i]) == Some(current)
      invariant i <= Reach(root, path)
    {
      var k := path[i];
      var found := PyIn(k, current);
      ReachFrom(root, path, i, current);
      if found.None? || !current.Map? {
        if found.Some? && !found.value {
          return Warned(NotFound(key));
        }
        return Raised(None);
      }
      if !found.value {
        return Warned(NotFound(key));
      }
      StepAt(root, path, i, current);
      current := current.entries[k];
      i := i + 1;
    }
    assert path[..i] == path;
    outcome := Shown(current);
  }

  /** A key that `set` accepted is then shown by `get` with the value that was written. */
  lemma SetThenGet(config: map<string, Value>, keys: seq<string>, x: Value)
    requires Settable(config, keys)
    ensures Settable(Assign(Map(config), keys, x).entries, keys)
    ensures Lookup(Assign(Map(config), keys, x), keys) == Some(x)
  {
    AssignReads(Map(config), keys, x);
  }

  // -------------------------------------------------------------------------------------------
  // `_parse_value`

  predicate IsDigit(c: char)
  {
    '0' <= c <= '9'
  }

  function TrimStart(s: string): (r: string)
    ensures |r| <= |s| && r == s[|s| - |r|..]
    ensures |r| > 0 ==> !IsPySpace(r[0])
    decreases |s|
  {
    if |s| > 0 && IsPySpace(s[0]) then TrimStart(s[1..]) else s
  }

  function TrimEnd(s: string): (r: string)
    ensures |r| <= |s| && r == s[..|r|]
    ensures |r| > 0 ==> !IsPySpace(r[|r| - 1])
    decreases |s|
  {
    if |s| > 0 && IsPySpace(s[|s| - 1]) then TrimEnd(s[..|s| - 1]) else s
  }

  /** Decimal digits, with single underscores allowed between two digits. */
  predicate DigitRun(s: string)
  {
    |s| > 0 && IsDigit(s[0]) &&
    forall i :: 0 <= i < |s| ==> IsDigit(s[i]) || (s[i] == '_' && i + 1 < |s| && IsDigit(s[i + 1]))
  }

  /** The number a digit run denotes; underscores are ignored. */
  function DigitsValue(s: string): (n: nat)
    decreases |s|
  {
    if s == [] then 0
    else if s[|s| - 1] == '_' then DigitsValue(s[..|s| - 1])
    else if IsDigit(s[|s| - 1]) then 10 * DigitsValue(s[..|s| - 1]) + (s[|s| - 1] as int - '0' as int)
    else 10 * DigitsValue(s[..|s| - 1])
  }

  /** `int(value)`: surrounding whitespace, an optional sign, then a digit run. */
  function ParseInt(s: string): (r: Option<int>)
  {
    var t := TrimEnd(TrimStart(s));
    if |t| > 0 && (t[0] == '-' || t[0] == '+') then
      if DigitRun(t[1..]) then Some(if t[0] == '-' then 0 - DigitsValue(t[1..]) else DigitsValue(t[1..])) else None
    else if DigitRun(t) then Some(DigitsValue(t))
    else None
  }

  /** `_parse_value`: "true" and "false" in any letter case become booleans, integer text
      becomes an integer, and anything else stays the text itself. */
  function ParseValue(text: string): (v: Value)
    ensures v.Bool? || v.Int? || v.Str?
    ensures v.Bool? <==> Lower(text) == "true" || Lower(text) == "false"
    ensures v.Bool? ==> v.b == (Lower(text) == "true")
    ensures v.Str? ==> v.s == text
  {
    if Lower(text) == "true" then Bool(true)
    else if Lower(text) == "false" then Bool(false)
    else match ParseInt(text)
      case Some(n) => Int(n)
      case None => Str(text)
  }

  function DigitChar(d: nat): (c: char)
    requires d < 10
    ensures IsDigit(c) && c as int - '0' as int == d
  {
    ('0' as int + d) as char
  }

  /** The decimal text of a natural number. */
  function NatText(n: nat): (s: string)
    ensures |s| > 0
    decreases n
  {
    if n < 10 then [DigitChar(n)] else NatText(n / 10) + [DigitChar(n % 10)]
  }

  /** `str(n)` for an integer. */
  function IntText(n: int): (s: string)
  {
    if n < 0 then "-" + NatText(-n) else NatText(n)
  }

  lemma {:induction false} NatTextDigits(n: nat)
    ensures DigitRun(NatText(n)) && DigitsValue(NatText(n)) == n
    ensures forall i :: 0 <= i < |NatText(n)| ==> IsDigit(NatText(n)[i])
    decreases n
  {
    if n >= 10 {
      NatTextDigits(n / 10);
      var s := NatText(n);
      assert s[..|s| - 1] == NatText(n / 10);
    }
  }

  lemma ParseIntOfText(n: int)
    ensures ParseInt(IntText(n)) == Some(n)
  {
    var s := IntText(n);
    NatTextDigits(if n < 0 then -n else n);
    assert !IsPySpace(s[0]);
    assert TrimStart(s) == s;
    assert !IsPySpace(s[|s| - 1]);
    assert TrimEnd(s) == s;
    if n < 0 {
      assert s[1..] == NatText(-n);
    }
  }

  lemma NotBoolText(n: int)
    ensures Lower(IntText(n)) != "true" && Lower(IntText(n)) != "false"
  {
    var s := IntText(n);
    NatTextDigits(if n < 0 then -n else n);
    assert s[0] == '-' || IsDigit(s[0]);
    assert Lower(s)[0] == LowerChar(s[0]) == s[0];
  }

  /** The text of an integer parses back to that integer. */
  lemma ParseIntText(n: int)
    ensures ParseValue(IntText(n)) == Int(n)
  {
    NotBoolText(n);
    ParseIntOfText(n);
  }
}
