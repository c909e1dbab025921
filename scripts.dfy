/**
 * The `install(script_name, action)` helper of allow-require-me.js: it makes
 * sure that the manifest's script `script_name` runs
 * `node node_modules/allow-require-me/allow-require-me.js <action>`, keeping
 * whatever the script already does.
 */
module Scripts {
  import opened Options
  import opened Config

  /** The command the hook runs: `'node ' + path.join(node_modules,
      this_module, this_module) + '.js ' + action`. */
  function Command(action: string): (c: string)
    ensures |c| > 0
  {
    "node " + NodeModules + "/" + ThisModule + "/" + ThisModule + ".js " + action
  }

  /** `sub` occurs in `s` at index `i`. */
  predicate MatchAt(s: string, sub: string, i: int) {
    0 <= i && i + |sub| <= |s| && s[i..i + |sub|] == sub
  }

  predicate Contains(s: string, sub: string) {
    exists i :: 0 <= i <= |s| && MatchAt(s, sub, i)
  }

  /** `s.indexOf(sub, from)`: the first index at or after `from` where `sub`
      occurs, or -1. */
  function IndexOfFrom(s: string, sub: string, from: nat): (r: int)
    decreases |s| - from
    ensures r == -1 || (from <= r && MatchAt(s, sub, r))
    ensures forall i :: from <= i && (r == -1 || i < r) ==> !MatchAt(s, sub, i)
  {
    if from + |sub| > |s| then -1
    else if s[from..from + |sub|] == sub then from
    else IndexOfFrom(s, sub, from + 1)
  }

  /** `s.indexOf(sub)`: -1 exactly when `sub` does not occur in `s`. */
  function IndexOf(s: string, sub: string): (r: int)
    ensures r == -1 <==> !Contains(s, sub)
    ensures r != -1 ==> MatchAt(s, sub, r) && forall i :: 0 <= i < r ==> !MatchAt(s, sub, i)
  {
    IndexOfFrom(s, sub, 0)
  }

  /** The value `install` leaves in the entry, given its current value
      (`None` when the entry is absent). An absent or empty entry is replaced by
      the command; a command already present is kept; otherwise the command is
      chained after the existing one. */
  function MergedEntry(current: Option<string>, command: string): (entry: string)
    ensures current.Some? && current.value != "" ==>
      |current.value| <= |entry| && entry[..|current.value|] == current.value
  {
    if current.None? || current.value == "" then command
    else if IndexOf(current.value, command) == -1 then current.value + " && " + command
    else current.value
  }

  /** The script table after `install(name, action)`. */
  function Merged(scripts: map<string, string>, name: string, action: string): (r: map<string, string>)
    ensures r.Keys == scripts.Keys + {name}
    ensures forall k :: k in scripts && k != name ==> r[k] == scripts[k]
  {
    var current := if name in scripts then Some(scripts[name]) else None;
    scripts[name := MergedEntry(current, Command(action))]
  }

  /** An entry that already runs the command is left alone. */
  predicate AlreadyHooked(scripts: map<string, string>, name: string, action: string) {
    name in scripts && scripts[name] != "" && Contains(scripts[name], Command(action))
  }

  /** An absent or empty entry becomes exactly the command. */
  lemma MergeIntoEmpty(scripts: map<string, string>, name: string, action: string)
    requires name !in scripts || scripts[name] == ""
    ensures Merged(scripts, name, action)[name] == Command(action)
    ensures Merged(scripts, name, action) != scripts
  {
  }

  /** A non-empty entry that already contains the command is kept as it is, so
      the table does not change. */
  lemma MergeKeepsHooked(scripts: map<string, string>, name: string, action: string)
    requires AlreadyHooked(scripts, name, action)
    ensures Merged(scripts, name, action) == scripts
  {
    assert scripts[name := scripts[name]] == scripts;
  }

  /** A non-empty entry without the command keeps its old text as a prefix and
      gains ` && ` and the command. */
  lemma MergeAppends(scripts: map<string, string>, name: string, action: string)
    requires name in scripts && scripts[name] != "" && !Contains(scripts[name], Command(action))
    ensures Merged(scripts, name, action)[name] == scripts[name] + " && " + Command(action)
    ensures Merged(scripts, name, action) != scripts
  {
    assert |Merged(scripts, name, action)[name]| > |scripts[name]|;
  }

  /** Whatever the entry held before, afterwards it runs the command. */
  lemma MergeInstallsHook(scripts: map<string, string>, name: string, action: string)
    ensures Contains(Merged(scripts, name, action)[name], Command(action))
  {
    var cmd := Command(action);
    var r := Merged(scripts, name, action)[name];
    if name !in scripts || scripts[name] == "" {
      assert MatchAt(r, cmd, 0);
    } else if IndexOf(scripts[name], cmd) == -1 {
      var at := |scripts[name]| + |" && "|;
      assert r[at..at + |cmd|] == cmd;
      assert MatchAt(r, cmd, at);
    }
  }

  /** The table changes exactly when the entry did not already run the
      command; this is when the source sets `changed`. */
  lemma MergeChangesIff(scripts: map<string, string>, name: string, action: string)
    ensures Merged(scripts, name, action) != scripts <==> !AlreadyHooked(scripts, name, action)
  {
    if AlreadyHooked(scripts, name, action) {
      MergeKeepsHooked(scripts, name, action);
    } else if name !in scripts || scripts[name] == "" {
      MergeIntoEmpty(scripts, name, action);
    } else {
      MergeAppends(scripts, name, action);
    }
  }

  /** Installing the same hook twice is the same as installing it once. */
  lemma MergeIdempotent(scripts: map<string, string>, name: string, action: string)
    ensures Merged(Merged(scripts, name, action), name, action) == Merged(scripts, name, action)
  {
    var once := Merged(scripts, name, action);
    MergeInstallsHook(scripts, name, action);
    assert once[name] != "";
    MergeKeepsHooked(once, name, action);
  }
}
