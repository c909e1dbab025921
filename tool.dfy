/**
 * allow-require-me.js as a program: a `Tool` object holds the state the
 * script's callbacks share (the link on disk, the manifest on disk, the loaded
 * script table and the `changed` flag) and each method is one of the script's
 * functions, proved to do what the matching `Dispatch` function says.
 */
module SelfLinkTool {
  import opened Options
  import opened Config
  import Scripts
  import opened Dispatch

  class Tool {
    /** What is at the self-link path on disk. */
    var link: LinkState
    /** The script table of the manifest on disk. */
    var saved: map<string, string>
    /** Every file-system call issued, in order. */
    var calls: seq<FsCall>
    /** `package_json.scripts` as loaded (an absent table reads as empty). */
    var scripts: map<string, string>
    /** The `changed` flag `install` raises. */
    var changed: bool

    /** The part of the state visible outside the process. */
    function State(): World
      reads this
    {
      World(link, saved, calls)
    }

    constructor (link: LinkState, saved: map<string, string>)
      ensures State() == World(link, saved, [])
      ensures scripts == saved && !changed
    {
      this.link := link;
      this.saved := saved;
      this.calls := [];
      this.scripts := saved;
      this.changed := false;
    }

    /** `fs.lstat(self_link, ...)`. */
    method LstatSelfLink(o: Outcome) returns (stat: Option<LinkState>)
      modifies this`calls
      ensures calls == old(calls) + [Lstat]
      ensures stat == Stat(link, o)
    {
      calls := calls + [Lstat];
      if o == Succeeds && link != Absent {
        stat := Some(link);
      } else {
        stat := None;
      }
    }

    /** `install(script_name, action)`: merges the hook into the loaded table
        and raises `changed` when the entry differs. */
    method Install(scriptName: string, action: string)
      modifies this`scripts, this`changed
      ensures scripts == Scripts.Merged(old(scripts), scriptName, action)
      ensures changed == (old(changed) || !Scripts.AlreadyHooked(old(scripts), scriptName, action))
    {
      Scripts.MergeChangesIff(scripts, scriptName, action);
      var command := Scripts.Command(action);
      if scriptName in scripts && scripts[scriptName] != "" {
        var current := scripts[scriptName];
        command := current + (if Scripts.IndexOf(current, command) == -1 then " && " + command else "");
        assert current + "" == current;
      }
      assert command == Scripts.MergedEntry(if scriptName in scripts then Some(scripts[scriptName]) else None,
                                            Scripts.Command(action));
      if scriptName !in scripts || scripts[scriptName] != command {
        scripts := scripts[scriptName := command];
        changed := true;
      } else {
        assert scripts[scriptName := command] == scripts;
      }
    }

    /** `add_self_link()`. */
    method AddSelfLink(o: Outcomes)
      modifies this`link, this`calls
      ensures State() == AfterAddSelfLink(old(State()), o)
    {
      calls := calls + [CreateSymlink];
      if o.symlink == Succeeds && link == Absent {
        link := Symlink;
      }
    }

    /** `remove_self_link(next)`, with `next` set when `add_self_link` follows. */
    method RemoveSelfLink(stat: Option<LinkState>, next: bool, o: Outcomes)
      modifies this`link, this`calls
      ensures State() == AfterRemoveSelfLink(old(State()), stat, next, o)
    {
      if stat.Some? {
        if stat.value != Symlink && stat.value == Directory {
          // refuses to remove a real directory
        } else {
          calls := calls + [Unlink];
          if o.unlink == Succeeds && (link == Symlink || link == OtherFile) {
            link := Absent;
            if next {
              AddSelfLink(o);
            }
          }
        }
      } else if next {
        AddSelfLink(o);
      }
    }

    /** `process_action(error, self_link_lstat)`, for a freshly loaded manifest. */
    method ProcessAction(s: Settings, stat: Option<LinkState>, o: Outcomes)
      requires scripts == saved
      modifies this
      ensures State() == AfterProcessAction(s, stat, old(State()), o)
    {
      if s.parentDir == Some(NodeModules) {
        return;
      }
      if s.action.Install? && s.savesConfig {
        changed := false;
        Install(HookScript, HookAction);
        Scripts.MergeChangesIff(old(saved), HookScript, HookAction);
        if changed {
          calls := calls + [WriteManifest];
          if o.writeFile == Succeeds {
            saved := scripts;
          }
        }
      }
      if s.action.Install? || s.action.Add? {
        // `install` falls through to `add`
        if stat == Some(Symlink) {
          // already a symbolic link
        } else if stat.Some? {
          RemoveSelfLink(stat, true, o);
        } else {
          AddSelfLink(o);
        }
      } else if s.action.Remove? {
        RemoveSelfLink(stat, false, o);
      }
    }

    /** The script from the top: derive the settings, load the manifest, stop
        for the tool's own package, lstat the self link, process the action. */
    method Run(inv: Invocation, packageName: string, o: Outcomes)
      modifies this
      ensures State() == AfterRun(inv, packageName, old(State()), o)
    {
      var settings := Derive(inv);
      scripts := saved;
      if packageName == ThisModule {
        return;
      }
      var stat := LstatSelfLink(o.lstat);
      ProcessAction(settings, stat, o);
    }
  }
}
