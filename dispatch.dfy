/**
 * What `process_action` does to the outside world, as functions over an
 * abstract world: the state of the self-link path, the script table saved in
 * the manifest on disk, and the file-system calls issued so far. The outcome
 * of every file-system call is an input.
 */
module Dispatch {
  import opened Options
  import opened Config
  import Scripts

  /** What is found at the self-link path. */
  datatype LinkState = Absent | Symlink | Directory | OtherFile

  datatype Outcome = Succeeds | Fails

  /** How each file-system call would end if it were issued. */
  datatype Outcomes = Outcomes(lstat: Outcome, unlink: Outcome, symlink: Outcome, writeFile: Outcome)

  datatype FsCall = Lstat | Unlink | CreateSymlink | WriteManifest

  datatype World = World(link: LinkState, saved: map<string, string>, calls: seq<FsCall>)

  /** `install('postinstall', 'add')`: the hook the `install` action saves. */
  const HookScript: string := "postinstall"
  const HookAction: string := "add"

  /** The `self_link_lstat` handed to `process_action`: undefined when lstat
      fails, which it does for an absent path and may do for any other. */
  function Stat(link: LinkState, o: Outcome): (stat: Option<LinkState>)
    ensures stat.Some? ==> stat.value == link && link != Absent
  {
    if o == Succeeds && link != Absent then Some(link) else None
  }

  /** `fs.symlink` only creates where nothing is (EEXIST otherwise). */
  predicate SymlinkSucceeds(link: LinkState, o: Outcome) {
    o == Succeeds && link == Absent
  }

  /** `fs.unlink` removes a symlink or a file, never a directory or nothing. */
  predicate UnlinkSucceeds(link: LinkState, o: Outcome) {
    o == Succeeds && (link == Symlink || link == OtherFile)
  }

  /** The calls issued after `w`'s: every step only appends to the trace. */
  function NewCalls(w: World, w': World): seq<FsCall>
    requires w.calls <= w'.calls
  {
    w'.calls[|w.calls|..]
  }

  /** `add_self_link()`. */
  function AfterAddSelfLink(w: World, o: Outcomes): (w': World)
    ensures w'.saved == w.saved && w'.calls == w.calls + [CreateSymlink]
    ensures w'.link == Symlink <==> w.link == Symlink || (w.link == Absent && o.symlink == Succeeds)
    ensures w.link != Absent ==> w'.link == w.link
  {
    w.(link := if SymlinkSucceeds(w.link, o.symlink) then Symlink else w.link,
       calls := w.calls + [CreateSymlink])
  }

  /** `remove_self_link(next)`: `next` says whether `add_self_link` is chained
      after it. */
  function AfterRemoveSelfLink(w: World, stat: Option<LinkState>, next: bool, o: Outcomes): (w': World)
    ensures w'.saved == w.saved && w.calls <= w'.calls && WriteManifest !in NewCalls(w, w')
    ensures w'.link == Directory <==> w.link == Directory
    ensures !next ==> CreateSymlink !in NewCalls(w, w') && (w'.link == w.link || w'.link == Absent)
  {
    match stat
    case None => if next then AfterAddSelfLink(w, o) else w
    case Some(found) =>
      if found != Symlink && found == Directory then w
      else if UnlinkSucceeds(w.link, o.unlink) then
        var removed := w.(link := Absent, calls := w.calls + [Unlink]);
        if next then AfterAddSelfLink(removed, o) else removed
      else w.(calls := w.calls + [Unlink])
  }

  /** The `case 'add'` branch. */
  function AfterAdd(w: World, stat: Option<LinkState>, o: Outcomes): (w': World)
    ensures w'.saved == w.saved && w.calls <= w'.calls && WriteManifest !in NewCalls(w, w')
    ensures w'.link == Directory <==> w.link == Directory
    ensures w'.link == w.link || w'.link == Absent || w'.link == Symlink
  {
    if stat == Some(Symlink) then w
    else if stat.Some? then AfterRemoveSelfLink(w, stat, true, o)
    else AfterAddSelfLink(w, o)
  }

  /** The saving part of `case 'install'`: the hook is merged into the loaded
      script table, and the manifest is written only if that changed it. */
  function AfterSaveHook(w: World, o: Outcomes): (w': World)
    ensures w'.link == w.link && w.calls <= w'.calls
    ensures w'.saved == w.saved || w'.saved == Scripts.Merged(w.saved, HookScript, HookAction)
  {
    var merged := Scripts.Merged(w.saved, HookScript, HookAction);
    if merged == w.saved then w
    else w.(saved := if o.writeFile == Succeeds then merged else w.saved,
            calls := w.calls + [WriteManifest])
  }

  /** `process_action(error, self_link_lstat)`. */
  function AfterProcessAction(s: Settings, stat: Option<LinkState>, w: World, o: Outcomes): (w': World)
    ensures w.calls <= w'.calls
    ensures w'.link == Directory <==> w.link == Directory
    ensures w'.saved == w.saved || (s.action == Install && w'.saved == Scripts.Merged(w.saved, HookScript, HookAction))
  {
    if s.parentDir == Some(NodeModules) then w
    else
      match s.action
      case Show => w
      case Unknown => w
      case Remove => AfterRemoveSelfLink(w, stat, false, o)
      case Add => AfterAdd(w, stat, o)
      case Install => AfterAdd(if s.savesConfig then AfterSaveHook(w, o) else w, stat, o)
  }

  /** The whole run: derive the settings, stop for the tool's own package,
      otherwise lstat the self link and process the action. */
  function AfterRun(inv: Invocation, packageName: string, w: World, o: Outcomes): (w': World)
    ensures w.calls <= w'.calls
    ensures w'.link == Directory <==> w.link == Directory
    ensures w'.saved == w.saved || (Derive(inv).action == Install && w'.saved == Scripts.Merged(w.saved, HookScript, HookAction))
  {
    if EarlyExit(packageName) then w
    else AfterProcessAction(Derive(inv), Stat(w.link, o.lstat), w.(calls := w.calls + [Lstat]), o)
  }

  // ---------------------------------------------------------------------------
  // Properties of one run

  /** The tool's own package is never touched, not even by lstat. */
  lemma OwnPackageUntouched(inv: Invocation, w: World, o: Outcomes)
    ensures AfterRun(inv, ThisModule, w, o) == w
  {
  }

  /** When the package sits directly in a `node_modules`, every action only
      lstats the link. */
  lemma NodeModulesParentIsNoOp(inv: Invocation, packageName: string, w: World, o: Outcomes)
    requires Derive(inv).parentDir == Some(NodeModules)
    requires !EarlyExit(packageName)
    ensures AfterRun(inv, packageName, w, o) == w.(calls := w.calls + [Lstat])
  {
  }

  /** `show` and unrecognised actions change neither the link nor the
      manifest, and issue no call after lstat. */
  lemma ShowIsNoOp(inv: Invocation, packageName: string, w: World, o: Outcomes)
    requires Derive(inv).action == Show || Derive(inv).action == Unknown
    ensures AfterRun(inv, packageName, w, o) ==
      if EarlyExit(packageName) then w else w.(calls := w.calls + [Lstat])
  {
  }

  /** `add` by the state of the link when lstat succeeds: a symlink is kept, an
      absent path gets one when creation succeeds, another file is unlinked and
      replaced, a directory is refused without any attempt to create. The
      manifest is never written. */
  lemma AddTransitions(w: World, o: Outcomes)
    requires o.lstat == Succeeds
    ensures var w' := AfterAdd(w, Stat(w.link, o.lstat), o);
      && w'.saved == w.saved
      && w.calls <= w'.calls
      && (w.link == Symlink ==> w' == w)
      && (w.link == Absent ==>
            w'.link == (if o.symlink == Succeeds then Symlink else Absent)
            && NewCalls(w, w') == [CreateSymlink])
      && (w.link == OtherFile ==>
            w'.link == (if o.unlink == Fails then OtherFile
                        else if o.symlink == Fails then Absent
                        else Symlink)
            && NewCalls(w, w') == if o.unlink == Fails then [Unlink] else [Unlink, CreateSymlink])
      && (w.link == Directory ==> w' == w)
  {
  }

  /** Whatever lstat reports, `add` never turns a symlink or a directory into
      anything else. */
  lemma AddKeepsSymlinkAndDirectory(w: World, o: Outcomes)
    requires w.link == Symlink || w.link == Directory
    ensures AfterAdd(w, Stat(w.link, o.lstat), o).link == w.link
  {
  }

  /** `add` twice with the same outcomes leaves the link as `add` once does,
      and once the link is a symlink a second `add` changes nothing at all
      when lstat sees it. */
  lemma AddIdempotent(w: World, o: Outcomes, o2: Outcomes)
    ensures var w1 := AfterAdd(w, Stat(w.link, o.lstat), o);
      AfterAdd(w1, Stat(w1.link, o.lstat), o).link == w1.link
    ensures var w1 := AfterAdd(w, Stat(w.link, o.lstat), o);
      w1.link == Symlink && o2.lstat == Succeeds ==> AfterAdd(w1, Stat(w1.link, o2.lstat), o2) == w1
  {
  }

  /** `remove` by the state of the link: a directory is refused, an absent
      path is reported as not found, a symlink or another file is gone when
      unlink succeeds. `remove` never creates and never writes the manifest. */
  lemma RemoveTransitions(w: World, o: Outcomes)
    ensures var w' := AfterRemoveSelfLink(w, Stat(w.link, o.lstat), false, o);
      && w'.saved == w.saved
      && w.calls <= w'.calls
      && CreateSymlink !in NewCalls(w, w')
      && (w.link == Directory || w.link == Absent ==> w' == w)
      && (w.link == Symlink || w.link == OtherFile ==>
            w'.link == (if o.lstat == Succeeds && o.unlink == Succeeds then Absent else w.link))
  {
  }

  /** Once `remove` has left the path absent, a second `remove`, whatever its
      outcomes, changes nothing and issues no call. */
  lemma RemoveTwice(w: World, o: Outcomes, o2: Outcomes)
    ensures var w1 := AfterRemoveSelfLink(w, Stat(w.link, o.lstat), false, o);
      w1.link == Absent ==> AfterRemoveSelfLink(w1, Stat(w1.link, o2.lstat), false, o2) == w1
  {
  }

  /** `install` ends with exactly the link state `add` gives: it falls through
      to `add` whatever happened to the manifest. */
  lemma InstallFallsThroughToAdd(s: Settings, stat: Option<LinkState>, w: World, o: Outcomes)
    requires s.action == Install
    ensures AfterProcessAction(s, stat, w, o).link == AfterProcessAction(s.(action := Add), stat, w, o).link
  {
  }

  /** The manifest is written only by `install`, only when saving is enabled,
      and only when merging the hook changed the script table; it then holds
      the merged table if the write succeeds. */
  lemma ManifestWrites(inv: Invocation, packageName: string, w: World, o: Outcomes)
    ensures var w' := AfterRun(inv, packageName, w, o);
      var s := Derive(inv);
      var writes := !EarlyExit(packageName) && s.parentDir != Some(NodeModules)
        && s.action == Install && s.savesConfig
        && !Scripts.AlreadyHooked(w.saved, HookScript, HookAction);
      && w.calls <= w'.calls
      && (WriteManifest in NewCalls(w, w') <==> writes)
      && w'.saved == if writes && o.writeFile == Succeeds
                     then Scripts.Merged(w.saved, HookScript, HookAction) else w.saved
  {
    if !EarlyExit(packageName) {
      ProcessActionWrites(Derive(inv), Stat(w.link, o.lstat), w.(calls := w.calls + [Lstat]), o);
      var w0 := w.(calls := w.calls + [Lstat]);
      var w' := AfterRun(inv, packageName, w, o);
      assert NewCalls(w, w') == [Lstat] + NewCalls(w0, w');
    }
  }

  /** `ManifestWrites` for one call of `process_action`. */
  lemma ProcessActionWrites(s: Settings, stat: Option<LinkState>, w: World, o: Outcomes)
    ensures var w' := AfterProcessAction(s, stat, w, o);
      var writes := s.parentDir != Some(NodeModules) && s.action == Install && s.savesConfig
        && !Scripts.AlreadyHooked(w.saved, HookScript, HookAction);
      && (WriteManifest in NewCalls(w, w') <==> writes)
      && w'.saved == if writes && o.writeFile == Succeeds
                     then Scripts.Merged(w.saved, HookScript, HookAction) else w.saved
  {
    Scripts.MergeChangesIff(w.saved, HookScript, HookAction);
    var w' := AfterProcessAction(s, stat, w, o);
    if s.parentDir != Some(NodeModules) && s.action == Install {
      var w1 := if s.savesConfig then AfterSaveHook(w, o) else w;
      assert w' == AfterAdd(w1, stat, o);
      assert NewCalls(w, w') == NewCalls(w, w1) + NewCalls(w1, w');
      var saves := s.savesConfig && Scripts.Merged(w.saved, HookScript, HookAction) != w.saved;
      assert NewCalls(w, w1) == if saves then [WriteManifest] else [];
    }
  }

  /** When the script already runs the hook, `install` neither writes the
      manifest nor changes it. */
  lemma HookedManifestNotWritten(inv: Invocation, packageName: string, w: World, o: Outcomes)
    requires Scripts.AlreadyHooked(w.saved, HookScript, HookAction)
    ensures var w' := AfterRun(inv, packageName, w, o);
      w.calls <= w'.calls && WriteManifest !in NewCalls(w, w') && w'.saved == w.saved
  {
    ManifestWrites(inv, packageName, w, o);
  }

  /** A real directory at the self-link path survives every run, and when
      lstat sees it nothing is ever unlinked or created there. */
  lemma DirectoryNeverReplaced(inv: Invocation, packageName: string, w: World, o: Outcomes)
    requires w.link == Directory
    ensures var w' := AfterRun(inv, packageName, w, o);
      && w'.link == Directory
      && w.calls <= w'.calls
      && (o.lstat == Succeeds ==> Unlink !in NewCalls(w, w') && CreateSymlink !in NewCalls(w, w'))
  {
  }

  // ---------------------------------------------------------------------------
  // Properties of two runs

  /** Running `add` twice with the same outcomes leaves the link as one run
      does. */
  lemma RunAddTwice(inv: Invocation, packageName: string, w: World, o: Outcomes)
    requires Derive(inv).action == Add
    ensures var w1 := AfterRun(inv, packageName, w, o);
      AfterRun(inv, packageName, w1, o).link == w1.link
  {
    var w1 := AfterRun(inv, packageName, w, o);
    if !EarlyExit(packageName) && Derive(inv).parentDir != Some(NodeModules) {
      AddIdempotent(w.(calls := w.calls + [Lstat]), o, o);
    }
  }

  /** A `remove` run after one that left the path absent changes neither the
      link nor the manifest, and issues nothing but lstat. */
  lemma RunRemoveTwice(inv: Invocation, packageName: string, w: World, o: Outcomes, o2: Outcomes)
    requires Derive(inv).action == Remove
    requires AfterRun(inv, packageName, w, o).link == Absent
    ensures var w1 := AfterRun(inv, packageName, w, o);
      var w2 := AfterRun(inv, packageName, w1, o2);
      w2.link == Absent && w2.saved == w1.saved && w1.calls <= w2.calls
      && NewCalls(w1, w2) == if EarlyExit(packageName) then [] else [Lstat]
  {
  }

  /** Once the hook is in the saved manifest, another `install` run does not
      write the manifest again: after a successful save, `install` is
      idempotent on the manifest. */
  lemma InstallTwiceSavesOnce(inv: Invocation, packageName: string, w: World, o: Outcomes, o2: Outcomes)
    requires Derive(inv).action == Install
    requires AfterRun(inv, packageName, w, o).saved == Scripts.Merged(w.saved, HookScript, HookAction)
    ensures var w1 := AfterRun(inv, packageName, w, o);
      var w2 := AfterRun(inv, packageName, w1, o2);
      w2.saved == w1.saved && w1.calls <= w2.calls && WriteManifest !in NewCalls(w1, w2)
  {
    var w1 := AfterRun(inv, packageName, w, o);
    Scripts.MergeInstallsHook(w.saved, HookScript, HookAction);
    assert Scripts.Command(HookAction) != "";
    assert w1.saved[HookScript] != "";
    HookedManifestNotWritten(inv, packageName, w1, o2);
  }
}
