/**
 * The values allow-require-me.js derives at start-up, before it touches the
 * file system: the action, whether this is the tool installing itself, the
 * directory above the package, where the manifest is and where the self link
 * goes. The process arguments, the environment and the working directory are
 * plain inputs.
 */
module Config {
  import opened Options
  import opened Paths

  const ThisModule: string := "allow-require-me"
  const NodeModules: string := "node_modules"
  const ManifestFile: string := "package.json"
  const DefaultAction: string := "show"
  /** What the self link points at, relative to the directory holding it. */
  const SelfTarget: string := ".."

  datatype Action = Show | Install | Add | Remove | Unknown

  /** What the process is given: `argv[2]` (None when absent), the working
      directory split on the separator, and whether `npm_config_save` is set to
      a non-empty value. */
  datatype Invocation = Invocation(arg: Option<string>, cwd: seq<string>, npmConfigSave: bool)

  /** Everything derived before the manifest is loaded. */
  datatype Settings = Settings(
    actionName: string,
    action: Action,
    selfInstall: bool,
    parentDir: Option<string>,
    packagePath: seq<string>,
    savesConfig: bool)

  /** `argv[2] || 'show'`: a missing or empty argument means `show`. */
  function ActionName(arg: Option<string>): (name: string)
    ensures name != ""
    ensures arg.Some? && arg.value != "" ==> name == arg.value
    ensures arg.None? || arg.value == "" ==> name == DefaultAction
  {
    if arg.Some? && arg.value != "" then arg.value else DefaultAction
  }

  /** The `switch` on the action: four names are recognised, every other one
      takes the `default` branch. */
  function Classify(name: string): (a: Action)
    ensures a == Show <==> name == "show"
    ensures a == Install <==> name == "install"
    ensures a == Add <==> name == "add"
    ensures a == Remove <==> name == "remove"
  {
    if name == "show" then Show
    else if name == "install" then Install
    else if name == "add" then Add
    else if name == "remove" then Remove
    else Unknown
  }

  /** `cwd_path.slice(-1)[0]`: the last segment of the working directory,
      `undefined` only for an empty path. */
  function CwdLast(cwd: seq<string>): (last: Option<string>)
    ensures last.Some? <==> |cwd| > 0
    ensures last.Some? ==> last.value == cwd[|cwd| - 1]
  {
    LastOfSlice(cwd);
    FirstOfSlice(cwd, -1, |cwd|)
  }

  /** `action == 'install' && cwd_last == this_module`: the tool is being
      installed from inside its own directory. */
  predicate SelfInstall(actionName: string, cwd: seq<string>)
    ensures SelfInstall(actionName, cwd) <==>
      actionName == "install" && |cwd| > 0 && cwd[|cwd| - 1] == ThisModule
  {
    actionName == "install" && CwdLast(cwd) == Some(ThisModule)
  }

  /** `cwd_path.slice(-4, -3)[0]` for a self install, `slice(-2, -1)[0]`
      otherwise: the segment just above the working directory, or three
      segments further up for a self install; `undefined` when the path is
      too short. */
  function ParentDir(cwd: seq<string>, selfInstall: bool): (parent: Option<string>)
    ensures parent ==
      if selfInstall then (if |cwd| >= 4 then Some(cwd[|cwd| - 4]) else None)
      else (if |cwd| >= 2 then Some(cwd[|cwd| - 2]) else None)
  {
    FirstOfNegativeSlice(cwd, 4);
    FirstOfNegativeSlice(cwd, 2);
    if selfInstall then FirstOfSlice(cwd, -4, -3) else FirstOfSlice(cwd, -2, -1)
  }

  /** `[cwd].concat(self_install ? ['..', '..'] : []).concat(['package.json'])`:
      the manifest of the working directory, or for a self install the one
      two levels up. */
  function PackagePath(cwd: seq<string>, selfInstall: bool): (path: seq<string>)
    ensures !selfInstall ==> Resolve(path) == Resolve(cwd) + [ManifestFile]
    ensures selfInstall && |cwd| >= 2 && Ordinary(cwd[|cwd| - 1]) && Ordinary(cwd[|cwd| - 2]) ==>
      Resolve(path) == Resolve(cwd[..|cwd| - 2]) + [ManifestFile]
  {
    var path := cwd + (if selfInstall then ["..", ".."] else []) + [ManifestFile];
    ResolveSnoc(cwd + (if selfInstall then ["..", ".."] else []), ManifestFile);
    TwoLevelsUp(cwd);
    assert cwd + [] == cwd;
    path
  }

  /** `<root>/<a>/<b>/../..` is `<root>` for ordinary `a` and `b`. */
  lemma TwoLevelsUp(cwd: seq<string>)
    ensures |cwd| >= 2 && Ordinary(cwd[|cwd| - 1]) && Ordinary(cwd[|cwd| - 2]) ==>
      Resolve(cwd + ["..", ".."]) == Resolve(cwd[..|cwd| - 2])
  {
    if |cwd| >= 2 && Ordinary(cwd[|cwd| - 1]) && Ordinary(cwd[|cwd| - 2]) {
      var root := cwd[..|cwd| - 2];
      assert cwd == root + cwd[|cwd| - 2..];
      DownThenUpAll(root, cwd[|cwd| - 2..]);
      assert Ups(2) == ["..", ".."];
    }
  }

  /** `path.join(self_install ? '..' : node_modules, package_name)`, relative to cwd. */
  function SelfLink(selfInstall: bool, packageName: string): (link: seq<string>)
    ensures |link| == 2 && link[1] == packageName
    ensures link[0] == ".." <==> selfInstall
  {
    [if selfInstall then ".." else NodeModules, packageName]
  }

  /** `npm_config_save || cwd_last != this_module`: whether `install` may save
      the manifest. */
  predicate SavesConfig(inv: Invocation)
    ensures SavesConfig(inv) <==>
      inv.npmConfigSave || |inv.cwd| == 0 || inv.cwd[|inv.cwd| - 1] != ThisModule
  {
    inv.npmConfigSave || CwdLast(inv.cwd) != Some(ThisModule)
  }

  /** The whole top-level `var` block, up to the manifest load. */
  function Derive(inv: Invocation): (s: Settings)
    ensures s.action == Classify(s.actionName)
    ensures s.selfInstall ==> s.action == Install
    ensures s.selfInstall ==> !s.savesConfig || inv.npmConfigSave
  {
    var name := ActionName(inv.arg);
    var self := SelfInstall(name, inv.cwd);
    Settings(name, Classify(name), self, ParentDir(inv.cwd, self), PackagePath(inv.cwd, self), SavesConfig(inv))
  }

  /** `if (package_name == this_module) return;`: the tool never links itself. */
  predicate EarlyExit(packageName: string) {
    packageName == ThisModule
  }

  /** Self install holds exactly when the action argument is `install` and the
      working directory's last segment is `allow-require-me`. */
  lemma SelfInstallIff(inv: Invocation)
    ensures Derive(inv).selfInstall <==>
      inv.arg == Some("install") && |inv.cwd| > 0 && inv.cwd[|inv.cwd| - 1] == ThisModule
  {
  }

  /** In a self install the working directory is
      `<package>/node_modules/allow-require-me`, two levels below the package
      root; the parent it computes is the same one the package root computes
      for itself. */
  lemma SelfInstallParentIsPackageParent(cwd: seq<string>)
    requires |cwd| >= 2
    ensures ParentDir(cwd, true) == ParentDir(cwd[..|cwd| - 2], false)
  {
  }

  /** In a self install the `..`, `..` of the manifest path lead from the
      tool's directory to the manifest at the package root. */
  lemma SelfInstallManifestAtPackageRoot(cwd: seq<string>)
    requires |cwd| >= 2 && Ordinary(cwd[|cwd| - 1]) && Ordinary(cwd[|cwd| - 2])
    ensures Resolve(PackagePath(cwd, true)) == Resolve(PackagePath(cwd[..|cwd| - 2], false))
  {
  }

  /** Both forms of the self link name the same entry: `../<name>` seen from
      `<root>/node_modules/<tool>` is `node_modules/<name>` seen from `<root>`. */
  lemma SelfLinkSameEntry(root: seq<string>, tool: string, packageName: string)
    requires Ordinary(tool) && SingleEntry(packageName)
    ensures Resolve(root + [NodeModules, tool] + SelfLink(true, packageName)) ==
            Resolve(root + SelfLink(false, packageName))
  {
    var dir := root + [NodeModules];
    assert root + [NodeModules, tool] + SelfLink(true, packageName) == dir + [tool, "..", packageName];
    assert root + SelfLink(false, packageName) == dir + [packageName];
    SiblingEntry(dir, tool, packageName);
  }

  /** `<dir>/<b>/../<name>` is `<dir>/<name>`. */
  lemma SiblingEntry(dir: seq<string>, b: string, packageName: string)
    requires Ordinary(b) && Ordinary(packageName)
    ensures Resolve(dir + [b, "..", packageName]) == Resolve(dir + [packageName])
  {
    DownThenUp(dir, b);
    var up := dir + [b, ".."];
    assert dir + [b, "..", packageName] == up + [packageName];
    ResolveOrdinary(up, packageName);
    ResolveOrdinary(dir, packageName);
  }

  /** The directory holding the self link `<root>/node_modules/<name...>`,
      where `nameSegments` is the package name split on the separator. */
  function LinkDir(root: seq<string>, nameSegments: seq<string>): seq<string>
    requires |nameSegments| > 0
  {
    root + [NodeModules] + nameSegments[..|nameSegments| - 1]
  }

  /** For an unscoped name the link target `..`, read from the directory
      holding the link (`<root>/node_modules`), is the package root. */
  lemma SelfTargetIsPackageRoot(root: seq<string>, packageName: string)
    requires SingleEntry(packageName)
    ensures Resolve(LinkDir(root, [packageName]) + [SelfTarget]) == Resolve(root)
  {
    assert LinkDir(root, [packageName]) + [SelfTarget] == root + [NodeModules, ".."];
    DownThenUp(root, NodeModules);
  }

  /** For a scoped name `<scope>/<pkg>` `path.join` puts the link at
      `node_modules/<scope>/<pkg>`, so the fixed target `..` resolves to
      `<root>/node_modules`, not to the package root. */
  lemma ScopedSelfTargetMissesRoot(root: seq<string>, scope: string, pkg: string)
    requires Ordinary(scope) && Ordinary(pkg)
    ensures Resolve(LinkDir(root, [scope, pkg]) + [SelfTarget]) == Resolve(root) + [NodeModules]
    ensures Resolve(LinkDir(root, [scope, pkg]) + [SelfTarget]) != Resolve(root)
  {
    assert LinkDir(root, [scope, pkg]) + [SelfTarget] == (root + [NodeModules]) + [scope, ".."];
    DownThenUp(root + [NodeModules], scope);
    ResolveOrdinary(root, NodeModules);
  }

  /** The target the self link needs: one `..` per segment of the package
      name, so that it leads from the link's directory back to the root. */
  function SelfTargetFor(nameSegments: seq<string>): (target: seq<string>)
    requires |nameSegments| > 0
    ensures |nameSegments| == 1 ==> target == [SelfTarget]
  {
    Ups(|nameSegments|)
  }

  /** With the corrected target the self link leads to the package root for
      scoped and unscoped names alike. */
  lemma SelfTargetForIsPackageRoot(root: seq<string>, nameSegments: seq<string>)
    requires |nameSegments| > 0
    requires forall i :: 0 <= i < |nameSegments| ==> Ordinary(nameSegments[i])
    ensures Resolve(LinkDir(root, nameSegments) + SelfTargetFor(nameSegments)) == Resolve(root)
  {
    var down := [NodeModules] + nameSegments[..|nameSegments| - 1];
    assert LinkDir(root, nameSegments) + SelfTargetFor(nameSegments) == root + down + Ups(|down|);
    DownThenUpAll(root, down);
  }
}
