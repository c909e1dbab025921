# allow-require-me, modelled in Dafny

allow-require-me is a small command-line tool that keeps a self link in a
package's own `node_modules`: `node_modules/<name>` is a symbolic link to `..`,
so that a package with an unscoped name can `require` itself by that name (for
a scoped name the link's target misses the package root; see "## Findings").
It takes one
action (`show`, `install`, `add` or `remove`; `show` by default). `install`
adds a `postinstall` hook that runs the tool with `add` to the manifest's
script table, then does what `add` does.

This project models the tool's logic. The file system is abstracted to the
state of the self-link path and the script table of the manifest on disk.
The outcome of every file-system call is an input.

- `options.dfy`, module `Options`: `Option`, where `None` is JavaScript's
  `undefined`.
- `paths.dfy`, module `Paths`: paths as segment sequences. It models the
  negative-index reading of `Array.prototype.slice` and the `.`/`..`
  resolution that `path.join` performs.
- `config.dfy`, module `Config`: the values derived at start-up. These are the
  action, `self_install`, `parent_dir`, the manifest path, the self link, the
  save condition and the early exit for the tool's own package. It also proves
  that the self-install variants point at the same places as the ordinary ones.
- `scripts.dfy`, module `Scripts`: the `install(script_name, action)` merge of
  the hook command into the script table. It includes a model of
  `String.prototype.indexOf`.
- `dispatch.dfy`, module `Dispatch`: `process_action` and the top-level run as
  functions over a `World`. A `World` is the link state, the saved script table
  and the trace of file-system calls. The module's lemmas give each action's
  effect.
- `tool.dfy`, module `SelfLinkTool`: class `Tool`, whose fields are the state
  that the script's callbacks share. Its methods mirror `install`,
  `add_self_link`, `remove_self_link`, `process_action` and the top level. Each
  method is proved to change that state exactly as the matching `Dispatch`
  function says.

Three properties one expects of the tool hold only in a narrower form:
- A second `remove` is a no-op whenever the first left the path absent
  (`Dispatch.RunRemoveTwice`). After a failed lstat or a failed unlink,
  whatever was at the path is still there, and the second run may still
  remove it.
- `install` writes the manifest only when the script table changes, but a
  changed table is not enough. The write also requires that `npm_config_save` is set
  or that the working directory is not the tool's own directory. It also
  requires that the parent directory is not `node_modules` and that the
  package is not the tool itself (`Dispatch.ManifestWrites`).
- `add` is idempotent for the link state when both runs see the same call
  outcomes. The trace of calls still grows (`Dispatch.AddIdempotent`,
  `Dispatch.RunAddTwice`). A failed symlink call followed by one that succeeds
  turns an absent path into a symlink only on the second run.

## Model

| member | source | states |
|---|---|---|
| `Paths.FirstOfSliceAt` | allow-require-me.js:48 | the first element of `s.slice(start, end)` exists iff the clamped start lies before the clamped end, and is then the element at the clamped start |
| `Paths.FirstOfNegativeSlice` | allow-require-me.js:48 | `slice(-k, -k+1)[0]` is the k-th element from the end, or `undefined` when the array has fewer than k elements |
| `Paths.LastOfSlice` | allow-require-me.js:34 | `slice(-1)[0]` is the last element, or `undefined` for an empty array |
| `Paths.Resolve` | allow-require-me.js:56 | defines the lexical resolution `path.join` applies; its result has no empty or `.` segment and keeps `..` only before all ordinary segments |
| `Paths.DownThenUp` | allow-require-me.js:52-56 | entering a directory and then `..` resolves to the starting path |
| `Paths.ResolveCongruent` | allow-require-me.js:56 | two prefixes that resolve alike still resolve alike after the same further segments |
| `Paths.DownThenUpAll` | allow-require-me.js:52-56 | descending through n ordinary segments and then n times `..` resolves to the starting path |
| `Config.ActionName` | allow-require-me.js:43 | the action is never empty: `argv[2]` when it is present and non-empty, otherwise `show` |
| `Config.Classify` | allow-require-me.js:81-141 | exactly `show`, `install`, `add` and `remove` select their branch; any other name takes the default branch |
| `Config.CwdLast` | allow-require-me.js:34 | `cwd_last` is the last segment of the working directory, `undefined` only for an empty path |
| `Config.SelfInstall` | allow-require-me.js:46 | `self_install` holds iff the action is `install` and the last cwd segment is `allow-require-me` |
| `Config.ParentDir` | allow-require-me.js:48 | `parent_dir` is the second-to-last cwd segment, or the fourth-to-last for a self install; it is `undefined` when cwd is too short |
| `Config.PackagePath` | allow-require-me.js:52-54 | the manifest path resolves to `package.json` in the working directory, or for a self install to `package.json` two levels up |
| `Config.SelfLink` | allow-require-me.js:62 | the self link is the entry `<name>` inside `..` exactly for a self install, otherwise inside `node_modules`, both relative to cwd |
| `Config.SavesConfig` | allow-require-me.js:96 | `install` may save the manifest iff `npm_config_save` is set or the last cwd segment is missing or not `allow-require-me` |
| `Config.EarlyExit` | allow-require-me.js:66 | defines the early exit: the package is the tool itself |
| `Config.Derive` | allow-require-me.js:43-56 | the action matches its name; a self install is always an `install`, and it saves the manifest only when `npm_config_save` is set |
| `Config.SelfInstallIff` | allow-require-me.js:33-46 | self install holds iff the argument is `install` and the last segment of the working directory is `allow-require-me` |
| `Config.SelfInstallParentIsPackageParent` | allow-require-me.js:46-48 | in a self install, `parent_dir` is the one the package root, two levels up, computes for itself |
| `Config.SelfInstallManifestAtPackageRoot` | allow-require-me.js:52-56 | in a self install, the manifest path with `..`, `..` resolves to the package root's `package.json` |
| `Config.SelfLinkSameEntry` | allow-require-me.js:62 | `../<name>` from `<root>/node_modules/allow-require-me` and `node_modules/<name>` from `<root>` resolve to the same entry |
| `Config.SelfTargetIsPackageRoot` | allow-require-me.js:62-63 | for an unscoped name the link target `..`, read from the link's directory `<root>/node_modules`, resolves to the package root |
| `Config.ScopedSelfTargetMissesRoot` | allow-require-me.js:62-63 | for a scoped name `<scope>/<pkg>` the link target `..`, read from `<root>/node_modules/<scope>`, resolves to `<root>/node_modules`, which is not the package root |
| `Config.SelfTargetFor` | allow-require-me.js:63 | the corrected target (one `..` per name segment) is exactly `..` for an unscoped name |
| `Config.SelfTargetForIsPackageRoot` | allow-require-me.js:62-63 | with the corrected target, the link leads to the package root for scoped and unscoped names alike |
| `Scripts.Command` | allow-require-me.js:144 | the hook command is `node node_modules/allow-require-me/allow-require-me.js <action>`, which is never empty |
| `Scripts.IndexOfFrom` | allow-require-me.js:150 | the result is -1 when no match exists at or after `from`; otherwise it is the first index at or after `from` where the substring occurs |
| `Scripts.IndexOf` | allow-require-me.js:150 | `indexOf` is -1 iff the command does not occur in the current script; otherwise it is the first occurrence |
| `Scripts.MergedEntry` | allow-require-me.js:148-152 | the new entry always begins with the old non-empty script, so nothing the script already did is lost |
| `Scripts.Merged` | allow-require-me.js:143-159 | the merge only adds or rewrites the entry `script_name`; every other entry is untouched |
| `Scripts.MergeIntoEmpty` | allow-require-me.js:144-158 | an absent or empty entry becomes exactly the command, and the table changes |
| `Scripts.MergeKeepsHooked` | allow-require-me.js:148-158 | a non-empty entry that already contains the command leaves the table unchanged |
| `Scripts.MergeAppends` | allow-require-me.js:148-152 | otherwise the entry becomes the old script, then ` && `, then the command, and the table changes |
| `Scripts.MergeInstallsHook` | allow-require-me.js:143-159 | after the merge the entry always contains the command |
| `Scripts.MergeChangesIff` | allow-require-me.js:154-158 | the table changes (the source sets `changed`) iff the entry was not already a non-empty script containing the command |
| `Scripts.MergeIdempotent` | allow-require-me.js:143-159 | merging twice gives the same table as merging once |
| `Dispatch.Stat` | allow-require-me.js:68-72 | an lstat result, when there is one, is the actual state of the link, and that state is not absent |
| `Dispatch.AfterAddSelfLink` | allow-require-me.js:161-170 | `add_self_link` issues the symlink call and leaves the manifest alone; the link becomes a symlink iff it already was one or the path was absent and creation succeeded; an existing entry never changes |
| `Dispatch.AfterRemoveSelfLink` | allow-require-me.js:172-194 | `remove_self_link` never writes the manifest and never turns a directory into anything else, nor anything into a directory; without `next` it never creates, and the link either stays or becomes absent |
| `Dispatch.AfterAdd` | allow-require-me.js:124-136 | the `add` branch never writes the manifest or changes a directory, and leaves the link as it was, absent or a symlink |
| `Dispatch.AfterSaveHook` | allow-require-me.js:95-119 | the saving part of `install` leaves the link alone, and the saved table is either unchanged or the merged one |
| `Dispatch.AfterProcessAction` | allow-require-me.js:70-141 | `process_action` only appends calls, never changes a directory, and changes the saved table only for `install`, and then to the merged table |
| `Dispatch.AfterRun` | allow-require-me.js:43-68 | the whole run only appends calls, never changes a directory, and changes the saved table only for `install`, and then to the merged table |
| `Dispatch.OwnPackageUntouched` | allow-require-me.js:66 | for the package `allow-require-me` nothing happens, not even the lstat |
| `Dispatch.NodeModulesParentIsNoOp` | allow-require-me.js:75-79 | when `parent_dir` is `node_modules`, every action only issues the lstat |
| `Dispatch.ShowIsNoOp` | allow-require-me.js:82-93 | `show` and unknown actions leave the link and the manifest unchanged and issue nothing after the lstat |
| `Dispatch.AddTransitions` | allow-require-me.js:124-194 | `add`, when the lstat succeeds: a symlink stays as it is; an absent path becomes a symlink if creation succeeds; another file is unlinked and then recreated, becoming absent or a symlink as the calls succeed; a directory is refused with no call; the manifest is untouched |
| `Dispatch.AddKeepsSymlinkAndDirectory` | allow-require-me.js:125-135 | whatever the lstat reports, `add` leaves a symlink a symlink and a directory a directory |
| `Dispatch.AddIdempotent` | allow-require-me.js:124-135 | a second `add` with the same outcomes leaves the link as the first left it; once the link is a symlink and the lstat sees it, a second `add` changes nothing |
| `Dispatch.RemoveTransitions` | allow-require-me.js:172-193 | `remove` refuses a directory, reports an absent path with no change, and makes a symlink or file absent iff the lstat and the unlink succeed; it never creates a link or writes the manifest |
| `Dispatch.RemoveTwice` | allow-require-me.js:189-193 | once `remove` has left the path absent, a second `remove` changes nothing and issues no call |
| `Dispatch.InstallFallsThroughToAdd` | allow-require-me.js:95-124 | `install` ends with the same link state as `add` |
| `Dispatch.ManifestWrites` | allow-require-me.js:95-119 | the manifest is written iff the action is `install`, saving is enabled, neither early exit applies, and the entry did not already hold the command; on a successful write it holds the merged table |
| `Dispatch.ProcessActionWrites` | allow-require-me.js:95-119 | within `process_action`, the manifest is written iff the parent is not `node_modules`, the action is `install`, saving is enabled and the entry was not yet hooked; a successful write leaves the merged table |
| `Dispatch.HookedManifestNotWritten` | allow-require-me.js:106-116 | when the script already runs the hook, no run writes or changes the manifest |
| `Dispatch.DirectoryNeverReplaced` | allow-require-me.js:172-176 | a real directory at the self-link path survives every run; when the lstat sees it, nothing there is unlinked or created |
| `Dispatch.RunAddTwice` | allow-require-me.js:124-136 | two `add` runs with the same outcomes leave the link as one run does |
| `Dispatch.RunRemoveTwice` | allow-require-me.js:138-140 | after a `remove` run that left the path absent, a second `remove` run leaves it absent, keeps the manifest and issues only the lstat |
| `Dispatch.InstallTwiceSavesOnce` | allow-require-me.js:95-116 | once `install` has saved the merged table, another `install` run neither writes nor changes the manifest |
| `SelfLinkTool.Tool.LstatSelfLink` | allow-require-me.js:68-72 | records the lstat call and returns the stat that `process_action` receives |
| `SelfLinkTool.Tool.Install` | allow-require-me.js:143-159 | the loaded table becomes the merged table; `changed` is raised iff the entry did not already hold the command |
| `SelfLinkTool.Tool.AddSelfLink` | allow-require-me.js:161-170 | issues the symlink call; the link becomes a symlink iff the call succeeds on an absent path |
| `SelfLinkTool.Tool.RemoveSelfLink` | allow-require-me.js:172-194 | state after the call is `Dispatch.AfterRemoveSelfLink`: refuse a directory, unlink anything else found, and chain into `add_self_link` only after a successful unlink or a missing link |
| `SelfLinkTool.Tool.ProcessAction` | allow-require-me.js:70-141 | state after the call is `Dispatch.AfterProcessAction`, including the write of the manifest only when `changed` is set |
| `SelfLinkTool.Tool.Run` | allow-require-me.js:43-68 | state after the whole run is `Dispatch.AfterRun` |

## Left out

- Real file-system semantics: `fs.lstat`, `fs.symlink`, `fs.unlink` and `fs.writeFile` become an abstract link state and per-call outcomes. Only two OS rules are kept: a symlink is created only where nothing exists, and unlink never removes a directory. A failed write is assumed to leave the manifest unchanged.
- Asynchronous scheduling: `fs.writeFile` runs concurrently with the link calls of the `add` fall-through. The model orders the write first, because the two touch different files.
- Loading and saving the manifest: `require(package_filename)` and `JSON.stringify(..., '  ')` are library serialisation. The manifest is only its script table. A missing `scripts` table reads as an empty one. Script values are assumed to be strings. A missing or unreadable `package.json` is not modelled; in the source it throws before any action.
- `Tool.Run` receives the package name as an input. It does not read the name from the manifest. A manifest without a `name` makes `path.join` throw; that case is not modelled.
- Scoped package names: the `Tool` and `Dispatch` model the self link as one abstract path, so it covers unscoped names only. For a scoped name `@scope/pkg` the source puts the link in `node_modules/@scope` (which must already exist), and its `..` target is then not the package root; see "## Findings".
- Process inputs: `process.argv`, `process.env.npm_config_save` and `process.cwd()` are plain inputs. `npm_config_save` is a boolean meaning "set to a non-empty string".
- Path normalisation: paths are segment sequences joined by `/`. `Paths.Resolve` drops empty and `.` segments and cancels `..` against an ordinary segment. The root of an absolute path and platform separators are not modelled.
- Log messages and the usage banner have no behaviour worth proving.
- The commented-out `install('preinstall', 'remove')` line is not part of the behaviour.

## Findings

| source | as written | input that shows it | evidently intended | confidence | as-written member | corrected member |
|---|---|---|---|---|---|---|
| allow-require-me.js:62-63 | the self link `node_modules/<name>` always targets `..` | package name `@scope/pkg`: the link is `node_modules/@scope/pkg`, and its target resolves to `<root>/node_modules` | the link resolves to the package root, so the package can `require('@scope/pkg')` itself | medium, not executed | `Config.ScopedSelfTargetMissesRoot` | `Config.SelfTargetForIsPackageRoot` |

The corrected target `Config.SelfTargetFor` is one `..` for each segment of the
name. For the unscoped names the rest of the model covers, it is exactly the
source's `..` (the ensures of `Config.SelfTargetFor`). So the `Tool` and
`Dispatch` models are the same under either definition.
