# A verified model of k3OS

k3OS installs, upgrades and configures itself with a handful of small protocols: versioned component
directories switched by symbolic links, a root file system moved into memory file by file, a marker
between an executable and the image appended to it, configuration gathered from many spellings, and a
shell script that takes a disk over. This project models them in Dafny and proves what they keep, for
every input, every interleaving and every point at which the machine can stop.

`dafny verify dfyconfig.toml` checks everything.

## How it is built

* **Upgrades** (`ComponentDir`, `CopyMachine`, `CopyLayout`, `CopySafety`, `CopyDrive`, `CopyRollback`,
  `CopyOutcome`, `CopyFaults`, `CopyClean`, `CopyComponent`, `UpgradeRun`, `UpgradeWorld`, `UpgradeAlone`). A component directory is a map from names to
  links, plain files and version directories, with the meaning of Go's `os` package on Linux; `os.Rename` in
  particular refuses a target that is a directory, empty or not. `CopyMachine` makes one call per step; an event says
  how the call turns out, and a list of events that ends early is a crash in which no deferred call runs.
  Copying is many steps, so partial copies exist. `CopyLayout` describes the directory at every step from
  the directory at the start and a record of what the run has done. `CopyComponent` and `UpgradeRun` are
  the imperative code, proved to be runs of that machine; `UpgradeWorld` interleaves any number of
  processes, and `UpgradeAlone` shows that one of them left alone does what `UpgradeRun` does.
* **Relocation** (`RootTree`, `Relocation`, `RelocationOutcome`). Three walks over a tree with devices, as
  methods that change two flat file maps call by call. How each call turns out is given from outside. Every
  state goes into a history, and the history is proved to be one of allowed calls, each keeping what must be kept.
* **Configuration** (`Cmdline`, `Accumulate`, `Keys`, `Renaming`, `Aliases`, `Normalise`, `Schemas`,
  `YamlKeys`). Loops that range over a map while changing it choose the next key freely and produce inserted keys or not, as
  The Go Programming Language Specification, section "For statements with range clause", allows.
* **Takeover** (`Takeover`, `TakeoverSafety`, `Listing`, `ModeDisk`). The script as a machine over a disk, with the words the
  shell makes of unquoted names in their order, and the power failing anywhere, within a removal too; `ModeDisk` is
  the imperative script, proved to make that machine's steps.
* **Environment file** (`Quoting`, `EnvFile`, `EnvFixpoint`, `Environment`), **marker scan** (`Marker`),
  **password prompt** (`MaskPassword`).

Vendored library code that these parts depend on (`values.GetValue`, `values.PutValue`,
`convert.ToYAMLKey`, the order of `mapper.Mappers`) is modelled as it is written, collisions included.

## What does not hold

Properties one would expect of this code and that turn out false are stated with a run that breaks them
and, where one exists, the condition under which they hold.

1. *A failing stat can cost the current version.* `CopyComponent` drops the error of the stat of the
   destination (`pkg/system/component.go:53`). If that stat fails while `current` already names the version
   to be installed, the version is moved aside, and a crash then leaves `current` dangling
   (`ExposedDangles`). `BlindCrashSafetyExactly` gives the exact condition; without a failing stat there is no
   exception (`CrashSafetySeeing`).
2. *Rolling back does not bring back a destination that was no version.* A file in its place has been removed, and
   what stood at `<name>.old` is gone if a link has been moved over it (`RollbackExactly`). A version always comes
   back.
3. *What earlier runs leave behind stops later ones for good.* A crash from the making of `current.tmp` to
   the switch leaves it behind, and then no run changes anything any more (`CrashLeavesLink`, `CrashBlocks`,
   `StaleLinkBlocks`). Reinstalling a version leaves `<name>.old` beside it, after which that version cannot be
   installed again (`ReinstallationSticks`, `StuckForGood`). `InstallableExactly` says which versions some run
   can install.
4. *The marker scan is not a string search.* A byte that breaks a match is not looked at again, so a marker
   after one underscore is missed (`UnderscoreHidesMarker`); `ScanIsComplete` says exactly when it is found.
5. *Keys that begin with `export` or `#` do not survive the environment file*, since `export` is cut off
   without looking for a word end (`RoundTripExactly`). Applying the same configuration again can therefore
   add an entry (`ExportedKeyGrows`); `ApplyAgainExactly` and `ApplyAgainPlainly` say exactly when it does not.
6. *The last walk of the relocation changes devices.* It skips mounts at the top only and hands everything
   else to `RemoveAll`, so a file system mounted deeper is emptied (`NestedMountEmptied`).
   `OthersKeptExactly` says when nothing on another device is deleted.
7. *Unquoted `rm -rf $i`* (`overlay/libexec/k3os/mode-disk:123`): a name with blanks survives, and a kept
   name among its words is deleted (`ClearedExactly`, `KeptNameLost`). If that is `k3os`, the markers go with it, and
   a power failure just then makes the next boot pass with the takeover unfinished (`CutShort`).
   `PassesFinishedExactly` says for every disk whether that can happen.
8. *The new version need not have the mode of the source's.* The copy sets it when it returns and drops the error
   (`vendor/github.com/otiai10/copy/copy.go:80`), and `CopyComponent` only logs that of its own `os.Chmod`
   (`pkg/system/component.go:107`). If both fail, the version keeps the mode 0700 of the temporary directory.
   `ModeOfCurrent` gives the two possible modes, `ChmodSets` and `CleanRun` the source's where the calls work.
9. *The documented map form of a kernel parameter* (`README.md:289`, `k3os.sysctl[kernel.printk]=...`) is
   never read as a map: brackets mean nothing, and keys are cut at every dot (`BracketsAreNoMap`,
   `DocumentedLine`). The code is what is modelled.

## Model

| member | source | states |
|---|---|---|
| CopyComponent.Destination.CopyComponent | pkg/system/component.go:48-127 | the call-by-call code with its three deferred clean-ups leaves the directory, and returns the result, of the step machine for the same outcome of every call, dying included |
| CopyComponent.Destination.RunDeferred | pkg/system/component.go:74-95 | the registered clean-ups run last one first, and a death in between leaves the rest undone |
| CopyComponent.Destination.ClearDestination | pkg/system/component.go:88-99 | an existing directory is renamed aside unless something it may not replace stands there, a file is removed, and which of the two decides whether the rename back is registered |
| CopyLayout.RunningStep | pkg/system/component.go:48-127 | after every step the directory is the first one with just the recorded changes: slot, version put aside or back, pointer, previous, temporary copy |
| CopySafety.CrashSafeRun | pkg/system/component.go:48-127 | after any events, cut off anywhere, `current` gives the complete old contents or the complete source, unless the stat of the destination fails in a run that `CopyOutcome.BlindCrashSafetyExactly` shows to be unsafe then |
| CopySafety.CrashSafety | pkg/system/component.go:48-127 | the same over any number of upgrades, each failing or cut off anywhere, with the same proviso |
| CopySafety.CrashSafetyFromHealthy | pkg/system/component.go:48-127 | the same with healthy component directories as sources: `current` gives what it gave at first or what `current` of some source gives |
| CopySafety.CrashSafetySeeing | pkg/system/component.go:48-127 | if no stat of the destination fails, that holds of all upgrades from healthy directories, with no further condition |
| CopySafety.SourceMeans | pkg/system/component.go:22-50 | what a directory offers as a source: the version its `current` link leads to, with the mode and the contents found there; it can be copied only if that is itself a directory |
| CopyOutcome.BlindCrashSafetyExactly | pkg/system/component.go:53-57 | with a stat of the destination that may fail, every run is crash safe if and only if it cannot move aside the version that `current` names |
| CopyOutcome.ExposedDangles | pkg/system/component.go:53-95 | an exposed directory has a run, cut off, after which `current` resolves to nothing |
| CopyDrive.FinishCopy | pkg/system/component.go:83-86 | from any partial copy some continuation completes it, so the copying steps can reach the source contents |
| CopyDrive.DriveToEnd | pkg/system/component.go:48-127 | a run that succeeds, for every version that nothing stands in the way of |
| CopyRollback.Rollback | pkg/system/component.go:69-104 | a run that ends before the version is in place, its clean-ups succeeding, restores the directory if the destination was a version or absent; what exactly is missing otherwise |
| CopyRollback.RollbackExactly | pkg/system/component.go:88-104 | for any destination: every rolled-back run restores the directory if and only if no run can remove a file there, or move a link there over another entry |
| CopyFaults.RollbackPlainly | pkg/system/component.go:88-104 | the same by what stands at the name, if that is no link: the directory is restored in every case unless it is a file and nothing keeps a run from getting there |
| CopyFaults.DecisiveFailure | pkg/system/component.go:60-124 | if remount, link, temporary directory, copy, move aside, rename into place or switch fails, the run reports an error whatever follows, and `current` is as it was |
| CopyFaults.PassedOverFailure | pkg/system/component.go:106-120 | a failing chmod, removal of `previous` or copy to it is passed over: the run can still succeed |
| CopyFaults.FailedCall | pkg/system/component.go:48-127 | a failing call changes nothing, and where the run goes from each |
| CopyFaults.CutInCopy | pkg/system/component.go:76-86 | a run cut off in the copy can leave any beginning of any file at its temporary name |
| CopyOutcome.StaleLinkRun | pkg/system/component.go:69-72 | a run that finds `current.tmp` changes nothing and is over within three calls |
| CopyOutcome.StaleLinkBlocks | pkg/system/component.go:69-74 | once it is left behind, no later run changes anything |
| CopyOutcome.CrashBlocks | pkg/system/component.go:69-74 | a run cut off after its first change leaves it behind, and with it every later run without effect |
| CopyOutcome.CrashLeavesLink | pkg/system/component.go:69-74 | a run leaves `current.tmp` behind if and only if it is cut off between making it and the switch, or it was there |
| CopyOutcome.InstallableExactly | pkg/system/component.go:69-126 | some run succeeds if and only if the source is no link to a link, `current.tmp` is absent, `current` is no directory, and for some free temporary name the stat of the destination finds nothing, a file, or a directory that can be moved aside; if that stat must not fail, if and only if the version is also not current yet |
| CopyOutcome.InstallablePlainly | pkg/system/component.go:69-126 | the same by looking at the directory, for a version whose name is no link: neither `current.tmp` nor a directory `current`, a free temporary name, and no `<name>.old` beside an existing version |
| CopyOutcome.StuckForGood | pkg/system/component.go:88-104 | a version with anything at `<name>.old` beside it is never replaced by any number of later runs |
| CopyOutcome.ReinstallationSticks | pkg/system/component.go:88-104 | one successful reinstallation of a version leads there |
| CopyOutcome.SuccessfulSwitch | pkg/system/component.go:88-126 | on success `current` names the version with exactly the source contents, empty ones included, and the mode of the source's or of a temporary directory; other versions are unchanged, the replaced copy is in `<name>.old`, `previous` is the old link if it was copied |
| CopyClean.ModeOfCurrent | pkg/system/component.go:81-107 | on success the version that `current` names has the contents and the mode of the source's; only if the copy could not set the mode may it be 0700 |
| CopyClean.ChmodSets | pkg/system/component.go:107 | if the chmod of the new version works, contents and mode are the source's from then on, whatever follows |
| CopyClean.CleanRun | pkg/system/component.go:48-127 | if every call works and nothing stands in the way, the directory is afterwards the old one with the replaced version at `<name>.old`, the old `current` at `previous`, and `current` naming the new version, entry for entry; or untouched if the version was current |
| CopyOutcome.RemountComesFirst | pkg/system/component.go:60-69 | a run that has work to do and is asked for it remounts before it changes anything, and fails with nothing changed if that fails |
| CopyOutcome.PreviousKeepsOldVersion | pkg/system/component.go:111-119 | the version that was current is untouched, and `previous` names it if its link was copied |
| CopyOutcome.Converged | pkg/system/component.go:53-57 | when the destination already stands at the source's version, a run whose stat of it does not fail changes nothing and ends at the first step, without an error and without having copied |
| CopyOutcome.ConvergedExactly | pkg/system/component.go:53-57 | if that stat may fail, every run leaves what is current alone if and only if the version cannot be moved aside |
| UpgradeRun.Upgrade.Run | pkg/cli/upgrade/upgrade.go:114-186 | checks, lock, the three components in order with the falling remount flag; fatal if and only if a check or the lock fails, killed if and only if a component's run is cut off, and otherwise over, sync and reboot asked for exactly if something was copied and the flag says so |
| UpgradeRun.Upgrade.Component | pkg/cli/upgrade/upgrade.go:135-142 | one component's block is one step of the specified list of calls |
| UpgradeRun.RunSpecMeans | pkg/cli/upgrade/upgrade.go:133-158 | the i-th call is one for the i-th component, with the remount asked for exactly if it was at first and none before copied anything |
| UpgradeRun.RunSpecEnds | pkg/cli/upgrade/upgrade.go:133-158 | every component is reached, errors notwithstanding, unless a call is cut off, which is then the last |
| UpgradeRun.ReturnsMean | pkg/system/component.go:25-127 | what each pair of results says of the directory: copied means current and complete, neither copied nor failed means it was current before, both never occur |
| UpgradeRun.NoRemountAfterCopy | pkg/cli/upgrade/upgrade.go:133-158 | no call after the first successful copy asks for a remount |
| UpgradeRun.UpgradesConverge | pkg/cli/upgrade/upgrade.go:133-185 | after a run in which every component succeeded, none of any number of later runs from the same sources copies anything or changes an entry, provided the stat of the destination does not fail |
| UpgradeWorld.ConcurrentCrashSafety | pkg/cli/upgrade/upgrade.go:122-158 | for every interleaving of any number of processes that step and die, at most one is past the lock and every component's `current` is complete, provided the stat with which a process begins a component does not fail where a single run would be unsafe |
| UpgradeWorld.SeeingIsProper | pkg/cli/upgrade/upgrade.go:122-158 | if no such stat fails, every interleaving meets that condition |
| UpgradeAlone.AloneAsRun | pkg/cli/upgrade/upgrade.go:122-158 | a process that finds the lock free and is left alone makes, among the processes, exactly the calls of `Upgrade.Run`, leaves the directories they leave and gives the lock back |
| UpgradeWorld.StepKeeps | pkg/cli/upgrade/upgrade.go:122-158 | the invariant behind it is kept by every step of every process |
| Relocation.Mover.CopyFS | pkg/transferroot/transferroot.go:50-211 | each state on the way is one system call after the one before; in each, every file is complete at its old or new path, and both roots together hold no more than there was, the part copied so far of one file that is open, and copies of files that cannot be removed; it succeeds exactly if no call whose failure counts fails, those of the walks included, and there is no socket or entry of unknown type; the new root then has every entry with its kind, the bytes of each file and the target of each link; removable files are gone, mounts at the top are untouched and of the rest, if every deletion works, just mount points and what leads to them is left |
| Relocation.Mover.MakeDirs | pkg/transferroot/transferroot.go:63-95 | the first walk makes exactly the directories it comes to, and no Mkdir lacks its parent |
| Relocation.Mover.MoveBelow | pkg/transferroot/transferroot.go:99-165 | the second walk moves everything below a directory, changes nothing else and removes only files of the root device |
| Relocation.Mover.MoveFile | pkg/transferroot/transferroot.go:115-135 | create, copy, close, remove: at each step the file is complete at one of its two paths |
| Relocation.Mover.CopyData | pkg/transferroot/transferroot.go:125-127 | pieces no larger than the buffer add up to the file |
| Relocation.Mover.RemoveAll | pkg/transferroot/transferroot.go:187-189 | if no removal fails for reasons of its own, it removes everything at and below a path but mount points and what leads to them; in any case nothing else |
| Relocation.Mover.DeleteRest | pkg/transferroot/transferroot.go:172-197 | the third walk leaves the new root and other mounts at the top as they are |
| Relocation.RemoveGood | pkg/transferroot/transferroot.go:125-135 | removing a file keeps conservation and the bound on bytes because its copy is complete |
| Relocation.WriteGood | pkg/transferroot/transferroot.go:125-127 | a piece written keeps both, the bound growing by the bytes written |
| Relocation.WritesAreSmall | pkg/transferroot/transferroot.go:119-127 | between two states in which the same file stays open, its copy has grown by 1 to 32768 bytes of the file and nothing else has changed |
| Relocation.ActGood | pkg/transferroot/transferroot.go:64-194 | every call the code can make keeps both |
| Relocation.MemoryBound | pkg/transferroot/transferroot.go:23-26 | in every state the two roots hold at most what there was, the largest file while one is open, and the files left behind, of which there are none if every file can be removed |
| RelocationOutcome.AgreesMeans | pkg/transferroot/transferroot.go:63-163 | the new root in terms of the old tree alone: entries with all directories above on the root device, directories as directories, files with their bytes, links with their targets, pipes as pipes, mount points present and empty |
| RelocationOutcome.DeletedExactly | pkg/transferroot/transferroot.go:171-197 | what the third walk leaves, no removal failing, is just the mounts at the top if and only if no mount lies deeper |
| RelocationOutcome.OthersKeptExactly | pkg/transferroot/transferroot.go:181-189 | it deletes nothing that lies on another file system if and only if every mount below a directory at the top holds only mount points and what leads to them |
| RelocationOutcome.NestedMountEmptied | pkg/transferroot/transferroot.go:182-189 | a file in a file system mounted below a directory is gone afterwards |
| RootTree.ReachExactly | pkg/transferroot/transferroot.go:87-107 | a walk comes to an entry exactly if every directory above it is on the root device |
| RootTree.TotalPut | pkg/transferroot/transferroot.go:23-26 | how one change changes the bytes held, whatever the order of adding them up |
| RootTree.TotalMeans | pkg/transferroot/transferroot.go:23-26 | a new file counts with its length and everything else with nothing |
| Cmdline.TokenIsPreferred | pkg/config/read.go:158 | a token is the match the pattern prefers, alternatives in order and repetition greedy |
| Cmdline.TokensOneByOne | pkg/config/read.go:158-170 | the tokens of a text are the one after its first white space and those of what follows it |
| Cmdline.ParseTokenMeans | pkg/config/read.go:171-176 | the key ends at the first `=`, both sides lose their quotes, and without `=` the value is `true` |
| Cmdline.TrimQuotesMeans | pkg/config/read.go:172-176 | what is cut off on each side are the quotes there, all of them and nothing else |
| Cmdline.QuotedWhole | pkg/config/read.go:158-176 | `"key=a b"`, quoted as a whole, is one token and gives the key and the value without quotes |
| Cmdline.CmdlineRoundTrip | pkg/config/read.go:158-177 | settings written in the documented form are read back in order, for any white space between them |
| Accumulate.ReadCmdline | pkg/config/read.go:170-189 | the nested map holds, at every path, the values that count there in the order they came, a map, or nothing |
| Accumulate.GetPut | vendor/github.com/rancher/mapper/values/values.go:21-58 | what a lookup finds after a store, for every pair of paths and every data |
| Accumulate.HoldsAdd | pkg/config/read.go:177-188 | one token joins the settings that count or, when shut out by an earlier one, changes nothing |
| Accumulate.PrefixFreeKeepsAll | pkg/config/read.go:177-188 | if no key is a strict part of another, every setting counts |
| Accumulate.LeftOutOnlyForOneKept | vendor/github.com/rancher/mapper/values/values.go:42-50 | a setting is lost only to one that counts and whose key is a part of its own, or the reverse |
| Accumulate.KeptAppend | pkg/config/read.go:177-188 | one more setting counts if and only if its key is no strict part of one that counts, nor the reverse |
| Accumulate.FoundInOrder | pkg/config/read.go:177-188 | one value at a key is found as text, several as a list in the order they came, among any other settings |
| Accumulate.SplitJoin | pkg/config/read.go:177 | splitting a key at its dots loses nothing |
| Accumulate.BracketsAreNoMap | pkg/config/read.go:177 | for a single setting `a[b]=v` nothing is found at the parts of `a` followed by `b`, and `v` is found at the parts of the whole key |
| Accumulate.DocumentedLine | pkg/config/read.go:158-189 | what the documented command line is read as: nothing at `kernel.printk` under `sysctl` |
| Accumulate.CmdlineEndToEnd | pkg/config/read.go:156-192 | from the documented text to the data: every setting is found at its key, if no key is a strict part of another |
| Keys.YamlKeyIdempotent | vendor/github.com/rancher/mapper/convert/convert.go:252-278 | a key in YAML form has no capitals and is its own YAML form |
| Keys.YamlOfCamel | vendor/github.com/rancher/mapper/convert/convert.go:252-278 | a key of small first word and capitalised words gets an underscore before each of them and small letters: `sshAuthorizedKeys` becomes `ssh_authorized_keys` |
| Keys.YamlOfCapitals | vendor/github.com/rancher/mapper/convert/convert.go:252-278 | capitals a key begins with only become small; underscores come before the words after them |
| Normalise.FuzzyNames.AddName | pkg/config/rename.go:25-29 | the three spellings of a name lead to the field |
| Normalise.FuzzyNames.ModifySchema | pkg/config/rename.go:31-48 | the table built in the order the fields were produced, `pass` and `password` leading to `passphrase` in the end |
| Normalise.FuzzyNames.ToInternal | pkg/config/rename.go:16-23 | the data after a run of the range loop that the language allows |
| Renaming.TableOrderExactly | pkg/config/rename.go:31-48 | every order of the fields gives the same table if and only if no two share an alias |
| Renaming.RenamingOrderExactly | pkg/config/rename.go:16-23 | every run of the loop gives the same map if and only if spellings of one field that occur together have the same value |
| Renaming.RenamedMeans | pkg/config/rename.go:16-23 | what the renamed map holds: the value of a spelling if one occurs, else the field's own |
| Aliases.AliasAt | pkg/config/rename.go:25-41 | an alias keeps the beginning of its field, but for case |
| Aliases.AliasesExactly | pkg/config/rename.go:25-41 | the aliases of a field are the small and the YAML form of its name and of its name without an ending `s` or `es`, and no others |
| Normalise.TypeConverter.ModifySchema | pkg/config/coerce.go:37-47 | one field converter for every field of the type |
| Normalise.TypeConverter.ToInternal | pkg/config/coerce.go:17-35 | exactly those fields are converted, once in effect, from the last converter to the first |
| Normalise.TypeConverter.Converter | pkg/config/coerce.go:56-85 | a boolean field turns the text `true` into true and every other text into false, an array field a text into a list of it, a map field a map into the texts of its values key by key; everything else stays |
| Normalise.Mappers.ToInternal | vendor/github.com/rancher/mapper/mapper.go:22-28 | renaming before converting; in a tidy schema and unambiguous data the result is one function of the data |
| Normalise.NormalMeans | pkg/config/coerce.go:17-24 | a field holds what its spelling's value, or else its own, becomes by those rules; a spelling keeps its raw value |
| Normalise.NormalTwice | pkg/config/coerce.go:17-85 | normalising twice is normalising once |
| Normalise.TidyTable | pkg/config/rename.go:34-45 | in a tidy schema nothing is renamed twice and no alias is a converted field |
| Schemas.OwnSchemasTidy | pkg/config/config.go:9-59 | the schemas of `K3OS`, `CloudConfig`, `Install`, `File` and `Wifi` are tidy |
| Schemas.ApartTidy | pkg/config/rename.go:31-48 | a schema is tidy if a letter tells each two fields apart and none but `passphrase` has it for an alias |
| YamlKeys.ToYAMLKeys | pkg/config/write.go:41-52 | for every order of visits and every choice about inserted keys the result is the recursive renaming, for any idempotent key function that is injective on each map |
| YamlKeys.RewriteKeys | pkg/config/write.go:41-52 | the same for the key function of the program |
| YamlKeys.RenamedTwice | pkg/config/write.go:41-52 | renaming a second time changes nothing |
| YamlKeys.RenamedMeans | pkg/config/write.go:41-52 | the renamed map holds, under the new name of each key and under no other, its renamed value; what is no map stays |
| YamlKeys.Advance | pkg/config/write.go:42-51 | what one visit does to the state of the loop, for a first and for a repeated visit |
| Quoting.QuoteRoundTrip | pkg/cc/funcs.go:295-311 | unquoting a quoted string gives it back |
| Quoting.UnquotePlain | pkg/cc/funcs.go:295 | text between quotes with nothing to escape is what the quotes hold; with a quote or a line end inside it is no such literal |
| Quoting.QuotePlain | pkg/cc/funcs.go:311 | plain printable text is only put in quotes |
| Quoting.QuoteControl | pkg/cc/funcs.go:311 | the escape of each character below the space, of the quote and of the backslash |
| Quoting.QuoteWide | pkg/cc/funcs.go:311 | above ASCII a printable character stays, another becomes an escape of four or eight digits with its value |
| EnvFile.RoundTripExactly | pkg/cc/funcs.go:282-311 | reading what was written gives the same map, in whatever order, if and only if every key is well formed and every line fits the scanner |
| EnvFile.ParsePrinted | pkg/cc/funcs.go:284-299 | what the line of a key without `=`, line end or leading space is read back as |
| EnvFile.ParseBare | pkg/cc/funcs.go:284-299 | `KEY=value` without quotes, with blanks around it, is read as just that |
| EnvFile.ParseExported | pkg/cc/funcs.go:287-299 | the same line after `export` is read as the same entry |
| EnvFile.ParseComment | pkg/cc/funcs.go:284-287 | a line whose first character is `#` gives nothing |
| EnvFile.ParseWord | pkg/cc/funcs.go:289-299 | a word alone is a key with an empty value, a letter alone nothing |
| EnvFile.LineLimit | pkg/cc/funcs.go:282-299 | a line of up to 65535 bytes is read and the reading goes on after it; a longer one ends it |
| EnvFile.BytesMean | pkg/cc/funcs.go:282 | how many bytes a character takes on a line |
| EnvFixpoint.PrintGather | pkg/cc/funcs.go:282-311 | what any printed list is read back as: the sum of what its entries give, up to one that stops the scanner |
| EnvFixpoint.SameAgainExactly | pkg/cc/funcs.go:282-311 | entries written in any order and read back under the same configuration are the same if and only if no entry adds a key and every key the configuration does not set is read back with its value |
| Environment.Host.ApplyEnvironment | pkg/cc/funcs.go:276-319 | the file after the call, for every outcome of reading and writing it |
| Environment.AppliedMeans | pkg/cc/funcs.go:276-319 | if all entries survive, the file holds afterwards the configuration's value for each of its keys, the old value for each other key of the file, and no further key |
| Environment.ApplyAgainExactly | pkg/cc/funcs.go:276-319 | applying the same configuration again gives the same entries for every order if and only if that condition holds |
| Environment.ApplyAgainPlainly | pkg/cc/funcs.go:276-319 | the same for keys that a line can carry, in terms of the key each is read back with, the length of its line, and whether the configuration sets it |
| Environment.OneEntryExactly | pkg/cc/funcs.go:285-288 | for one entry on a fresh system: if and only if its key does not begin with `export`, or its line is too long |
| Environment.ApplyAgain | pkg/cc/apply.go:27-71 | entries that all survive being written and read stay the same |
| Environment.Boot | pkg/cc/apply.go:27-71 | under that condition the three boot phases end with the entries of the first |
| Environment.ExportedKeyGrows | pkg/cc/funcs.go:288 | a key that begins with `export` comes back without it, beside itself |
| Marker.InFile | pkg/enterchroot/enter.go:170-205 | the offset returned is the end of the first occurrence the automaton hits, for every division into reads |
| Marker.AfterMeans | pkg/enterchroot/enter.go:191-201 | the state of the automaton in terms of the blocks of marker prefixes at the end of the text |
| Marker.OccursMeans | pkg/enterchroot/enter.go:24-178 | an occurrence of the marker is the nine characters `_sqmagic_` |
| Marker.ScanIsSound | pkg/enterchroot/enter.go:191-201 | the answer is unique and ends an occurrence of the marker |
| Marker.ScanIsComplete | pkg/enterchroot/enter.go:191-201 | the first occurrence is found if and only if an even number of marker prefixes stands before it |
| Marker.PackagedImage | images/30-bin/Dockerfile:16-17 | for executable, marker and image the scan returns the start of the image under that condition |
| Marker.UnderscoreHidesMarker | pkg/enterchroot/enter.go:198 | a marker after one underscore is missed |
| TakeoverSafety.PassesFinishedExactly | overlay/libexec/k3os/mode-disk:77-160 | over any number of boots, each cut anywhere, the first that passes line 160 finds takeover and reset done: for every disk, if and only if nothing else is left to do when a name with blanks makes line 123 delete the markers, or, with no takeover to do, nothing is left at all |
| Listing.PassesInOrder | overlay/libexec/k3os/mode-disk:77-160 | the same for a shell that lists names by their characters, with nothing assumed of the listing |
| Listing.Listable | overlay/libexec/k3os/mode-disk:118 | every set of names can be listed in that order, which never puts two names both ways |
| Listing.EarlierMeans | overlay/libexec/k3os/mode-disk:118 | a name comes before those that it begins, and otherwise the first character in which two differ decides |
| TakeoverSafety.SparesExactly | overlay/libexec/k3os/mode-disk:118-125 | that condition on the disk is the condition on the list of words the shell makes of its names, in their order |
| TakeoverSafety.CutShort | overlay/libexec/k3os/mode-disk:108-160 | otherwise a boot cut in the loop after some number of words, and a next boot that passes with the takeover unfinished |
| TakeoverSafety.StepKeeps | overlay/libexec/k3os/mode-disk:77-160 | the invariant behind it is kept by every step and every power failure |
| Takeover.CutInRemoval | overlay/libexec/k3os/mode-disk:123 | the power can fail with one piece of the name being removed gone and the rest still there |
| TakeoverSafety.PassesLeaves | overlay/libexec/k3os/mode-disk:118-125 | what is left then beside the kept names are exactly the names with blanks |
| TakeoverSafety.NoTakerIsSafe | overlay/libexec/k3os/mode-disk:118-125 | a disk to be taken over is safe if no name that is to go has `k3os` for a word |
| ModeDisk.Machine.Boots | overlay/libexec/k3os/mode-disk:77-160 | any number of boots are a run of the machine; from a safe disk the first that passes ends well |
| ModeDisk.Machine.TakeOver | overlay/libexec/k3os/mode-disk:106-146 | what an uncut takeover makes of any disk, and that a cut one leaves the machine at a new boot |
| ModeDisk.TakenMeans | overlay/libexec/k3os/mode-disk:106-146 | what is left of any disk, name by name and marker by marker, in terms of the words removed |
| ModeDisk.TakenPlainly | overlay/libexec/k3os/mode-disk:106-146 | of a disk without names with blanks: `boot`, `k3os` and a `sbin` that is no link at the top, `init`, `k3s` and `k3os` in it, and exactly the names of `boot` that begin with `g` |
| ModeDisk.FinishedMeans | overlay/libexec/k3os/mode-disk:106-160 | what a finished disk is, with the names, the letter and the markers written out |
| ModeDisk.Machine.ClearTop | overlay/libexec/k3os/mode-disk:118-125 | the loop removes the words of the names that are to go, in the order of the listing; a cut leaves a number of them removed and the next one removed in part |
| ModeDisk.Machine.FactoryReset | overlay/libexec/k3os/mode-disk:158-160 | the tail ends with no data and no marker, or is cut and the machine at a new boot |
| Takeover.ClearedExactly | overlay/libexec/k3os/mode-disk:118-125 | just the kept names are left if and only if no name has blanks |
| Takeover.ClearedPlainly | overlay/libexec/k3os/mode-disk:118-125 | of names without blanks exactly `boot`, `k3os` and `sbin` stay |
| Takeover.WordsSplit | overlay/libexec/k3os/mode-disk:123 | a blank, a tab or a line end divides the words of a name |
| Takeover.KeptNameLost | overlay/libexec/k3os/mode-disk:123 | a name with blanks can take a kept name with it |
| MaskPassword.MaskPassword | pkg/util/prompt.go:48-74 | success exactly if a line end comes among the first 513 bytes with no interrupt or error before it; the result is that of a stack editor and as long as the masks shown |
| MaskPassword.EditKeepsSurvivors | pkg/util/prompt.go:53-69 | the bytes kept are exactly those never erased, in order |
| MaskPassword.EditMeans | pkg/util/prompt.go:53-69 | bytes 8 and 127 take the last byte away, 0 does nothing, every other one is added |
| MaskPassword.EndsAtMeans | pkg/util/prompt.go:48-74 | a reading ends at the first byte 10 or 13 among the first 513, with no failed or empty read and no byte 3 before it |

## Left out

* CopySafety.CrashSafety: file contents reach the disk in the order of the calls; `fsync` and lost power are not modelled.
* ComponentDir.Rename: the look that `os.Rename` takes at its target does not fail, and nothing comes between it and the system call. The Go library is not part of this model.
* CopySafety.CrashSafeRun: a `current` that is a link to another link is not followed further by what counts as complete.
* CopyOutcome.Converged: a stat of the destination that fails; `CopyOutcome.ConvergedExactly` is about that.
* UpgradeWorld.ConcurrentCrashSafety: processes share one destination and one lock file; a process writing to the same destination under another lock is not modelled.
* Copying a `current` that is no link to `previous` is one step with an arbitrary result.
* Modes and owners beyond the mode bits that Chmod sets, and times.
* Relocation.Mover.CopyFS: metadata and modes of copies are not modelled; a device node becomes an entry of a kind of its own, since line 145 passes Go's mode bits to Mknod; hard links are separate files, as the source says; a mount is told by its device number, so a bind mount within one device is a plain directory.
* Relocation.Mover.RemoveAll: entries that appear in the old root while the walks run.
* Normalise.Mappers.ToInternal: one level of a schema; the descent into the schemas of fields is that of the library. Two keys that share one nested map in memory are separate values here.
* Keys.YamlKeyIdempotent: letters beyond ASCII have no case.
* Renaming.RenamingOrderExactly: tables in which what a key is renamed to is itself renamed; `Normalise.TidyTable` shows that the program's own tables are none of them.
* YamlKeys.RewriteKeys: two keys of one map that get the same new name; the outcome then depends on the order.
* `mapToEnv` and `merge2.UpdateMerge`: the first only concatenates, the second is a library.
* Accumulate.ReadCmdline: a missing or unreadable `/proc/cmdline`.
* EnvFile.ParsePrinted: keys with `=`, a line end or leading space; `EnvFixpoint.PrintGather` says what any keys are read back as.
* EnvFile.RoundTripExactly: text that is no valid UTF-8; literals in other quotes, octal escapes and malformed ones are an arbitrary function.
* ModeDisk.Machine.Boots: names with characters the shell expands or that begin with a dash; removals that fail; `growpart`, the kernel file system image and the choice of the k3os and k3s versions.
* Mounting, pivot_root, chroot and exec, the boot mode scripts, installation and its questions, key fetching, host name, sysctl and modules: effects outside the program or short rules with one reading.
