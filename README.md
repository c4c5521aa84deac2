# MacUninstaller discovery and removal engine, in Dafny

MacUninstaller removes an application and what it leaves behind in the user's
Library folder. The user drops an application bundle on the window. The scanner
(`AppScanner`) then:

- checks that the item is an `.app` bundle and reads its identity: bundle identifier, name, icon and on-disk size;
- lists eleven fixed folders under `~/Library`;
- keeps every entry whose name contains the identifier or the name, ignoring case, and sizes it recursively.

The workflow controller (`AppCleanerViewModel`) shows the findings. The user reviews them, grouped by category, with selection toggles and a running total. The selected paths go to the trash in one batch. The permission gate (`PermissionManager`) probes read access to the Library. It persists a security-scoped bookmark for a folder the user picks, and opens an access scope from that bookmark around every scan and around every deletion that has something to delete.

The model has six modules:

- `Wrappers`: `Option`.
- `Text`: the string operations the scanner uses:
  - case folding;
  - `contains`;
  - `replacingOccurrences(of:with:)`;
  - the file name's extension and stem.
- `FileSystem`: the disk as one immutable tree of entries. Existence, readability, a shallow listing and the hidden-skipping recursive enumerator are functions of that tree.
- `Permission`: the gate, in two layers:
  - pure functions over the persisted defaults and the multiset of open access scopes;
  - a `PermissionManager` class whose methods update those fields and are proved equal to the functions.
- `AppModels`: the records, target resolution, size accounting, related-file matching and removal. `findRelatedFiles` and `calculateDirectorySize` are methods with loops, proved against recursive specification functions.
- `AppViewModel`: the controller as a class, with the state machine, the list of entries and the confirmation flag. Its aggregates are functions, with lemmas about toggling, bulk selection and grouping.

The model has the following external inputs:

- **System services** come in as parameters:
  - bundle metadata is a `BundleInfo` value;
  - bookmark minting, bookmark resolution and starting a scope are the fields of an `Os` value;
  - the trash is a function from the batch of paths to an optional error message;
  - the disk is a `Node` tree.
- **Paths** are sequences of components below `/`. `PathString` spells them as `URL.path` does.
- **Identities.** Each entry's `UUID` is a natural number. A scan starting at `idBase` numbers its entries `idBase`, `idBase + 1`, and so on.

## Model

| member | source | states |
|---|---|---|
| Text.Lower | MacUninstaller/AppModels.swift:170 | `lowercased()`: one character out per character in, ASCII capitals folded (see `LowerPreservesContains`) |
| Text.Contains | MacUninstaller/AppModels.swift:183-186 | the substring relation `contains` is built on; characterised by `ContainsIffOccursAt` |
| Text.StringContains | MacUninstaller/AppModels.swift:183-186 | `contains` as Foundation's `range(of:)` answers it: an occurrence of a non-empty needle; the empty string is found nowhere |
| Text.LowerPreservesStringContains | MacUninstaller/AppModels.swift:183-186 | a case-sensitive match is still a match after folding both sides |
| Text.ContainsIffOccursAt | MacUninstaller/AppModels.swift:183-186 | `contains` holds exactly when the needle occurs at some offset of the haystack |
| Text.LowerPreservesContains | MacUninstaller/AppModels.swift:183-186 | a case-sensitive occurrence is also an occurrence after case folding both strings |
| Text.ReplaceAll | MacUninstaller/AppModels.swift:42 | `replacingOccurrences(of:with:)`, left to right and non-overlapping, an empty pattern changing nothing (see the two lemmas below) |
| Text.ReplaceAllWithoutOccurrence | MacUninstaller/AppModels.swift:41-43 | replacing a pattern that does not occur returns the string unchanged |
| Text.ReplaceAllLeading | MacUninstaller/AppModels.swift:41-43 | a leading occurrence of a non-empty pattern becomes the replacement, and the rest is processed after it |
| Text.PathExtension | MacUninstaller/AppModels.swift:99 | `pathExtension`: what follows the last dot, none when the only dot leads the name (see `StemAndExtension`) |
| Text.DeletingPathExtension | MacUninstaller/AppModels.swift:102-103 | `deletingPathExtension().lastPathComponent`: the name up to the last dot (see `StemAndExtension`) |
| Text.StemAndExtension | MacUninstaller/AppModels.swift:99-103 | a name with an extension is a non-empty stem, a dot and a dot-free extension, which rejoin to the name |
| FileSystem.ContentsOfDirectory | MacUninstaller/AppModels.swift:177 | the listing exists exactly when the path names a readable directory; otherwise the call throws |
| FileSystem.Enumerate | MacUninstaller/AppModels.swift:209-213 | the enumerator: visible descendants in pre-order, never the root (see `EnumerateYieldsVisible`, `EnumerationAddsUp`) |
| FileSystem.EnumerateYieldsVisible | MacUninstaller/AppModels.swift:209-213 | the enumerator with `skipsHiddenFiles` never yields a hidden entry |
| Permission.TestPaths | MacUninstaller/PermissionManager.swift:28-32 | three probe paths, each one component directly below the Library folder |
| Permission.SavedDefaults | MacUninstaller/PermissionManager.swift:73-84 | saving stores the new data under the one fixed key and keeps every other key; a failed mint changes nothing |
| Permission.Restored | MacUninstaller/PermissionManager.swift:86-109 | a URL results exactly when the key is present and its data resolves; a stale bookmark is re-saved for the resolved URL; otherwise the store is unchanged |
| Permission.StartAccess | MacUninstaller/PermissionManager.swift:111-114 | false without a restorable bookmark; otherwise what starting the URL's scope reports; a started scope is recorded as open |
| Permission.StopAccess | MacUninstaller/PermissionManager.swift:116-119 | the bookmark is restored again, and the scope of the URL it resolves to now is closed |
| Permission.ScopedAccess | MacUninstaller/AppModels.swift:139-144 | start the scope, and stop it afterwards only if starting succeeded (see the three lemmas below) |
| Permission.ScopedAccessWithoutBookmark | MacUninstaller/AppModels.swift:139-144 | with no stored bookmark, the start/stop bracket changes neither the store nor the scopes |
| Permission.ScopedAccessBalanced | MacUninstaller/AppModels.swift:139-144 | with a bookmark that resolves and is not stale, the bracket closes exactly the scope it opened |
| Permission.ScopedAccessStaleLeak | MacUninstaller/PermissionManager.swift:100-119 | a stale bookmark re-minted to resolve elsewhere leaves the opened scope open one extra time |
| Permission.PermissionManager.constructor | MacUninstaller/PermissionManager.swift:18-24 | status undetermined, Library path is home plus `Library`, store as persisted, no scope open |
| Permission.PermissionManager.CheckLibraryAccess | MacUninstaller/PermissionManager.swift:27-43 | granted exactly when all three probe paths are readable, denied otherwise, never undetermined; the published status equals the result |
| Permission.PermissionManager.CompleteAccessRequest | MacUninstaller/PermissionManager.swift:55-67 | granted exactly when the panel says OK and a folder was chosen, in which case a bookmark is saved for it; otherwise denied with the store untouched |
| Permission.PermissionManager.SaveBookmark | MacUninstaller/PermissionManager.swift:73-84 | the store becomes `SavedDefaults` of the old store |
| Permission.PermissionManager.RestoreBookmark | MacUninstaller/PermissionManager.swift:86-109 | the URL returned and the new store are `Restored` of the old store |
| Permission.PermissionManager.StartAccessingSecurityScopedResource | MacUninstaller/PermissionManager.swift:111-114 | result and new state are `StartAccess` of the old state |
| Permission.PermissionManager.StopAccessingSecurityScopedResource | MacUninstaller/PermissionManager.swift:116-119 | the new state is `StopAccess` of the old state |
| AppModels.FileName | MacUninstaller/AppModels.swift:37-39 | the last component of the entry's path |
| AppModels.RelativePath | MacUninstaller/AppModels.swift:41-43 | the path string with every occurrence of the home folder's path spelled `~` (see `RelativePathBelowHome`) |
| AppModels.RelativePathBelowHome | MacUninstaller/AppModels.swift:41-43 | an entry under the home folder is displayed as `~` followed by the rest of its path |
| AppModels.IconResourceName | MacUninstaller/AppModels.swift:108-112 | `CFBundleIconFile` with `.icns` appended when missing, then every `.icns` removed (see the two lemmas below) |
| AppModels.IconFileSpellings | MacUninstaller/AppModels.swift:107-112 | an icon file named with or without `.icns` looks up the same resource |
| AppModels.IconResourceNameOfPlainName | MacUninstaller/AppModels.swift:107-112 | for a dot-free icon name, the resource looked up is that name, with or without the extension written |
| AppModels.AppIcon | MacUninstaller/AppModels.swift:105-119 | the bundle's icon, under the resource name derived from `CFBundleIconFile`, exactly when that resource loads; otherwise the system icon for the bundle's own path |
| AppModels.DirectorySize | MacUninstaller/AppModels.swift:205-229 | 0 when nothing is at the URL or it is not a directory |
| AppModels.EnumerationAddsUp | MacUninstaller/AppModels.swift:209-226 | summing the readable files the enumerator yields gives the tree's byte count |
| AppModels.EnumerationAllAddsUp | MacUninstaller/AppModels.swift:209-226 | the same for a list of sibling entries, in enumeration order |
| AppModels.HiddenEntryIgnored | MacUninstaller/AppModels.swift:212 | adding a hidden entry, with whatever it contains, does not change a directory's size |
| AppModels.CalculateDirectorySize | MacUninstaller/AppModels.swift:205-229 | the loop over the enumerator returns exactly `DirectorySize` of the entry |
| AppModels.GetAppInfo | MacUninstaller/AppModels.swift:98-131 | nothing exactly when the extension is not `app`; otherwise the URL as path, the recursive size, the icon `AppIcon` picks, and identifier and name each taken from the bundle when present and from the file name without its extension otherwise |
| AppModels.MetadataFallback | MacUninstaller/AppModels.swift:102-103 | when the bundle is missing or has neither key, identifier and name are the same non-empty stem, which with `.app` is the file name |
| AppModels.SearchPaths | MacUninstaller/AppModels.swift:154-166 | eleven roots, each strictly below `~/Library`, none in the application category |
| AppModels.ItemMatches | MacUninstaller/AppModels.swift:180-186 | the four-way relatedness test on one listed name (see `MatchIsCaseInsensitive`) |
| AppModels.MatchIsCaseInsensitive | MacUninstaller/AppModels.swift:180-186 | the four-way test is exactly case-insensitive containment of identifier or name |
| AppModels.HelperIdentifierMatches | MacUninstaller/AppModels.swift:183-186 | a helper whose identifier extends the application's matches as well |
| AppModels.EmptyIdentifierIgnored | MacUninstaller/AppModels.swift:183-186 | an empty identifier matches no name, so only the application name can select one |
| AppModels.ChildHits | MacUninstaller/AppModels.swift:179-195 | every match is a listed child of the root that passes the test, has the root's category and its own recursive size |
| AppModels.ChildHitsComplete | MacUninstaller/AppModels.swift:179-195 | every listed child that passes the test is among the matches |
| AppModels.RootHits | MacUninstaller/AppModels.swift:172-199 | a root that is missing, unreadable or cannot be listed contributes nothing |
| AppModels.TableHitsAppend | MacUninstaller/AppModels.swift:172-200 | matches come out root by root, in table order |
| AppModels.TableHitsSound | MacUninstaller/AppModels.swift:172-200 | every match was found under some listable root of the table |
| AppModels.TableHitsComplete | MacUninstaller/AppModels.swift:172-200 | every matching child of every listable root is found |
| AppModels.RelatedFiles | MacUninstaller/AppModels.swift:133-203 | the scan's result: the bundle's entry, then each root's matches, stamped selected with consecutive identities (see the three lemmas below) |
| AppModels.RelatedFilesShape | MacUninstaller/AppModels.swift:133-203 | the bundle is the first entry and the only one in the application category; all entries are selected, with consecutive identities |
| AppModels.RelatedFileOrigin | MacUninstaller/AppModels.swift:172-195 | every later entry sits directly under a searched root, in its category, and its name matches |
| AppModels.RelatedFileFound | MacUninstaller/AppModels.swift:172-195 | every matching child of a listable searched root appears, with its recursive size and the root's category |
| AppModels.FindRelatedFiles | MacUninstaller/AppModels.swift:133-203 | returns exactly `RelatedFiles`, and the permission state afterwards is the start/stop bracket applied to the state before |
| AppModels.AppendRootMatches | MacUninstaller/AppModels.swift:172-199 | one root's turn appends exactly that root's matches, numbered on from the entries already there; a missing, unreadable or unlistable root appends nothing |
| AppModels.AppendChildMatches | MacUninstaller/AppModels.swift:179-195 | the loop over a listing appends exactly the matching names' entries, in listing order |
| AppModels.SelectedPaths | MacUninstaller/AppModels.swift:232-233 | the batch never holds more paths than there are entries |
| AppModels.SelectedPathsAppend | MacUninstaller/AppModels.swift:232-233 | the batch keeps the list's order |
| AppModels.SelectedPathsMembers | MacUninstaller/AppModels.swift:232-233 | a path is in the batch exactly when a selected entry has it |
| AppModels.DeleteFiles | MacUninstaller/AppModels.swift:231-254 | the batch is the selected paths; an empty batch succeeds with no scope opened; otherwise the deletion runs inside the bracket and the trash's error is the outcome |
| AppViewModel.TotalSize | MacUninstaller/AppViewModel.swift:31-33 | the selected bytes never exceed the bytes of all entries |
| AppViewModel.SelectedCount | MacUninstaller/AppViewModel.swift:39-41 | the count never exceeds the list's length, and a count of zero means a total of zero |
| AppViewModel.BatchMatchesSelection | MacUninstaller/AppViewModel.swift:39-41 | the selected count equals the number of paths sent to the trash |
| AppViewModel.WithSelection | MacUninstaller/AppViewModel.swift:90-100 | every flag set to the given value, every other field kept (see the two lemmas below) |
| AppViewModel.AllSelectedTotals | MacUninstaller/AppViewModel.swift:90-94 | after selecting everything, the count is the list's length and the total is all entries' bytes |
| AppViewModel.NoneSelectedTotals | MacUninstaller/AppViewModel.swift:96-100 | after deselecting everything, count and total are zero |
| AppViewModel.FirstIndexOf | MacUninstaller/AppViewModel.swift:85 | the first position holding the identity, or none when no entry has it |
| AppViewModel.Toggled | MacUninstaller/AppViewModel.swift:84-88 | same length; only selection flags may change, and only at the first position holding the identity |
| AppViewModel.ToggleFlipsClickedEntry | MacUninstaller/AppViewModel.swift:84-88 | with distinct identities, toggling by an entry's identity flips that entry and leaves every other one as it was |
| AppViewModel.ToggleTwice | MacUninstaller/AppViewModel.swift:84-88 | toggling the same entry twice restores the list |
| AppViewModel.ToggleTotals | MacUninstaller/AppViewModel.swift:84-88 | a toggle moves the count by one and the total by that entry's size, in the direction of its new flag; an unknown entry changes nothing |
| AppViewModel.OfCategory | MacUninstaller/AppViewModel.swift:43-45 | a group holds only entries of the list with that category, and is empty exactly when no entry has it |
| AppViewModel.OfCategoryAppend | MacUninstaller/AppViewModel.swift:43-45 | grouping keeps the list's order within each group |
| AppViewModel.GroupedFiles | MacUninstaller/AppViewModel.swift:43-45 | one key per category present, no empty group, and each group's entries have its key |
| AppViewModel.EveryCategoryListed | MacUninstaller/AppModels.swift:48-50 | every category is one of the nine enumerated cases |
| AppViewModel.GroupsPartition | MacUninstaller/AppViewModel.swift:43-45 | taken together, the groups hold each entry exactly as many times as the list does |
| AppViewModel.ScanIsConsistent | MacUninstaller/AppViewModel.swift:78-79 | a finished scan satisfies the controller's invariant: distinct identities, the bundle first, no later application entry |
| AppViewModel.AppCleanerViewModel.constructor | MacUninstaller/AppViewModel.swift:24-29 | idle, with nothing loaded and no confirmation pending |
| AppViewModel.AppCleanerViewModel.ProcessApp | MacUninstaller/AppViewModel.swift:67-82 | passes through `Scanning`; a non-application ends in the invalid-file error with the previous contents kept; otherwise the identity and `RelatedFiles` are loaded and the state is `Ready`; the invariant holds |
| AppViewModel.AppCleanerViewModel.ToggleFile | MacUninstaller/AppViewModel.swift:84-88 | the list becomes `Toggled` of the old list; the invariant holds |
| AppViewModel.AppCleanerViewModel.SelectAll | MacUninstaller/AppViewModel.swift:90-94 | every flag is set, nothing else changes |
| AppViewModel.AppCleanerViewModel.DeselectAll | MacUninstaller/AppViewModel.swift:96-100 | every flag is cleared, nothing else changes |
| AppViewModel.AppCleanerViewModel.DeleteSelected | MacUninstaller/AppViewModel.swift:102-104 | only raises the confirmation flag; the invariant holds |
| AppViewModel.AppCleanerViewModel.ConfirmDelete | MacUninstaller/AppViewModel.swift:106-119 | passes through `Deleting` and ends `Completed`, or `Error` with the trash's message; the list is untouched; the permission state is unchanged for an empty selection and otherwise goes through the start/stop bracket once |
| AppViewModel.AppCleanerViewModel.Reset | MacUninstaller/AppViewModel.swift:121-126 | back to idle with nothing loaded, from any state |

The model follows the code in the following places:

- **The entry itself is never sized.** `calculateDirectorySize` sums only what the enumerator yields, and that never includes the URL it starts from. A matched plain file such as a preferences plist is therefore reported with size 0. The application's own size is the sum of the files inside its bundle (`DirectorySize`).
- **Unreadable entries contribute nothing.** The `continue` in the loop only skips adding an entry whose resource values cannot be read; whether the enumerator descends into a folder is the enumerator's own doing. The model abstracts both with one `readable` flag per entry: an unreadable entry adds nothing, and the enumerator does not enter it. A hidden entry is neither counted nor entered.
- **The permission scope does not change what is readable.** The disk snapshot's `readable` flags already stand for whatever access the process has during the scan.

## Left out

- Drag-and-drop intake (`handleDrop`, `isTargeted`): it only extracts a URL from a pasteboard item and forwards it to `processApp`. `ProcessApp` takes the URL directly.
- Concurrency and timing: the scan's half-second sleep, the `Task` and main-queue dispatch, and the asynchronous completions of the open panel and the trash. Each operation is modelled as running to completion, in order. `ProcessApp` and `ConfirmDelete` return the sequence of states they pass through as a ghost value.
- `requestLibraryAccess`'s panel setup. Only its completion handler is modelled, as `CompleteAccessRequest`, with the panel's response and chosen folder as inputs.
- `hasFullDiskAccess`, `openFullDiskAccessSettings` and `openSecuritySettings`: one readability probe of a fixed path and two calls that open System Settings. None of them affects the engine's state.
- Presentation: `formattedSize`, `formattedTotalSize`, the categories' localized names, icon names and colors, and the `print` diagnostics.
- `AppInfo`'s UUID and the icon image. An application's identity carries where its icon comes from, not the image.
- AppModels.CalculateDirectorySize: byte counts are unbounded naturals, so `Int64` overflow here and in `totalSize` is not modelled. No real disk reaches it.
- Text.Lower: case folding covers ASCII letters only. Swift's `lowercased()` folds all of Unicode, so a non-ASCII name that differs only in case is a match the model misses.
- Text.StringContains: the matcher's source file imports Foundation, so `contains` is taken as Foundation's `range(of:)`, which finds an empty needle nowhere. An empty `CFBundleIdentifier` or `CFBundleName` therefore matches no name, and the other key alone decides (`EmptyIdentifierIgnored`). Under the standard library's own `contains`, which finds the empty string everywhere, an empty key would instead match every child of every listable root, and all of them would be preselected for the trash. The model does not cover that reading. The fallback name is never empty (`MetadataFallback`).
- Text.Contains: the comparison is character by character. Foundation's string search also treats canonically equivalent spellings (precomposed and decomposed accents) as equal, so such a name is a match the model misses.
- Text.PathExtension: a name whose only dot is its first character has no extension, as `URL.pathExtension` treats `.app` itself.
- FileSystem.Lookup: symbolic links, aliases, and paths that are not normalised are not modelled. Each path names at most one entry of the tree.
- `NSHomeDirectory()` and `UserDefaults.standard` are parameters and fields. The home folder is passed in, and scanning requires the gate's Library path to lie under that same home folder. The persisted store is the `defaults` field of `PermissionManager`. The `shared` singleton is the one `PermissionManager` object passed to every operation.
