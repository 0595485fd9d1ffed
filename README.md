# draxt: nodes, collections and directories in Dafny

draxt is a Node.js library that wraps filesystem paths in node objects (`Node`,
`Directory`, `File`, `SymbolicLink`) and gathers them in a jQuery-like collection (`draxt`).
This project models the core of that library:

- a node: its path and the parts `path.parse` finds in it, its immutable class tag, and
  its cached `fs.Stats`. The model also covers the permission views of the mode,
  `__resolvePath`, renaming and moving, and the option normalisers the glob-backed
  queries use;
- `__statsToNode`, `toNodesSync`, `rawQuerySync` and `querySync`: turning the paths a
  glob expansion found into classified nodes;
- the `draxt` collection: construction, `sync`, `add` with its no-repeated-path
  invariant, the accessors, `slice`, `filter`, the kind filters, `sort`, `reverse`,
  `empty` and `drop`;
- the `Directory` node's input shaping: `__normalizeAppendNodes`, the per-entry move loop
  of `appendSync`, the options of `findSync`, and the pattern post-filter of
  `childrenSync`.

Everything the library asks of the outside world is a parameter:

- a filesystem call (`lstatSync`, `renameSync`, `moveSync`) is a function from its path
  arguments to a result;
- a glob expansion is the sequence of paths it found;
- a `minimatch` filter is a predicate on paths.

A thrown error is an `Err`/`Failed` value carrying the message the code throws.

Modules:

- `Outcomes` holds `Result`, `Status` and `Option`.
- `PosixPath` models POSIX `path.parse`, `path.join` and `path.isAbsolute`.
- `Permissions` holds the mode arithmetic, on 32-bit patterns as JavaScript's bitwise
  operators see them.
- `Nodes` holds `src/interfaces/Node.js` and the class tags of the three subclasses.
- `Collection` holds `src/draxt.js`.
- `Directories` holds `src/interfaces/Directory.js`.

`Node` and `Draxt` are classes whose methods update their fields in place. Option objects
are `PlainObject`s, because the normalisers mutate the caller's object.

The code and its documentation disagree in one place, and the model follows the code:
`getOctalPermissions` writes `(mode & 0o777).toString(8)`, so a mode of `0o055` gives
`"55"` and not a three-digit string.

## Model

| member | source | states |
|---|---|---|
| Nodes.KindTagsIdentify | src/interfaces/Node.js:8-11 | `nodeName` and `NODE_TYPE` each identify the class: equal tags iff equal classes, codes below 4 |
| Nodes.KindPredicates | src/interfaces/Node.js:164-182 | `isDirectory`/`isFile`/`isSymbolicLink` answer yes exactly for their own class; a generic node answers no to all three |
| Nodes.PathParamsOf | src/interfaces/Node.js:45-53 | the base name holds no `/`, the extension no dot; the base name is the name, or the name, a dot and the extension; the root is `/` exactly for absolute paths |
| Nodes.ParamsFrom | src/interfaces/Node.js:45-53 | the fields copied from one `path.parse` result: a non-empty extension loses its dot and re-joins the name to the base name |
| Nodes.WithoutDot | src/interfaces/Node.js:50 | `ext.slice(1)` removes exactly the leading dot, and the empty extension stays empty |
| Nodes.DotFileExamples | src/interfaces/Node.js:188-190 | `isDotFile`: false for `/fake/_fakepath/module.js`, true for the base name `.git`, false for the empty base name |
| Nodes.ModuleJsParams | test/interfaces/Node.js:37-56 | `/fake/_fakepath/module.js` has base `module.js`, name `module`, extension `js`, parent `/fake/_fakepath`, root `/` |
| Nodes.ModuleJsParse | test/interfaces/Node.js:37-56 | `path.parse` splits that path into root, dir, base, name and `.js` |
| Nodes.NoExtensionParams | test/interfaces/Directory.js:12-19 | `/fake/_fakepath` has name and base `_fakepath` and the empty extension |
| Nodes.Node.constructor | src/interfaces/Node.js:34-38 | a new node keeps its class and the given stats, and its path fields are those of its path |
| Nodes.Node.SetPathParams | src/interfaces/Node.js:45-53 | all path fields are recomputed together from the new path; the stats are kept |
| Nodes.Node.StatProp | src/interfaces/Node.js:115-117 | without cached stats a property is `undefined`; `mode` reads the mode |
| Nodes.Node.GetPermissions | src/interfaces/Node.js:237-267 | throws exactly when there are no stats; otherwise each of the nine flags is the matching POSIX permission bit of the mode |
| Permissions.Decode | src/interfaces/Node.js:244-266 | with the 32-bit shifts and sign propagation of `>>` and `<<`, every flag equals its S_I* bit, whatever the high bits |
| Permissions.OwnerClass | src/interfaces/Node.js:245 | `mode >> 6` carries the owner's bits at 4, 2 and 1 |
| Permissions.GroupClass | src/interfaces/Node.js:246 | `(mode << 3) >> 6` carries the group's bits at 4, 2 and 1 |
| Permissions.OthersClass | src/interfaces/Node.js:247 | `(mode << 6) >> 6` carries the others' bits at 4, 2 and 1 |
| Permissions.Mode755 | src/interfaces/Node.js:217-222 | mode 0o755 gives the octal string "755", and all for the owner, read and execute for group and others |
| Permissions.Mode770 | src/interfaces/Node.js:227-267 | mode 0o770 gives read, write and execute to owner and group and nothing to the others |
| Nodes.Node.GetOctalPermissions | src/interfaces/Node.js:220-222 | without stats exactly, the missing-mode error; otherwise one to three octal digits whose value is the low nine mode bits, with no leading zero ("0" for no bits) |
| Permissions.OctalString | src/interfaces/Node.js:221 | `toString(8)`: at least one octal digit, no leading zero for a positive number |
| Permissions.OctalRoundTrip | src/interfaces/Node.js:221 | reading the octal digits back gives the number written |
| Permissions.OctalLength | src/interfaces/Node.js:221 | below 8 one digit, below 64 two, below 512 three |
| Permissions.OctalPermissions | src/interfaces/Node.js:220-222 | one to three octal digits whose value is the low nine mode bits, with no leading zero, and "0" when there are none |
| Permissions.Mode055 | src/interfaces/Node.js:220-222 | mode 0o055 gives "55", two digits, not "055" |
| Permissions.OctalMatchesDecode | src/interfaces/Node.js:220-267 | the octal string is owner, group and others of `getPermissions`, with read worth 4, write 2 and execute 1 |
| Nodes.Node.RenewStatsSync | src/interfaces/Node.js:208-212 | the stats `lstat` reports for the path replace the cached ones; a failure throws and keeps them; the path fields never change |
| Nodes.DirPathOf | src/interfaces/Node.js:866-874 | `undefined` is refused first; `null` throws reading `nodeName`; a Directory node gives its path, a string itself; an object whose `nodeName` is `'Directory'` gives its `pathName` (a non-string one throws `path`'s type error); other nodes, other objects and the remaining non-string types are refused |
| Nodes.Node.ResolvePath | src/interfaces/Node.js:866-881 | succeeds iff the directory path is valid and absolute, with the error of the failing check; the result is always the directory joined with the base name, and for a plain base name it keeps that base name |
| Nodes.ResolveTrailingSlash | test/interfaces/Node.js:102-103 | `/foo/bar` and `/foo/bar/` resolve a plain base name to the same path |
| Nodes.Node.RenameSync | src/interfaces/Node.js:461-477 | the filesystem rename decides; on success the path fields describe the new path and the stats are kept, on failure nothing changes |
| Nodes.Node.MoveToSync | src/interfaces/Node.js:575-580 | a resolve error is thrown before moving; otherwise the move decides; on success the node has the target path, on failure it is unchanged |
| Nodes.Node.MoveTo | src/interfaces/Node.js:552-567 | as `moveToSync`, but a function as options throws after resolving and before moving |
| Nodes.Node.RelativeCwd | src/interfaces/Node.js:852 | a directory's own path, any other node's parent path |
| Nodes.RelativeError | src/interfaces/Node.js:817-842 | no error iff the pattern is falsy or a string and the options are default, a plain object or a node; messages in the code's order |
| Nodes.IgnoreList | src/interfaces/Node.js:833-842 | `ignore` becomes an array: an array stays, another truthy value is wrapped, a falsy one becomes empty |
| Nodes.RelativeProps | src/interfaces/Node.js:833-856 | the options gain the `ignore` array and `cwd`; every other property is kept and no other key appears |
| Nodes.RelativeFilter | src/interfaces/Node.js:844-850 | a filter exists iff the pattern is truthy; its `dot` is the truthiness of `options.dot` |
| Nodes.RelativeErrorExamples | test/interfaces/Node.js:437-439 | an array pattern, a string context and array options throw the three messages |
| Nodes.Node.NormalizeRelativeGlobOptions | src/interfaces/Node.js:817-859 | errors leave the caller's object alone; otherwise the caller's object (or a fresh one) holds `RelativeProps` with `cwd` the relative cwd, and the filter is `RelativeFilter` |
| Nodes.Node.SiblingsOptionsAsWritten | src/interfaces/Node.js:605-608 | as written: an argument error is exactly the relative normaliser's message and leaves the caller's options untouched, and there is no other error; otherwise the caller's options object (or a new one) ends with exactly the relative options, `cwd` the relative cwd, plus the node's own path pushed onto `ignore`; the filter is the relative one |
| Nodes.DirectorySiblingsCwd | src/interfaces/Node.js:852 | for a Directory at `/a/b`, the parent is `/a` but the relative cwd is `/a/b` |
| Nodes.Node.SiblingsOptions | src/interfaces/Node.js:624-627 | corrected: the same errors, with the caller's options untouched; otherwise the same object and filter; the options are exactly the relative ones with `cwd` the parent directory for every node and the node's own path pushed onto `ignore` |
| Nodes.NormalizeGlobOptions | src/interfaces/Node.js:792-809 | no options give a fresh `{absolute: true}`, a string a fresh `{cwd, absolute: true}`, an object itself with `absolute` forced; other types throw |
| Nodes.StatsToKind | src/interfaces/Node.js:751-762 | the first type test that answers yes, in the order File, Directory, SymbolicLink, picks the class; none gives the generic node |
| Nodes.StatsToKindExclusive | test/interfaces/Node.js:299-310 | stats answering yes to one test only give `NODE_TYPE` 2, 1 or 3, and to none 0 |
| Nodes.StatsToNode | src/interfaces/Node.js:751-762 | a fresh node of that class, with the path and the stats |
| Nodes.FirstFailure | src/interfaces/Node.js:738-743 | the first path whose `lstat` fails: every earlier one succeeds |
| Nodes.ToNodesSync | src/interfaces/Node.js:738-743 | the first failing `lstat` throws its error; otherwise one fresh, distinct node per path, in order, classified from its stats |
| Nodes.Built | src/interfaces/Node.js:739-742 | one pass of the `map`: a new node for the next path is appended and classified, distinct from the earlier ones, which stay |
| Nodes.ClassifiedPaths | src/interfaces/Node.js:738-743 | classified nodes carry exactly the paths they were built for |
| Nodes.RawQuerySync | src/interfaces/Node.js:699-702 | succeeds iff the options have an accepted type, and then returns the paths glob found; a caller's object gets `absolute` |
| Nodes.QuerySync | src/interfaces/Node.js:781-784 | an option type error, else the error of the first failing `lstat`, exactly when one fails; otherwise fresh distinct nodes classified from the found paths |
| Nodes.FilterByPattern | src/interfaces/Directory.js:93-95 | without a filter the paths stay; with one, a path is kept iff it is listed and accepted |
| Nodes.FilterByPatternAppend | src/interfaces/Directory.js:93-95 | filtering distributes over concatenation, so kept paths keep their order |
| Collection.PathsOf | src/draxt.js:201-204 | the paths of the items, index by index |
| Collection.NodeValues | src/draxt.js:161-164 | `get()` hands out the items as node values, index by index |
| Collection.AddAll | src/draxt.js:134-152 | adding only appends: the old items stay a prefix and every item is old or a candidate |
| Collection.AddAllUnique | src/draxt.js:148-149 | `add` keeps the collection free of repeated paths |
| Collection.AddAllPaths | src/draxt.js:148-149 | after `add` a path is present iff it was present or is a candidate's |
| Collection.AddAllPresent | src/draxt.js:148-149 | candidates whose paths are all present change nothing |
| Collection.AddAllIdempotent | src/draxt.js:134-152 | adding the same nodes twice equals adding them once |
| Collection.AddAllDistinct | src/draxt.js:134-152 | nodes with all paths distinct are appended as they are, in order |
| Collection.AddAllStep | src/draxt.js:139-150 | one more node is appended iff its path is not yet present |
| Collection.AddAllUniqueAsIs | src/draxt.js:134-152 | a list without repeated paths is added to an empty collection unchanged |
| Collection.UniqueSlice | src/draxt.js:214-217 | a contiguous part of a list without repeated paths has none either |
| Collection.Candidates | src/draxt.js:135-138 | a collection gives its items, an array its elements, another value itself alone |
| Collection.FirstNonNode | src/draxt.js:139-147 | the first candidate that is not a node: all earlier ones are nodes |
| Collection.NodePrefix | src/draxt.js:139-150 | the nodes before the first non-node, index by index |
| Collection.NodePrefixOfValues | src/draxt.js:134-152 | the node values of a node list are all nodes and give the list back |
| Collection.AddNodes | src/draxt.js:139-150 | the `forEach` loop stops at the first non-node, having added the nodes before it as `AddAll` does |
| Collection.Draxt.Add | src/draxt.js:134-152 | the items become the old items plus the new paths before the first non-node; it throws (with the value's type) iff there is a non-node; no path is ever repeated |
| Collection.Draxt.Empty | src/draxt.js:76-80 | `draxt()` has no items |
| Collection.Draxt.Copy | src/draxt.js:87-90 | a collection built from another has that one's items |
| Collection.FromNodes | src/draxt.js:82-84 | `new Draxt(nodes)` holds `AddAll([], nodes)` |
| Collection.Added | src/draxt.js:82-84 | a new collection `add`s the candidates; it is returned iff all are nodes, else the error `add` throws |
| Collection.Create | src/draxt.js:68-95 | undefined is empty, a node or array goes through `add`, another collection is copied, a pattern is queried as `sync` does: it throws exactly the options type error or the first failing `lstat`'s error, and otherwise holds each found path once, in glob's order when none repeats, each node of the kind and with the stats `lstat` gives |
| Collection.Sync | src/draxt.js:111-114 | throws exactly on a bad option type or an `lstat` failure, with the options message or the first failing path's error; a caller's options object gets `absolute`; otherwise the paths found, each once and in glob's order when none repeats, each node of the kind and with the stats `lstat` gives its path |
| Collection.Draxt.Length | src/draxt.js:7-10 | the `length` getter is the number of items |
| Collection.Draxt.Has | src/draxt.js:201-205 | for a node or a string: true iff some item has that path; any other value gives false |
| Collection.Draxt.HasComparesPaths | src/draxt.js:201-205 | asking with a node equals asking with its path |
| Collection.Draxt.Get | src/draxt.js:161-166 | no index gives all items; an index in range gives that item; `"length"` gives the count; anything else `undefined` |
| Collection.Draxt.First | src/draxt.js:172-174 | present iff non-empty, and then item 0 |
| Collection.Draxt.Last | src/draxt.js:180-182 | present iff non-empty, and then the last item, which is the first of the reversed list |
| Collection.SliceBounds | src/draxt.js:214-215 | `Array.prototype.slice` bounds: the start is the clamped begin (0 when absent), the stop the clamped end (the length when absent) but never before the start; `Clamp` counts negative indices from the end |
| Collection.Clamp | src/draxt.js:214-215 | a relative index clamped to `0..len` |
| Collection.SliceExamples | src/draxt.js:214-215 | `slice(-k)` is the last `k` items, `slice()` all of them |
| Collection.SliceRanges | src/draxt.js:214-215 | `slice(0, k)` is the first `k` items or all of them; a begin at or after the end selects nothing |
| Collection.SliceSplit | src/draxt.js:214-215 | `slice(0, k)` followed by `slice(k)` is the whole list, for every `k` |
| Collection.Draxt.Slice | src/draxt.js:214-217 | a fresh collection of the selected range; without repeated paths exactly that range |
| Collection.Select | src/draxt.js:226-229 | `Array.prototype.filter`: an item is kept iff it is listed and passes |
| Collection.SelectAppend | src/draxt.js:226-229 | filtering distributes over concatenation, keeping order |
| Collection.SelectAll | src/draxt.js:226-229 | a filter every item passes keeps the list |
| Collection.SelectUnique | src/draxt.js:226-229 | filtering keeps paths distinct |
| Collection.Draxt.Filter | src/draxt.js:226-229 | a fresh collection of the kept items; without repeated paths exactly `Select` |
| Collection.Draxt.Directories | src/draxt.js:309-313 | a fresh collection `add`ed from the Directory items in order; without repeated paths exactly those items |
| Collection.Draxt.Files | src/draxt.js:319-323 | a fresh collection `add`ed from the File items in order; without repeated paths exactly those items |
| Collection.Draxt.Symlinks | src/draxt.js:329-333 | a fresh collection `add`ed from the SymbolicLink items in order; without repeated paths exactly those items |
| Collection.KindsPartition | src/draxt.js:309-333 | every item passes exactly one of the four kind filters: their sizes add up to the list's, and each keeps exactly the items of its kind |
| Collection.Insert | src/draxt.js:289-292 | one insertion step of a stable sort adds exactly that item |
| Collection.SortedBy | src/draxt.js:289-292 | the sorted list is a permutation of the items |
| Collection.SortedInit | src/draxt.js:289-292 | a sorted list stays sorted without its last item |
| Collection.SortedAppend | src/draxt.js:289-292 | an item nothing sorts after can go at the end |
| Collection.InsertSorted | src/draxt.js:289-292 | insertion keeps a list sorted under a consistent comparator |
| Collection.InsertBefore | src/draxt.js:289-292 | when the new item goes before the last one, that last one stays after everything |
| Collection.SortedBySorted | src/draxt.js:289-292 | under a consistent comparator the result is sorted |
| Collection.SortedByUnique | src/draxt.js:289-292 | sorting keeps paths distinct |
| Collection.InsertUnique | src/draxt.js:289-292 | inserting a new path keeps paths distinct |
| Collection.InsertUnordered | src/draxt.js:289-292 | under a comparator that finds all equal, insertion appends |
| Collection.SortedByUnordered | src/draxt.js:289-292 | a stable sort under that comparator leaves the order alone |
| Collection.InsertKeepsPair | src/draxt.js:289-292 | insertion keeps any two items of the list in their order |
| Collection.InsertAfter | src/draxt.js:289-292 | insertion puts the new item after each item that does not sort after it |
| Collection.SortedByKeeps | src/draxt.js:289-292 | for one pair: an item that does not sort after a later one stays before it |
| Collection.SortedByStable | src/draxt.js:289-292 | the sort is stable: an item that does not sort after a later one stays before it, so equal items keep their order |
| Collection.Draxt.Sort | src/draxt.js:289-292 | with a comparator the items become the stable sort under it; without one every node converts to the same string, so the order stays; no path is ever repeated |
| Collection.Reversed | src/draxt.js:299-302 | item `i` is item `n-1-i` |
| Collection.ReverseTwice | src/draxt.js:299-302 | reversing twice restores the order |
| Collection.ReversePermutes | src/draxt.js:299-302 | reversing is a permutation and keeps paths distinct |
| Collection.Draxt.Reverse | src/draxt.js:299-302 | the items are reversed in place; no path is ever repeated |
| Collection.Draxt.MakeEmpty | src/draxt.js:339-342 | the items become empty |
| Collection.DropSelection | src/draxt.js:350-362 | a node or a string gives itself, a collection its items, an array itself; other types throw |
| Collection.FirstNullish | src/draxt.js:363-368 | the first `null`/`undefined` key, on which reading `pathName` throws |
| Collection.DropExactly | src/draxt.js:369-371 | an item stays iff its path is not dropped; with no dropped path the list is unchanged |
| Collection.Draxt.Drop | src/draxt.js:350-373 | bad selectors and nullish keys throw before any change; otherwise exactly the items with listed paths go, the rest keep their order; no path is ever repeated |
| Directories.Digits | src/interfaces/Directory.js:252 | the decimal text of a number: non-empty, digits only |
| Directories.NormalizeAppendNodes | src/interfaces/Directory.js:243-255 | a collection gives its items, a node or string a one-entry list, an array itself; any other value throws with the value in the message |
| Directories.NormalizeAppendNodesIdempotent | src/interfaces/Directory.js:243-255 | normalising an accepted list again gives it back |
| Directories.NormalizeAppendNodesExamples | test/interfaces/Directory.js:132-143 | a string is wrapped, an array kept, a date and a negative number refused |
| Directories.FirstRefused | src/interfaces/Directory.js:57-60 | the `forEach` stops at the first entry whose build, resolve or move fails |
| Directories.AppendStatus | src/interfaces/Directory.js:55-62 | done iff every entry succeeds, else the first failure |
| Directories.RefusedLater | src/interfaces/Directory.js:57-60 | a successful entry before the stop moves the stop past it |
| Directories.RefusedHere | src/interfaces/Directory.js:57-60 | the first failing entry is the stop and decides the outcome |
| Directories.AppendPlacesInDirectory | src/interfaces/Directory.js:57-60 | every entry before the stop was a path, the directory absolute, and a plain base name lands in that directory |
| Directories.MoveNode | src/interfaces/Directory.js:58-59 | a node entry moves as `moveToSync` does, keeping its stats |
| Directories.MovePath | src/interfaces/Directory.js:58-59 | a string entry becomes a generic node that is moved |
| Directories.MoveEntry | src/interfaces/Directory.js:57-60 | one entry of the loop: a node, a string, or a throw for anything else |
| Directories.AppendStep | src/interfaces/Directory.js:57-60 | one pass keeps the loop invariant, or gives the loop's outcome when the entry fails |
| Directories.MoveEntries | src/interfaces/Directory.js:57-60 | the loop: its outcome is `AppendStatus`, the entries before the stop have landed and the later ones are untouched |
| Directories.AppendSync | src/interfaces/Directory.js:55-62 | a bad argument throws; for separate node entries naming distinct paths the outcome is `AppendStatus`, exactly the entries before the stop have moved, and stats and the directory are kept |
| Directories.AppendExample | test/interfaces/Directory.js:145-155 | a file node and a path string name distinct paths and both get through when every move succeeds |
| Collection.Collected | src/interfaces/Directory.js:183-184 | nodes built for paths, added to an empty collection: each path once, in order when distinct |
| Collection.CollectionOf | src/interfaces/Directory.js:184 | `new Draxt(nodes)` for built nodes holds each path once, in order when distinct, each node classified from the `lstat` of its path |
| Collection.ClassifiedPathsOf | src/interfaces/Node.js:738-743 | built nodes carry their paths |
| Collection.DistinctUnique | src/draxt.js:148-149 | distinct paths mean no repeated path |
| Directories.AbsoluteTwice | src/interfaces/Directory.js:181-183 | the second forcing of `absolute` inside `querySync` changes nothing |
| Directories.FindSync | src/interfaces/Directory.js:179-185 | glob gets the normalised options with `cwd` this directory; a caller's object is changed so; the collection holds each found path once, in order when distinct, each node classified from its `lstat`; a failing `lstat` gives exactly the message of the first path it refuses |
| Directories.ChildrenSync | src/interfaces/Directory.js:89-97 | an argument error is the relative normaliser's message and leaves the caller's options untouched; otherwise the relative options with `cwd` this directory; paths a given pattern accepts are kept in order and become a collection of nodes classified from their `lstat`, or the message of the first kept path `lstat` refuses |
| Directories.NodesCollection | src/interfaces/Directory.js:96 | the first `lstat` failure throws; otherwise each listed path once, in order when distinct, each node classified from its `lstat` |

## Left out

- Filesystem I/O: `fs`, `fs-extra`, `glob` and `minimatch` are parameters. Their effect on
  the disk, and glob or minimatch pattern semantics, are not modelled.
- Asynchronous twins are not modelled: `append`, `children`, `find`, `siblings`, `query`,
  `rawQuery`, `toNodes` and `renewStats`. Neither are the promise the `draxt(pattern)`
  constructor returns for a glob pattern (modelled as `Sync`) or the ordering of promises.
- `siblingsSync` and `siblings` are modelled only up to the options they query with; the
  query itself is `childrenSync`'s.
- The node wrappers around single `fs` calls are not modelled: `access`, `chmod`, `chown`,
  `link`, `utimes`, `copy`, `remove`, `parent`, `exists`, `stat` and `lstat`, with the
  `Directory` and `File` operations built on `fs` (`empty`, `ensure`, `isEmpty`,
  `readdir`, `read`, `rmdir`). They forward to `fs` and hold no logic to prove.
- The getters (`getPathName`, the time getters, `getSize`) and `forEach`, `map`,
  `mapAsync`, `some` and `extend` only forward to a field or to `Array.prototype`.
- Collection.Draxt.Sort: a comparator that is not a function makes `Array.prototype.sort` throw
  a `TypeError`; the parameter's type rules it out.
- Collection.Draxt.Filter: a callback that is not a function makes `Array.prototype.filter`
  throw a `TypeError`; the parameter's type rules it out. The optional `thisArg` is not
  modelled, since callbacks are functions of a node's view.
- Collection.Draxt.Sort: the order `Array.prototype.sort` gives under an inconsistent
  comparator is engine-defined. The model uses the stable insertion order of `SortedBy`
  for it and proves sortedness only for consistent comparators.
- Callbacks of `filter` and `sort` see a node's class and path fields only. A callback
  that reads stats or mutates nodes is not modelled.
- Collection.Draxt.Get: a numeric string index (`get("0")`) and fractional numbers are not
  modelled. Indices are integers; there are no floating-point values or `NaN`.
- Collection.Draxt.Get: without an index the source returns the live `items` array, so a
  caller who changes it changes the collection. The model returns the items as a value, so
  that aliasing is lost.
- Collection.Draxt.Get: property names other than an index and `length` (such as `push` or
  `map`) read the array's methods in the source; the model gives `undefined`.
- Nodes.Node.SiblingsOptionsAsWritten: when the caller's `ignore` is an array, the source pushes
  the node's path onto that same array (src/interfaces/Node.js:608 and 627, after 835-842), which
  the caller still holds. Arrays are values in the model, so the caller's array is not
  shown to change. The same holds for Nodes.Node.SiblingsOptions.
- Error texts raised by Node.js and V8 rather than by the library are fixed strings. The
  `ERR_INVALID_ARG_TYPE` text of `PathTypeMessage` stops before its `. Received ...` tail,
  which names the received value.
- Directories.Interpolated: the text of a function or a date in the error message of
  `__normalizeAppendNodes` is left empty.
- Directories.AppendSync: the contract speaks of the case where no node is listed twice,
  the directory itself is not an entry and no two entries name the same path
  (`DistinctSources`). With aliasing or a repeated path, only the outcome of a refused
  argument is stated. `move` is a fixed function of source and target, so a later call
  does not see what an earlier move did to the filesystem (a path moved twice would repeat
  the first outcome, where `moveSync` throws; a source inside an already moved directory is
  not followed). The `options` passed to `moveSync` are not modelled.
- Node and collection instances passed as *options* to the normalisers are excluded by a
  precondition; the code's documentation asks for a string or an object.
- `File` and `SymbolicLink` contribute their class tags only (src/interfaces/File.js:3-6,
  src/interfaces/SymbolicLink.js:2-5); their own I/O methods are not modelled.
- POSIX path operations follow `path.posix`; Windows paths are not modelled.

## Findings

| source | as written | input that shows it | evidently intended | confidence | as-written member | corrected member |
|---|---|---|---|---|---|---|
| src/interfaces/Node.js:852 (used by siblings at 605-608 and 624-627) | the relative query's `cwd` is the node's own path when the node is a Directory | `siblingsSync()` on a Directory node at `/a/b` globs `*` in `/a/b`: its children, not its siblings in `/a` | siblings are looked up in the parent directory for every kind of node | not executed | Nodes.Node.SiblingsOptionsAsWritten (shown by Nodes.DirectorySiblingsCwd) | Nodes.Node.SiblingsOptions |
