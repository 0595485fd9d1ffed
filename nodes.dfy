/**
 * The node interface (src/interfaces/Node.js): a filesystem path together with the parts
 * `path.parse` finds in it, an immutable kind tag, the cached `fs.Stats`, and the shaping of
 * the options the glob-backed queries pass on.
 *
 * Every call into `fs`, `glob` or `minimatch` is a parameter: a filesystem call is a function
 * from its path arguments to a `Status` (or to the `Stats` `lstat` reports), a glob expansion is
 * the sequence of paths it produced, and a minimatch filter is a predicate on paths.
 */
module Nodes {
  import opened Outcomes
  import PosixPath
  import Permissions

  // ------------------------------------------------------------------ kinds

  /** The four node classes: `Node` itself and its subclasses. A node never changes class. */
  datatype NodeKind = GenericNode | DirectoryNode | FileNode | SymbolicLinkNode

  /** `nodeName`: the name each class defines for itself. */
  function NodeName(k: NodeKind): string {
    match k
    case GenericNode => "Node"
    case DirectoryNode => "Directory"
    case FileNode => "File"
    case SymbolicLinkNode => "SymbolicLink"
  }

  /** `NODE_TYPE`: the code number each class defines for itself. */
  function NodeType(k: NodeKind): nat {
    match k
    case GenericNode => 0
    case DirectoryNode => 1
    case FileNode => 2
    case SymbolicLinkNode => 3
  }

  /** Both tags identify the class: no two classes share a name or a code. */
  lemma KindTagsIdentify(a: NodeKind, b: NodeKind)
    ensures NodeName(a) == NodeName(b) <==> a == b
    ensures NodeType(a) == NodeType(b) <==> a == b
    ensures NodeType(a) < 4
  {
  }

  // ------------------------------------------------------------------ values

  /**
   * What an `fs.Stats` object offers the library: the mode, the three type tests, and the
   * remaining data properties (`size`, `atime`, ...) by name.
   */
  datatype Stats = Stats(mode: bv32, isFile: bool, isDirectory: bool, isSymbolicLink: bool, props: map<string, JsValue>)

  /**
   * The JavaScript values the library's entry points are handed. `NodeV` is a node instance,
   * `DraxtV` a collection instance (the nodes it holds when it is passed), `Obj` any other
   * plain object.
   */
  datatype JsValue =
    | Undefined
    | Null
    | Bool(b: bool)
    | Num(n: int)
    | Str(s: string)
    | Arr(elems: seq<JsValue>)
    | Obj(obj: PlainObject)
    | NodeV(node: Node)
    | DraxtV(members: seq<Node>)
    | Fn
    | Date(time: int)

  /** A plain object; option objects are mutated in place, so it has identity. */
  class PlainObject {
    var props: map<string, JsValue>

    constructor (props: map<string, JsValue>)
      ensures this.props == props
    {
      this.props := props;
    }
  }

  /** `getType` of src/util.js: the tag `Object.prototype.toString` reports, lower-cased. */
  function TypeName(v: JsValue): string {
    match v
    case Undefined => "undefined"
    case Null => "null"
    case Bool(_) => "boolean"
    case Num(_) => "number"
    case Str(_) => "string"
    case Arr(_) => "array"
    case Obj(_) => "object"
    case NodeV(_) => "object"
    case DraxtV(_) => "object"
    case Fn => "function"
    case Date(_) => "date"
  }

  /** JavaScript truthiness. */
  predicate Truthy(v: JsValue) {
    match v
    case Undefined => false
    case Null => false
    case Bool(b) => b
    case Num(n) => n != 0
    case Str(s) => s != ""
    case _ => true
  }

  /** A property read: a missing property is `undefined`. */
  function Get(props: map<string, JsValue>, key: string): JsValue {
    if key in props then props[key] else Undefined
  }

  /** Instances of the library's classes, which the option normalisers are not meant to receive. */
  predicate IsInstance(v: JsValue) {
    v.NodeV? || v.DraxtV?
  }

  /** The objects the top-level values of `vals` refer to. */
  function Refs(vals: seq<JsValue>): set<object> {
    (set i | 0 <= i < |vals| && vals[i].NodeV? :: vals[i].node as object)
    + (set i | 0 <= i < |vals| && vals[i].Obj? :: vals[i].obj as object)
  }

  /** The object a single value refers to, if any. */
  function RefsOf(v: JsValue): set<object> {
    match v
    case NodeV(n) => {n}
    case Obj(o) => {o}
    case _ => {}
  }

  /** The plain object a value is, if it is one. */
  function ObjectOf(v: JsValue): set<object> {
    if v.Obj? then {v.obj} else {}
  }

  // ------------------------------------------------------------------ path fields

  /** The path-derived fields of a node. */
  datatype PathParams = PathParams(baseName: string, name: string, extension: string, parentPath: string, rootPath: string)

  /**
   * `_setPathParams`: the parts `path.parse` finds in `p`, with the leading dot of the
   * extension removed. The base name is the name, or the name, a dot and the extension.
   */
  function PathParamsOf(p: string): (r: PathParams)
    ensures '/' !in r.baseName
    ensures '.' !in r.extension
    ensures r.baseName == r.name || r.baseName == r.name + "." + r.extension
    ensures r.extension != "" ==> r.baseName == r.name + "." + r.extension
    ensures r.rootPath == (if PosixPath.IsAbsolute(p) then "/" else "")
  {
    ParamsFrom(PosixPath.Parse(p))
  }

  /** The fields `_setPathParams` copies from one result of `path.parse`. */
  function ParamsFrom(q: PosixPath.Parsed): (r: PathParams)
    requires q.name + q.ext == q.base && '/' !in q.base
    requires q.ext == "" || (q.ext[0] == '.' && '.' !in q.ext[1..])
    ensures '/' !in r.baseName
    ensures '.' !in r.extension
    ensures q.ext == "" ==> r.baseName == r.name
    ensures q.ext != "" ==> r.baseName == r.name + "." + r.extension
    ensures r.rootPath == q.root
  {
    var e := WithoutDot(q.ext);
    assert q.ext != "" ==> q.name + "." + e == q.name + q.ext;
    PathParams(q.base, q.name, e, q.dir, q.root)
  }

  /** `ext.slice(1)` for an extension `path.parse` reports: empty, or a dot and dot-free text. */
  function WithoutDot(ext: string): (e: string)
    requires ext == "" || (ext[0] == '.' && '.' !in ext[1..])
    ensures '.' !in e
    ensures ext == "" ==> e == ""
    ensures ext != "" ==> ext == "." + e
  {
    if ext == "" then "" else ext[1..]
  }

  /** A path of the library's own tests: `/fake/_fakepath/module.js`. */
  lemma ModuleJsParams(p: string)
    requires p == "/fake/_fakepath/module.js"
    ensures PathParamsOf(p) == PathParams("module.js", "module", "js", "/fake/_fakepath", "/")
  {
    ModuleJsParse(p);
    assert WithoutDot(".js") == "js";
  }

  /** How `path.parse` splits `/fake/_fakepath/module.js`. */
  lemma ModuleJsParse(p: string)
    requires p == "/fake/_fakepath/module.js"
    ensures PosixPath.Parse(p) == PosixPath.Parsed("/", "/fake/_fakepath", "module.js", "module", ".js")
  {
    PosixPath.ParseWithExtension(p, "/fake/_fakepath", "module.js", 6);
    assert "module.js"[..6] == "module" && "module.js"[6..] == ".js";
  }

  /**
   * `isDotFile` as the library's tests use it: false for `/fake/_fakepath/module.js`, true
   * once the base name is `.git`, and false for the empty base name of a root.
   */
  lemma DotFileExamples(n: Node)
    ensures n.HasPath("/fake/_fakepath/module.js") ==> !n.IsDotFile()
    ensures n.baseName == ".git" ==> n.IsDotFile()
    ensures n.baseName == "" ==> !n.IsDotFile()
  {
    if n.HasPath("/fake/_fakepath/module.js") {
      ModuleJsParams(n.pathName);
    }
  }

  /** A path without extension, `/fake/_fakepath`, gets the empty extension. */
  lemma NoExtensionParams(p: string)
    requires p == "/fake/_fakepath"
    ensures PathParamsOf(p) == PathParams("_fakepath", "_fakepath", "", "/fake", "/")
  {
    PosixPath.ParseWithoutExtension(p, "/fake", "_fakepath");
  }

  /** The name of a filter `minimatch.filter` builds: the pattern and the `dot` option. */
  datatype MatchFilter = MatchFilter(pattern: string, dot: bool)

  /** What `__normalizeRelativeGlobOptions` returns: the options object and the optional filter. */
  datatype RelativeQuery = RelativeQuery(options: PlainObject, filter: Option<MatchFilter>)

  const NoStatsMessage := "No valid cached stats ofr this node. Run `.renewStats()` before calling this function!"
  const NoModeMessage := "Cannot read properties of undefined (reading 'mode')"
  const DirRequiredMessage := "`dir` parameter is required!"
  const DirTypeMessage := "`dir` parameter must be a string or instance of Directory class!"
  const DirAbsoluteMessage := "`dir` must be an absolute path!"
  const PathTypeMessage := "The \"path\" argument must be of type string"
  const NullNodeNameMessage := "Cannot read properties of null (reading 'nodeName')"
  const CallbackMessage := "`node.moveTo` doesn not accept a callback function!"
  const GlobOptionsMessage := "Optional `options` parameter must be either a string or an object!"

  /**
   * The directory path `__resolvePath` takes from its argument, or the error it throws
   * before the absoluteness test: a Directory node gives its `pathName`, a string itself,
   * and an object that merely carries `nodeName: 'Directory'` its `pathName` property.
   */
  function DirPathOf(dir: JsValue): (r: Result<string>)
    reads RefsOf(dir)
    ensures dir == Undefined ==> r == Err(DirRequiredMessage)
    ensures dir.Str? ==> r == Ok(dir.s)
    ensures dir.NodeV? ==> r == if dir.node.kind == DirectoryNode then Ok(dir.node.pathName) else Err(DirTypeMessage)
    ensures dir.Arr? || dir.DraxtV? || dir.Fn? || dir.Date? || dir.Bool? || dir.Num? ==> r == Err(DirTypeMessage)
    ensures dir.Null? ==> r == Err(NullNodeNameMessage)
    ensures dir.Obj? ==>
      var nodeName, pathName := Get(dir.obj.props, "nodeName"), Get(dir.obj.props, "pathName");
      && (nodeName != Str("Directory") ==> r == Err(DirTypeMessage))
      && (nodeName == Str("Directory") && pathName.Str? ==> r == Ok(pathName.s))
      && (nodeName == Str("Directory") && !pathName.Str? ==> r == Err(PathTypeMessage))
  {
    match dir
    case Undefined => Err(DirRequiredMessage)
    case Null => Err(NullNodeNameMessage)
    case Str(s) => Ok(s)
    case NodeV(n) => if n.kind == DirectoryNode then Ok(n.pathName) else Err(DirTypeMessage)
    case Obj(o) =>
      if Get(o.props, "nodeName") != Str("Directory") then Err(DirTypeMessage)
      else if Get(o.props, "pathName").Str? then Ok(Get(o.props, "pathName").s)
      else Err(PathTypeMessage)
    case _ => Err(DirTypeMessage)
  }

  // ------------------------------------------------------------------ nodes

  /** A node: one class for `Node`, `Directory`, `File` and `SymbolicLink`, told apart by `kind`. */
  class Node {
    const kind: NodeKind
    var pathName: string
    var baseName: string
    var name: string
    var extension: string
    var parentPath: string
    var rootPath: string
    /** `_stats`: `None` when no stats object was given or cached. */
    var stats: Option<Stats>

    /** The path fields are exactly the ones derived from `p`. */
    predicate HasPath(p: string)
      reads this
    {
      pathName == p && Params() == PathParamsOf(p)
    }

    /** The path-derived fields as one value. */
    function Params(): PathParams
      reads this
    {
      PathParams(baseName, name, extension, parentPath, rootPath)
    }

    /** `new Node(pathName, stats)` and the subclass constructors: the stats are kept as given. */
    constructor (kind: NodeKind, pathName: string, stats: Option<Stats>)
      ensures this.kind == kind && this.stats == stats
      ensures HasPath(pathName)
    {
      this.kind := kind;
      this.stats := stats;
      new;
      SetPathParams(pathName);
    }

    /** `_setPathParams`: all path fields are recomputed together from the new path. */
    method SetPathParams(p: string)
      modifies this
      ensures HasPath(p)
      ensures stats == old(stats)
    {
      var q := PathParamsOf(p);
      pathName := p;
      baseName := q.baseName;
      name := q.name;
      extension := q.extension;
      rootPath := q.rootPath;
      parentPath := q.parentPath;
    }

    predicate IsDirectory() {
      NodeName(kind) == "Directory"
    }

    predicate IsFile() {
      NodeName(kind) == "File"
    }

    predicate IsSymbolicLink() {
      NodeName(kind) == "SymbolicLink"
    }

    /** `isDotFile`: the base name starts with a dot (the empty base name does not). */
    predicate IsDotFile()
      reads this
    {
      |baseName| > 0 && baseName[0] == '.'
    }

    /** `getStatProp`: a property of the cached stats, `undefined` when there are none. */
    function StatProp(propName: string): (v: JsValue)
      reads this
      ensures stats.None? ==> v == Undefined
      ensures stats.Some? && propName == "mode" ==> v == Num(stats.value.mode as int)
    {
      match stats
      case None => Undefined
      case Some(s) => if propName == "mode" then Num(s.mode as int) else Get(s.props, propName)
    }

    /**
     * `getPermissions`: throws without cached stats; otherwise each flag is the matching
     * POSIX permission bit of the mode.
     */
    function GetPermissions(): (r: Result<Permissions.Permissions>)
      reads this
      ensures stats.None? <==> r == Err(NoStatsMessage)
      ensures r.Ok? ==> var m := stats.value.mode;
        && r.value.read == Permissions.Triple(m & Permissions.S_IRUSR != 0, m & Permissions.S_IRGRP != 0, m & Permissions.S_IROTH != 0)
        && r.value.write == Permissions.Triple(m & Permissions.S_IWUSR != 0, m & Permissions.S_IWGRP != 0, m & Permissions.S_IWOTH != 0)
        && r.value.execute == Permissions.Triple(m & Permissions.S_IXUSR != 0, m & Permissions.S_IXGRP != 0, m & Permissions.S_IXOTH != 0)
    {
      match stats
      case None => Err(NoStatsMessage)
      case Some(s) => Ok(Permissions.Decode(s.mode))
    }

    /**
     * `getOctalPermissions`: the base-8 digits of the low nine mode bits, one to three of them;
     * reading `mode` of missing stats throws.
     */
    function GetOctalPermissions(): (r: Result<string>)
      reads this
      ensures stats.None? <==> r == Err(NoModeMessage)
      ensures r.Ok? ==> 1 <= |r.value| <= 3 && forall i :: 0 <= i < |r.value| ==> '0' <= r.value[i] <= '7'
      ensures r.Ok? ==> Permissions.OctalValue(r.value) == Permissions.PermissionBits(stats.value.mode)
      ensures r.Ok? && Permissions.PermissionBits(stats.value.mode) > 0 ==> r.value[0] != '0'
      ensures r.Ok? && Permissions.PermissionBits(stats.value.mode) == 0 ==> r.value == "0"
    {
      match stats
      case None => Err(NoModeMessage)
      case Some(s) => Ok(Permissions.OctalPermissions(s.mode))
    }

    /** `renewStatsSync`: the stats `lstat` reports replace the cached ones; a failure throws. */
    method RenewStatsSync(lstat: string -> Result<Stats>) returns (st: Status)
      modifies this
      ensures pathName == old(pathName) && baseName == old(baseName) && name == old(name)
      ensures extension == old(extension) && parentPath == old(parentPath) && rootPath == old(rootPath)
      ensures lstat(pathName).Ok? ==> st == Done && stats == Some(lstat(pathName).value)
      ensures lstat(pathName).Err? ==> st == Failed(lstat(pathName).message) && stats == old(stats)
    {
      var s := lstat(pathName);
      if s.Err? {
        return Failed(s.message);
      }
      stats := Some(s.value);
      return Done;
    }

    /**
     * `__resolvePath(dir)`: the node's base name joined to the directory `dir` names, which
     * must be absolute.
     */
    function ResolvePath(dir: JsValue): (r: Result<string>)
      reads this, RefsOf(dir)
      ensures r.Ok? <==> DirPathOf(dir).Ok? && PosixPath.IsAbsolute(DirPathOf(dir).value)
      ensures DirPathOf(dir).Err? ==> r == Err(DirPathOf(dir).message)
      ensures DirPathOf(dir).Ok? && !PosixPath.IsAbsolute(DirPathOf(dir).value) ==> r == Err(DirAbsoluteMessage)
      ensures r.Ok? ==> r.value == PosixPath.Join(DirPathOf(dir).value, baseName)
      ensures r.Ok? && PosixPath.IsPlainSegment(baseName) ==> PosixPath.Parse(r.value).base == baseName
    {
      match DirPathOf(dir)
      case Err(m) => Err(m)
      case Ok(d) =>
        if !PosixPath.IsAbsolute(d) then Err(DirAbsoluteMessage)
        else
          PosixPath.JoinKeepsBase(d, baseName);
          Ok(PosixPath.Join(d, baseName))
    }

    /**
     * `renameSync(newPath)` (and the state change of `rename` once its promise settles):
     * on success of the filesystem rename the path fields describe `newPath`; on failure
     * nothing changes. The cached stats are kept either way.
     */
    method RenameSync(newPath: string, rename: (string, string) -> Status) returns (st: Status)
      modifies this
      ensures st == rename(old(pathName), newPath)
      ensures st.Done? ==> HasPath(newPath) && stats == old(stats)
      ensures st.Failed? ==> unchanged(this)
    {
      st := rename(pathName, newPath);
      if st.Done? {
        SetPathParams(newPath);
      }
    }

    /**
     * `moveToSync(targetDir)`: resolves the target path first (which may throw), then moves;
     * only a successful move updates the path fields, and the cached stats are kept.
     */
    method MoveToSync(targetDir: JsValue, move: (string, string) -> Status) returns (st: Status)
      modifies this
      ensures var t := old(ResolvePath(targetDir));
        && (t.Err? ==> st == Failed(t.message))
        && (t.Ok? ==> st == move(old(pathName), t.value))
        && (st.Done? ==> t.Ok? && HasPath(t.value) && stats == old(stats))
      ensures st.Failed? ==> unchanged(this)
    {
      var t := ResolvePath(targetDir);
      if t.Err? {
        return Failed(t.message);
      }
      st := move(pathName, t.value);
      if st.Done? {
        SetPathParams(t.value);
      }
    }

    /**
     * `moveTo(targetDir, options)`: as `moveToSync`, except that a function passed as
     * `options` throws once the target path is resolved and before anything moves.
     */
    method MoveTo(targetDir: JsValue, options: JsValue, move: (string, string) -> Status) returns (st: Status)
      modifies this
      ensures var t := old(ResolvePath(targetDir));
        && (t.Err? ==> st == Failed(t.message))
        && (t.Ok? && options.Fn? ==> st == Failed(CallbackMessage))
        && (t.Ok? && !options.Fn? ==> st == move(old(pathName), t.value))
        && (st.Done? ==> t.Ok? && HasPath(t.value) && stats == old(stats))
      ensures st.Failed? ==> unchanged(this)
    {
      var t := ResolvePath(targetDir);
      if t.Err? {
        return Failed(t.message);
      }
      if options.Fn? {
        return Failed(CallbackMessage);
      }
      st := move(pathName, t.value);
      if st.Done? {
        SetPathParams(t.value);
      }
    }

    /** The directory relative queries look in: a directory's own path, otherwise the parent's. */
    function RelativeCwd(): (cwd: string)
      reads this
      ensures IsDirectory() ==> cwd == pathName
      ensures !IsDirectory() ==> cwd == parentPath
    {
      if NodeName(kind) == "Directory" then pathName else parentPath
    }

    /**
     * `__normalizeRelativeGlobOptions(...arguments)`: sorts the arguments into pattern and
     * options, rejects the wrong types, makes `ignore` an array, builds a filter only for a
     * pattern that is given, and points `cwd` at `RelativeCwd()`.
     */
    method NormalizeRelativeGlobOptions(args: seq<JsValue>) returns (r: Result<RelativeQuery>)
      requires !IsInstance(OptionsArg(args))
      modifies ObjectOf(OptionsArg(args))
      ensures RelativeError(args).Some? ==> r == Err(RelativeError(args).value) && unchanged(ObjectOf(OptionsArg(args)))
      ensures RelativeError(args).None? ==> r.Ok?
      ensures r.Ok? ==>
        var given := OptionsArg(args);
        var o := r.value.options;
        var before := if given.Obj? then old(given.obj.props) else map[];
        && (given.Obj? ==> o == given.obj)
        && (!given.Obj? ==> fresh(o))
        && o.props == RelativeProps(before, RelativeCwd())
        && r.value.filter == RelativeFilter(PatternArg(args), before)
    {
      var pattern := PatternArg(args);
      var given := OptionsArg(args);
      var e := RelativeError(args);
      if e.Some? {
        return Err(e.value);
      }
      var o: PlainObject;
      if given.Obj? {
        o := given.obj;
      } else {
        o := new PlainObject(map[]);
      }
      var before := o.props;
      o.props := o.props["ignore" := IgnoreList(Get(o.props, "ignore"))];
      var filter := RelativeFilter(pattern, before);
      o.props := o.props["cwd" := Str(RelativeCwd())];
      return Ok(RelativeQuery(o, filter));
    }

    /**
     * The options `siblingsSync`/`siblings` query with, as the source computes them: the
     * relative options with this node's own path pushed onto `ignore`.
     */
    method SiblingsOptionsAsWritten(args: seq<JsValue>) returns (r: Result<RelativeQuery>)
      requires !IsInstance(OptionsArg(args))
      modifies ObjectOf(OptionsArg(args))
      ensures RelativeError(args).Some? ==> r == Err(RelativeError(args).value) && unchanged(ObjectOf(OptionsArg(args)))
      ensures RelativeError(args).None? ==> r.Ok?
      ensures r.Ok? ==>
        var given := OptionsArg(args);
        var before := if given.Obj? then old(given.obj.props) else map[];
        var ignore := Arr(IgnoreList(Get(before, "ignore")).elems + [Str(pathName)]);
        && (given.Obj? ==> r.value.options == given.obj)
        && (!given.Obj? ==> fresh(r.value.options))
        && r.value.options.props == RelativeProps(before, RelativeCwd())["ignore" := ignore]
        && Get(r.value.options.props, "cwd") == Str(RelativeCwd())
        && Get(r.value.options.props, "ignore") == ignore
        && r.value.filter == RelativeFilter(PatternArg(args), before)
    {
      r := NormalizeRelativeGlobOptions(args);
      if r.Ok? {
        var o := r.value.options;
        o.props := o.props["ignore" := Arr(Get(o.props, "ignore").elems + [Str(pathName)])];
      }
    }

    /**
     * The options siblings are meant to be queried with: as `SiblingsOptionsAsWritten`, but
     * `cwd` is the parent directory for every kind of node, a directory included.
     */
    method SiblingsOptions(args: seq<JsValue>) returns (r: Result<RelativeQuery>)
      requires !IsInstance(OptionsArg(args))
      modifies ObjectOf(OptionsArg(args))
      ensures RelativeError(args).Some? ==> r == Err(RelativeError(args).value) && unchanged(ObjectOf(OptionsArg(args)))
      ensures RelativeError(args).None? ==> r.Ok?
      ensures r.Ok? ==>
        var given := OptionsArg(args);
        var before := if given.Obj? then old(given.obj.props) else map[];
        var ignore := Arr(IgnoreList(Get(before, "ignore")).elems + [Str(pathName)]);
        && (given.Obj? ==> r.value.options == given.obj)
        && (!given.Obj? ==> fresh(r.value.options))
        && r.value.options.props == RelativeProps(before, parentPath)["ignore" := ignore]
        && Get(r.value.options.props, "cwd") == Str(parentPath)
        && Get(r.value.options.props, "ignore") == ignore
        && r.value.filter == RelativeFilter(PatternArg(args), before)
    {
      r := NormalizeRelativeGlobOptions(args);
      if r.Ok? {
        var o := r.value.options;
        o.props := o.props["ignore" := Arr(Get(o.props, "ignore").elems + [Str(pathName)])]["cwd" := Str(parentPath)];
      }
    }
  }

  // ------------------------------------------------------------------ kind predicates

  /**
   * A generic node answers no to all three kind tests; each subclass answers yes to exactly
   * its own.
   */
  lemma KindPredicates(n: Node)
    ensures n.kind == GenericNode ==> !n.IsDirectory() && !n.IsFile() && !n.IsSymbolicLink()
    ensures n.IsDirectory() <==> n.kind == DirectoryNode
    ensures n.IsFile() <==> n.kind == FileNode
    ensures n.IsSymbolicLink() <==> n.kind == SymbolicLinkNode
  {
  }

  /**
   * The library's test: with or without a trailing slash, `/foo/bar` resolves a node's
   * plain base name to the same path.
   */
  lemma ResolveTrailingSlash(n: Node)
    requires PosixPath.IsPlainSegment(n.baseName)
    ensures n.ResolvePath(Str("/foo/bar")).Ok?
    ensures n.ResolvePath(Str("/foo/bar/")) == n.ResolvePath(Str("/foo/bar"))
  {
    var d := "/foo/bar";
    assert d + "/" == "/foo/bar/";
    assert DirPathOf(Str(d)) == Ok(d) && DirPathOf(Str(d + "/")) == Ok(d + "/");
    assert PosixPath.IsAbsolute(d) && PosixPath.IsAbsolute(d + "/");
    PosixPath.JoinTrailingSlash(d, n.baseName);
    assert n.ResolvePath(Str(d)) == Ok(PosixPath.Join(d, n.baseName));
    assert n.ResolvePath(Str(d + "/")) == Ok(PosixPath.Join(d + "/", n.baseName));
  }

  /**
   * A directory at `/a/b` has `/a` as parent, yet its relative queries look in `/a/b`: the
   * options `SiblingsOptionsAsWritten` builds for it list its children, not its siblings.
   */
  lemma DirectorySiblingsCwd(n: Node)
    requires n.kind == DirectoryNode && n.HasPath("/a/b")
    ensures n.parentPath == "/a"
    ensures n.RelativeCwd() == "/a/b" != n.parentPath
  {
    PosixPath.ParseWithoutExtension("/a/b", "/a", "b");
  }

  // ------------------------------------------------------------------ relative options

  /** The pattern argument once a lone object argument has been taken as the options. */
  function PatternArg(args: seq<JsValue>): JsValue {
    if |args| == 1 && TypeName(args[0]) == "object" then Undefined
    else if |args| >= 1 then args[0] else Undefined
  }

  /** The options argument: a lone object argument, else the second one; `Undefined` stands for the default `{}`. */
  function OptionsArg(args: seq<JsValue>): JsValue {
    if |args| == 1 && TypeName(args[0]) == "object" then args[0]
    else if |args| >= 2 then args[1] else Undefined
  }

  /**
   * The error `__normalizeRelativeGlobOptions` throws, in the order of its checks. Falsy
   * options other than the default (`null`, `false`, `0`) pass the type checks and then
   * throw a `TypeError`: reading `ignore` of `null`, or (in the strict code of a class body)
   * creating the property `ignore` on a primitive.
   */
  function RelativeError(args: seq<JsValue>): (e: Option<string>)
    ensures e.None? <==> (!Truthy(PatternArg(args)) || PatternArg(args).Str?)
                         && (OptionsArg(args).Undefined? || OptionsArg(args).Obj? || IsInstance(OptionsArg(args)))
  {
    var pattern := PatternArg(args);
    var options := OptionsArg(args);
    if Truthy(pattern) && TypeName(pattern) != "string" then Some("`pattern` parameter should be a string!")
    else if TypeName(options) == "string" then Some("Relational queries do not accept `context` paramter!")
    else if Truthy(options) && TypeName(options) != "object" then Some("Invalid type for `options` parameter!")
    else if options.Undefined? || TypeName(options) == "object" then None
    else Some(IgnoreTypeMessage(options))
  }

  /** The `TypeError` V8 raises for `options.ignore` on falsy options that are not objects. */
  function IgnoreTypeMessage(options: JsValue): string {
    match options
    case Null => "Cannot read properties of null (reading 'ignore')"
    case Bool(_) => "Cannot create property 'ignore' on boolean 'false'"
    case Num(_) => "Cannot create property 'ignore' on number '0'"
    case _ => "Cannot create property 'ignore' on " + TypeName(options)
  }

  /**
   * `ignore` made an array: an array stays, another truthy value is wrapped, a missing or
   * falsy one becomes empty.
   */
  function IgnoreList(ignore: JsValue): (r: JsValue)
    ensures r.Arr?
    ensures ignore.Arr? ==> r == ignore
    ensures Truthy(ignore) && !ignore.Arr? ==> r.elems == [ignore]
    ensures !Truthy(ignore) ==> r.elems == []
  {
    if Truthy(ignore) then (if ignore.Arr? then ignore else Arr([ignore])) else Arr([])
  }

  /** The options a relative query ends with, from the properties the options object had. */
  function RelativeProps(before: map<string, JsValue>, cwd: string): (after: map<string, JsValue>)
    ensures Get(after, "cwd") == Str(cwd)
    ensures Get(after, "ignore") == IgnoreList(Get(before, "ignore"))
    ensures forall k :: k in before && k != "cwd" && k != "ignore" ==> k in after && after[k] == before[k]
    ensures after.Keys == before.Keys + {"cwd", "ignore"}
  {
    before["ignore" := IgnoreList(Get(before, "ignore"))]["cwd" := Str(cwd)]
  }

  /** A filter is built only for a truthy pattern; its `dot` is the truthiness of `options.dot`. */
  function RelativeFilter(pattern: JsValue, before: map<string, JsValue>): (f: Option<MatchFilter>)
    ensures f.Some? <==> Truthy(pattern)
    ensures f.Some? && pattern.Str? ==> f.value == MatchFilter(pattern.s, Truthy(Get(before, "dot")))
  {
    if Truthy(pattern) then
      Some(MatchFilter(if pattern.Str? then pattern.s else "", Truthy(Get(before, "dot"))))
    else None
  }

  /** The error cases of the library's tests: an array pattern, a string context, array options. */
  lemma RelativeErrorExamples()
    ensures RelativeError([Arr([]), Undefined]) == Some("`pattern` parameter should be a string!")
    ensures RelativeError([Str("*"), Str("context")]) == Some("Relational queries do not accept `context` paramter!")
    ensures RelativeError([Str("*"), Arr([])]) == Some("Invalid type for `options` parameter!")
  {
  }

  // ------------------------------------------------------------------ glob options

  /**
   * `Node.__normalizeGlobOptions(options)`: no options give a fresh `{absolute: true}`, a
   * string `s` a fresh `{cwd: s, absolute: true}`, an object is returned itself with
   * `absolute` forced to true; every other type throws.
   */
  method NormalizeGlobOptions(options: JsValue) returns (r: Result<PlainObject>)
    requires !IsInstance(options)
    modifies ObjectOf(options)
    ensures options.Undefined? ==> r.Ok? && fresh(r.value) && r.value.props == map["absolute" := Bool(true)]
    ensures options.Str? ==> r.Ok? && fresh(r.value) && r.value.props == map["cwd" := options, "absolute" := Bool(true)]
    ensures options.Obj? ==> r == Ok(options.obj) && options.obj.props == old(options.obj.props)["absolute" := Bool(true)]
    ensures !(options.Undefined? || options.Str? || options.Obj?) ==>
      r == Err(GlobOptionsMessage)
    ensures r.Ok? ==> Get(r.value.props, "absolute") == Bool(true)
  {
    var t := TypeName(options);
    if t != "undefined" && t != "string" && t != "object" {
      return Err(GlobOptionsMessage);
    }
    var o: PlainObject;
    if options.Str? {
      o := new PlainObject(map["cwd" := options]);
    } else if options.Obj? {
      o := options.obj;
    } else {
      o := new PlainObject(map[]);
    }
    o.props := o.props["absolute" := Bool(true)];
    return Ok(o);
  }

  // ------------------------------------------------------------------ stats to nodes

  /** The class `__statsToNode` picks: File before Directory before SymbolicLink, else Node. */
  function StatsToKind(s: Stats): (k: NodeKind)
    ensures s.isFile ==> k == FileNode
    ensures !s.isFile && s.isDirectory ==> k == DirectoryNode
    ensures !s.isFile && !s.isDirectory && s.isSymbolicLink ==> k == SymbolicLinkNode
    ensures !s.isFile && !s.isDirectory && !s.isSymbolicLink ==> k == GenericNode
  {
    if s.isFile then FileNode
    else if s.isDirectory then DirectoryNode
    else if s.isSymbolicLink then SymbolicLinkNode
    else GenericNode
  }

  /**
   * Stats that answer yes to exactly one type test (or to none) give the class of that test,
   * with `NODE_TYPE` 2, 1, 3 or 0, as the mocked stats of the library's tests do.
   */
  lemma StatsToKindExclusive(s: Stats)
    ensures s.isFile && !s.isDirectory && !s.isSymbolicLink ==> NodeType(StatsToKind(s)) == 2
    ensures s.isDirectory && !s.isFile && !s.isSymbolicLink ==> NodeType(StatsToKind(s)) == 1
    ensures s.isSymbolicLink && !s.isFile && !s.isDirectory ==> NodeType(StatsToKind(s)) == 3
    ensures !s.isFile && !s.isDirectory && !s.isSymbolicLink ==> NodeType(StatsToKind(s)) == 0
  {
  }

  /** `Node.__statsToNode(pathName, stats)`: a fresh node of the class the stats indicate. */
  method StatsToNode(pathName: string, s: Stats) returns (n: Node)
    ensures fresh(n)
    ensures n.kind == StatsToKind(s) && n.HasPath(pathName) && n.stats == Some(s)
  {
    n := new Node(StatsToKind(s), pathName, Some(s));
  }

  /** Node `n` is the one `toNodesSync` builds for `path`: classified from the stats `lstat` reports. */
  predicate BuiltFor(n: Node, path: string, lstat: string -> Result<Stats>)
    reads n
  {
    && lstat(path).Ok?
    && n.kind == StatsToKind(lstat(path).value)
    && n.stats == Some(lstat(path).value)
    && n.HasPath(path)
  }

  /** The nodes `toNodesSync` builds: node `i` is classified from the stats of path `i`. */
  predicate Classified(nodes: seq<Node>, paths: seq<string>, lstat: string -> Result<Stats>)
    reads set i | 0 <= i < |nodes| :: nodes[i]
  {
    |nodes| == |paths| && forall i :: 0 <= i < |nodes| ==> BuiltFor(nodes[i], paths[i], lstat)
  }

  /** Classified nodes carry their paths, in order. */
  lemma ClassifiedPaths(nodes: seq<Node>, paths: seq<string>, lstat: string -> Result<Stats>)
    requires Classified(nodes, paths, lstat)
    ensures forall i :: 0 <= i < |nodes| ==> nodes[i].pathName == paths[i]
  {
    forall i | 0 <= i < |nodes| ensures nodes[i].pathName == paths[i] {
      assert BuiltFor(nodes[i], paths[i], lstat);
    }
  }

  /** The index of the first path at or after `from` that `lstat` fails on, `|paths|` when it fails on none. */
  function FirstFailure(paths: seq<string>, lstat: string -> Result<Stats>, from: nat := 0): (k: nat)
    requires from <= |paths|
    ensures from <= k <= |paths|
    ensures forall i :: from <= i < k ==> lstat(paths[i]).Ok?
    ensures k < |paths| ==> lstat(paths[k]).Err?
    decreases |paths| - from
  {
    if from == |paths| then from
    else if lstat(paths[from]).Err? then from
    else FirstFailure(paths, lstat, from + 1)
  }

  /**
   * `Node.toNodesSync(pathNames)`: one fresh node per path, in order, each classified by the
   * stats `lstat` reports for it; the first path whose `lstat` fails throws.
   */
  method ToNodesSync(paths: seq<string>, lstat: string -> Result<Stats>) returns (r: Result<seq<Node>>)
    ensures FirstFailure(paths, lstat) < |paths| ==>
      r == Err(lstat(paths[FirstFailure(paths, lstat)]).message)
    ensures FirstFailure(paths, lstat) == |paths| ==> r.Ok?
    ensures r.Ok? ==> Classified(r.value, paths, lstat)
    ensures r.Ok? ==> forall i :: 0 <= i < |r.value| ==> fresh(r.value[i])
    ensures r.Ok? ==> forall i, j :: 0 <= i < j < |r.value| ==> r.value[i] != r.value[j]
  {
    var nodes: seq<Node> := [];
    var i := 0;
    while i < |paths|
      invariant 0 <= i <= |paths|
      invariant i <= FirstFailure(paths, lstat)
      invariant |nodes| == i
      invariant forall j {:trigger BuiltFor(nodes[j], paths[j], lstat)} :: 0 <= j < i ==> BuiltFor(nodes[j], paths[j], lstat)
      invariant forall j :: 0 <= j < |nodes| ==> fresh(nodes[j])
      invariant forall j, k :: 0 <= j < k < |nodes| ==> nodes[j] != nodes[k]
    {
      var s := lstat(paths[i]);
      if s.Err? {
        return Err(s.message);
      }
      nodes := Built(nodes, paths, i, s.value, lstat);
      i := i + 1;
    }
    assert Classified(nodes, paths, lstat);
    return Ok(nodes);
  }

  /** One pass of the loop of `toNodesSync`: the node for path `i` is built and appended. */
  method Built(nodes: seq<Node>, paths: seq<string>, i: nat, s: Stats, lstat: string -> Result<Stats>)
    returns (r: seq<Node>)
    requires i < |paths| && |nodes| == i && lstat(paths[i]) == Ok(s)
    requires forall j {:trigger BuiltFor(nodes[j], paths[j], lstat)} :: 0 <= j < i ==> BuiltFor(nodes[j], paths[j], lstat)
    ensures |r| == i + 1 && r[..i] == nodes && fresh(r[i])
    ensures forall j :: 0 <= j < i ==> r[j] == nodes[j] && r[j] != r[i]
    ensures forall j {:trigger BuiltFor(r[j], paths[j], lstat)} :: 0 <= j <= i ==> BuiltFor(r[j], paths[j], lstat)
  {
    var n := StatsToNode(paths[i], s);
    r := nodes + [n];
    assert r[..i] == nodes;
    assert BuiltFor(r[i], paths[i], lstat);
  }

  // ------------------------------------------------------------------ raw queries

  /**
   * `Node.rawQuerySync(pattern, options)`: normalises the options, then returns what `glob`
   * found for them (`found`).
   */
  method RawQuerySync(options: JsValue, found: seq<string>) returns (r: Result<seq<string>>)
    requires !IsInstance(options)
    modifies ObjectOf(options)
    ensures options.Undefined? || options.Str? || options.Obj? <==> r.Ok?
    ensures r.Ok? ==> r.value == found
    ensures !r.Ok? ==> r == Err(GlobOptionsMessage)
    ensures options.Obj? ==> options.obj.props == old(options.obj.props)["absolute" := Bool(true)]
  {
    var o := NormalizeGlobOptions(options);
    if o.Err? {
      return Err(o.message);
    }
    return Ok(found);
  }

  /**
   * `Node.querySync(pattern, options)`: the paths `glob` found, turned into classified nodes.
   */
  method QuerySync(options: JsValue, found: seq<string>, lstat: string -> Result<Stats>) returns (r: Result<seq<Node>>)
    requires !IsInstance(options)
    modifies ObjectOf(options)
    ensures !(options.Undefined? || options.Str? || options.Obj?) ==> r == Err(GlobOptionsMessage)
    ensures options.Undefined? || options.Str? || options.Obj? ==>
      && (r.Ok? <==> FirstFailure(found, lstat) == |found|)
      && (FirstFailure(found, lstat) < |found| ==> r == Err(lstat(found[FirstFailure(found, lstat)]).message))
    ensures options.Obj? ==> options.obj.props == old(options.obj.props)["absolute" := Bool(true)]
    ensures r.Ok? ==> Classified(r.value, found, lstat)
    ensures r.Ok? ==> forall i :: 0 <= i < |r.value| ==> fresh(r.value[i])
    ensures r.Ok? ==> forall i, j :: 0 <= i < j < |r.value| ==> r.value[i] != r.value[j]
  {
    var paths := RawQuerySync(options, found);
    if paths.Err? {
      return Err(paths.message);
    }
    r := ToNodesSync(paths.value, lstat);
  }

  // ------------------------------------------------------------------ pattern post-filter

  /**
   * `items.filter(filterFn)` when a filter was built, `items` itself otherwise; `accepts`
   * stands for the predicate `minimatch.filter` returns.
   */
  function FilterByPattern(items: seq<string>, filter: Option<MatchFilter>, accepts: (string, MatchFilter) -> bool): (r: seq<string>)
    ensures filter.None? ==> r == items
    ensures |r| <= |items|
    ensures filter.Some? ==> forall x :: x in r <==> x in items && accepts(x, filter.value)
  {
    if filter.None? || items == [] then items
    else
      (if accepts(items[0], filter.value) then [items[0]] else [])
      + FilterByPattern(items[1..], filter, accepts)
  }

  /** Filtering distributes over concatenation, so the kept items stay in their original order. */
  lemma {:induction false} FilterByPatternAppend(a: seq<string>, b: seq<string>, filter: Option<MatchFilter>, accepts: (string, MatchFilter) -> bool)
    ensures FilterByPattern(a + b, filter, accepts) == FilterByPattern(a, filter, accepts) + FilterByPattern(b, filter, accepts)
  {
    if filter.Some? && a != [] {
      var head := if accepts(a[0], filter.value) then [a[0]] else [];
      assert (a + b)[0] == a[0];
      assert (a + b)[1..] == a[1..] + b;
      assert FilterByPattern(a + b, filter, accepts) == head + FilterByPattern(a[1..] + b, filter, accepts);
      assert FilterByPattern(a, filter, accepts) == head + FilterByPattern(a[1..], filter, accepts);
      FilterByPatternAppend(a[1..], b, filter, accepts);
    } else if a == [] {
      assert a + b == b;
    }
  }
}
