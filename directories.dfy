/**
 * The input shaping of the `Directory` node: the lists `append`/`appendSync` accept, the
 * per-entry move loop, and the options `find`/`findSync` and `children`/`childrenSync`
 * hand to `glob`.
 */
module Directories {
  import opened Outcomes
  import opened Nodes
  import opened Collection
  import PosixPath

  // ------------------------------------------------------------------ __normalizeAppendNodes

  const AppendParamPrefix := "Invalid parameter for `nodes` parameter: "

  /** Decimal digits of a natural number. */
  function Digits(n: nat): (r: string)
    ensures |r| > 0
    ensures forall i :: 0 <= i < |r| ==> '0' <= r[i] <= '9'
    decreases n
  {
    var d := ['0' + (n % 10) as char];
    if n < 10 then d else Digits(n / 10) + d
  }

  /**
   * The text a template literal puts in place of `${v}` for the values whose text does not
   * depend on the runtime. A function's source text and a date's local time are not part of
   * this model, so those two give the empty text.
   */
  function Interpolated(v: JsValue): string {
    match v
    case Undefined => "undefined"
    case Null => "null"
    case Bool(b) => if b then "true" else "false"
    case Num(n) => if n < 0 then "-" + Digits(-n) else Digits(n)
    case Str(s) => s
    case Obj(_) => "[object Object]"
    case _ => ""
  }

  /**
   * `Directory.__normalizeAppendNodes(nodes)`: a collection gives its items, a node or a
   * string a one-entry list, an array itself; any other value throws.
   */
  function NormalizeAppendNodes(nodes: JsValue): (r: Result<seq<JsValue>>)
    ensures nodes.DraxtV? ==> r == Ok(NodeValues(nodes.members))
    ensures nodes.NodeV? || nodes.Str? ==> r == Ok([nodes])
    ensures nodes.Arr? ==> r == Ok(nodes.elems)
    ensures r.Err? <==> !(nodes.DraxtV? || nodes.NodeV? || nodes.Str? || nodes.Arr?)
    ensures r.Err? ==> r.message == AppendParamPrefix + Interpolated(nodes)
  {
    match nodes
    case DraxtV(members) => Ok(NodeValues(members))
    case NodeV(_) => Ok([nodes])
    case Str(_) => Ok([nodes])
    case Arr(elems) => Ok(elems)
    case _ => Err(AppendParamPrefix + Interpolated(nodes))
  }

  /** A normalised list is an array, and normalising it again gives it back unchanged. */
  lemma NormalizeAppendNodesIdempotent(nodes: JsValue)
    requires NormalizeAppendNodes(nodes).Ok?
    ensures NormalizeAppendNodes(Arr(NormalizeAppendNodes(nodes).value)) == NormalizeAppendNodes(nodes)
  {
  }

  /** The cases of the library's tests: a string is wrapped, a date and a number are refused. */
  lemma NormalizeAppendNodesExamples()
    ensures NormalizeAppendNodes(Str("path")) == Ok([Str("path")])
    ensures NormalizeAppendNodes(Arr([Str("str")])) == Ok([Str("str")])
    ensures NormalizeAppendNodes(Date(0)).Err?
    ensures NormalizeAppendNodes(Num(-42)) == Err("Invalid parameter for `nodes` parameter: -42")
  {
  }

  // ------------------------------------------------------------------ append

  /** The nodes a list of entries names; `appendSync` may move exactly these. */
  function NodesIn(es: seq<JsValue>): set<Node> {
    set i | 0 <= i < |es| && es[i].NodeV? :: es[i].node
  }

  /** The nodes `appendSync(nodes)` may move. */
  function AppendNodes(nodes: JsValue): set<Node> {
    if NormalizeAppendNodes(nodes).Ok? then NodesIn(NormalizeAppendNodes(nodes).value) else {}
  }

  /** Where an entry is moved from, and the base name it keeps. */
  datatype Source = NodeEntry(path: string, baseName: string) | PathEntry(path: string)
  {
    /** The base name the entry keeps: a node's own, or the one `new Node` parses from the string. */
    function Base(): string {
      if NodeEntry? then baseName else PathParamsOf(path).baseName
    }
  }

  /**
   * What an entry of `append` stands for: a node its own path and base name, a string the
   * generic node built from it; any other value makes `new Node` throw.
   */
  function SourceOf(e: JsValue): Option<Source>
    reads if e.NodeV? then {e.node} else {}
  {
    match e
    case NodeV(n) => Some(NodeEntry(n.pathName, n.baseName))
    case Str(s) => Some(PathEntry(s))
    case _ => None
  }

  /** The fields of a node at one moment. */
  datatype Snapshot = Snapshot(pathName: string, baseName: string, name: string, extension: string,
                               parentPath: string, rootPath: string, stats: Option<Stats>)

  ghost function SnapshotOf(n: Node): Snapshot
    reads n
  {
    Snapshot(n.pathName, n.baseName, n.name, n.extension, n.parentPath, n.rootPath, n.stats)
  }

  /** The fields of the entries' nodes, read at one moment (a placeholder for the other entries). */
  ghost function Snapshots(es: seq<JsValue>): (r: seq<Snapshot>)
    reads NodesIn(es)
    ensures |r| == |es|
    ensures forall j {:trigger r[j]} :: 0 <= j < |es| && es[j].NodeV? ==> r[j] == SnapshotOf(es[j].node)
  {
    if es == [] then []
    else
      assert NodesIn(es[..|es| - 1]) <= NodesIn(es) by {
        forall n | n in NodesIn(es[..|es| - 1]) ensures n in NodesIn(es) {
          var i :| 0 <= i < |es| - 1 && es[..|es| - 1][i].NodeV? && es[..|es| - 1][i].node == n;
          assert es[i] == es[..|es| - 1][i];
        }
      }
      var last := es[|es| - 1];
      Snapshots(es[..|es| - 1])
        + [if last.NodeV? then SnapshotOf(last.node) else Snapshot("", "", "", "", "", "", None)]
  }

  /** `SourceOf(e)` when `e`'s node (if any) has the fields `s`. */
  function SourceFrom(e: JsValue, s: Snapshot): Option<Source> {
    match e
    case NodeV(_) => Some(NodeEntry(s.pathName, s.baseName))
    case Str(p) => Some(PathEntry(p))
    case _ => None
  }

  /** The sources of a list of entries, read at one moment. */
  ghost function Sources(es: seq<JsValue>): (r: seq<Option<Source>>)
    reads NodesIn(es)
    ensures |r| == |es|
    ensures forall j {:trigger r[j]} :: 0 <= j < |es| ==> r[j] == SourceOf(es[j])
  {
    var snap := Snapshots(es);
    seq(|es|, j requires 0 <= j < |es| => SourceFrom(es[j], snap[j]))
  }

  /**
   * One entry of the loop: building the node (which throws for a value that is not a path),
   * resolving the target in directory `d` (which throws when `d` is not absolute), and the
   * filesystem move to `d` joined with the base name.
   */
  function StepStatus(src: Option<Source>, d: string, move: (string, string) -> Status): Status {
    match src
    case None => Failed(PathTypeMessage)
    case Some(s) =>
      if !PosixPath.IsAbsolute(d) then Failed(DirAbsoluteMessage)
      else move(s.path, PosixPath.Join(d, s.Base()))
  }

  /**
   * How many entries, counted from `from`, `forEach` gets through before one throws: every
   * entry before the result succeeds, and the one at the result (if any) fails.
   */
  function FirstRefused(srcs: seq<Option<Source>>, d: string, move: (string, string) -> Status, from: nat := 0): (k: nat)
    requires from <= |srcs|
    ensures from <= k <= |srcs|
    ensures forall j :: from <= j < k ==> StepStatus(srcs[j], d, move).Done?
    ensures k < |srcs| ==> StepStatus(srcs[k], d, move).Failed?
    decreases |srcs| - from
  {
    if from == |srcs| then from
    else if StepStatus(srcs[from], d, move).Failed? then from
    else FirstRefused(srcs, d, move, from + 1)
  }

  /** The outcome of the whole loop: done when every entry was moved, else the first failure. */
  function AppendStatus(srcs: seq<Option<Source>>, d: string, move: (string, string) -> Status): (st: Status)
    ensures st.Done? <==> forall j :: 0 <= j < |srcs| ==> StepStatus(srcs[j], d, move).Done?
    ensures st.Failed? ==> st == StepStatus(srcs[FirstRefused(srcs, d, move)], d, move)
  {
    var k := FirstRefused(srcs, d, move);
    if k == |srcs| then Done else StepStatus(srcs[k], d, move)
  }

  /** An entry that succeeds before the first refusal moves the first refusal past it. */
  lemma RefusedLater(srcs: seq<Option<Source>>, d: string, move: (string, string) -> Status, i: nat)
    requires i < |srcs| && i <= FirstRefused(srcs, d, move)
    requires StepStatus(srcs[i], d, move).Done?
    ensures i + 1 <= FirstRefused(srcs, d, move)
  {
  }

  /** An entry that fails before any refusal is the first refusal, and decides the outcome. */
  lemma RefusedHere(srcs: seq<Option<Source>>, d: string, move: (string, string) -> Status, i: nat)
    requires i < |srcs| && i <= FirstRefused(srcs, d, move)
    requires StepStatus(srcs[i], d, move).Failed?
    ensures FirstRefused(srcs, d, move) == i
    ensures AppendStatus(srcs, d, move) == StepStatus(srcs[i], d, move)
  {
  }

  /**
   * Every entry the loop got through was a path, the directory was absolute, and the entry
   * now lies in that directory: for a plain base name, its new path has that base name and
   * the directory (normalised) as its parent.
   */
  lemma {:induction false} AppendPlacesInDirectory(srcs: seq<Option<Source>>, d: string, move: (string, string) -> Status)
    ensures forall j :: 0 <= j < FirstRefused(srcs, d, move) ==>
      && srcs[j].Some? && PosixPath.IsAbsolute(d)
      && (PosixPath.IsPlainSegment(srcs[j].value.Base()) ==>
            var t := PosixPath.Parse(PosixPath.Join(d, srcs[j].value.Base()));
            && t.base == srcs[j].value.Base()
            && t.dir == PosixPath.Parse(PosixPath.Join(d, "x")).dir)
  {
    forall j | 0 <= j < FirstRefused(srcs, d, move)
      ensures srcs[j].Some? && PosixPath.IsAbsolute(d)
      ensures PosixPath.IsPlainSegment(srcs[j].value.Base()) ==>
            var t := PosixPath.Parse(PosixPath.Join(d, srcs[j].value.Base()));
            && t.base == srcs[j].value.Base()
            && t.dir == PosixPath.Parse(PosixPath.Join(d, "x")).dir
    {
      assert StepStatus(srcs[j], d, move).Done?;
      if PosixPath.IsPlainSegment(srcs[j].value.Base()) {
        PosixPath.JoinPlain(d, srcs[j].value.Base());
        PosixPath.JoinPlain(d, "x");
      }
    }
  }

  /**
   * No node is named twice and the directory itself is not among the entries: the case in
   * which no entry's move changes a node object another entry reads.
   */
  predicate Separate(dir: Node, es: seq<JsValue>) {
    && (forall i :: 0 <= i < |es| && es[i].NodeV? ==> es[i].node != dir)
    && (forall i, j :: 0 <= i < j < |es| && es[i].NodeV? && es[j].NodeV? ==> es[i].node != es[j].node)
  }

  /**
   * No two entries name the same path (two equal strings, a string and a node at that path,
   * or two node objects at one path): a path is moved at most once, which `move`, a fixed
   * function of source and target, can only stand for in that case.
   */
  predicate DistinctSources(srcs: seq<Option<Source>>) {
    forall i, j :: 0 <= i < j < |srcs| && srcs[i].Some? && srcs[j].Some? ==> srcs[i].value.path != srcs[j].value.path
  }

  /** Node `n` now lies at `d` joined with `src`'s base name. */
  ghost predicate MovedInto(n: Node, src: Option<Source>, d: string)
    reads n
  {
    && src.Some? && PosixPath.IsAbsolute(d)
    && n.HasPath(PosixPath.Join(d, src.value.Base()))
  }

  /** `node.moveToSync(dir)` for a node entry, in the terms of its source. */
  method MoveNode(dir: Node, n: Node, move: (string, string) -> Status) returns (st: Status)
    requires dir.kind == DirectoryNode
    modifies n
    ensures st == old(StepStatus(Some(NodeEntry(n.pathName, n.baseName)), dir.pathName, move))
    ensures st.Done? ==> MovedInto(n, old(Some(NodeEntry(n.pathName, n.baseName))), old(dir.pathName))
    ensures n.stats == old(n.stats)
    ensures st.Failed? ==> unchanged(n)
  {
    st := n.MoveToSync(NodeV(dir), move);
  }

  /** `new Node(s).moveToSync(dir)` for a string entry: the node is built and moved. */
  method MovePath(dir: Node, s: string, move: (string, string) -> Status) returns (st: Status)
    requires dir.kind == DirectoryNode
    ensures st == old(StepStatus(Some(PathEntry(s)), dir.pathName, move))
  {
    var n := new Node(GenericNode, s, None);
    st := n.MoveToSync(NodeV(dir), move);
  }

  /** Where a source lands in `d` when it can be moved there. */
  function TargetOf(src: Option<Source>, d: string): string {
    if src.Some? && PosixPath.IsAbsolute(d) then PosixPath.Join(d, src.value.Base()) else ""
  }

  /** The fields a node with fields `s` has once it has moved from `src` into `d`. */
  function Landed(src: Option<Source>, d: string, s: Snapshot): Snapshot {
    var p := TargetOf(src, d);
    var q := PathParamsOf(p);
    Snapshot(p, q.baseName, q.name, q.extension, q.parentPath, q.rootPath, s.stats)
  }

  ghost function Afters(srcs: seq<Option<Source>>, d: string, snap: seq<Snapshot>): (r: seq<Snapshot>)
    requires |snap| == |srcs|
    ensures |r| == |srcs|
    ensures forall j {:trigger r[j]} :: 0 <= j < |srcs| ==> r[j] == Landed(srcs[j], d, snap[j])
  {
    seq(|srcs|, j requires 0 <= j < |srcs| => Landed(srcs[j], d, snap[j]))
  }

  /**
   * The body of the `forEach` callback for one entry `e`: a node is taken as it is, a
   * string becomes a generic node, anything else throws in `path.parse`; the node is then
   * moved into `dir` with `moveToSync`.
   */
  method MoveEntry(dir: Node, e: JsValue, move: (string, string) -> Status, ghost src: Option<Source>, ghost d: string)
    returns (st: Status)
    requires dir.kind == DirectoryNode
    requires src == SourceOf(e) && d == dir.pathName
    modifies if e.NodeV? then {e.node} else {}
    ensures st == StepStatus(src, d, move)
    ensures e.NodeV? && st.Done? ==> MovedInto(e.node, src, d)
    ensures e.NodeV? ==> e.node.stats == old(e.node.stats)
    ensures e.NodeV? && st.Failed? ==> unchanged(e.node)
  {
    match e
    case NodeV(n) =>
      assert src == Some(NodeEntry(n.pathName, n.baseName));
      st := MoveNode(dir, n, move);
    case Str(s) =>
      assert src == Some(PathEntry(s));
      st := MovePath(dir, s, move);
    case _ =>
      st := Failed(PathTypeMessage);
  }

  /** The entries before the first refusal that have their landed fields are `MovedInto` the directory. */
  lemma LandedMoved(es: seq<JsValue>, srcs: seq<Option<Source>>, d: string, snap: seq<Snapshot>,
                    after: seq<Snapshot>, k: nat, move: (string, string) -> Status)
    requires |srcs| == |es| == |snap| == |after| && k <= FirstRefused(srcs, d, move)
    requires forall j {:trigger after[j]} :: 0 <= j < |es| ==> after[j] == Landed(srcs[j], d, snap[j])
    requires forall j {:trigger after[j]} :: 0 <= j < k && es[j].NodeV? ==> SnapshotOf(es[j].node) == after[j]
    ensures MovedBefore(es, srcs, d, k)
  {
    forall j | 0 <= j < k && es[j].NodeV? ensures MovedInto(es[j].node, srcs[j], d) {
      assert StepStatus(srcs[j], d, move).Done?;
      assert SnapshotOf(es[j].node) == after[j];
    }
  }

  /**
   * One pass of the loop of `appendSync`, for entry `i`. When the entries are separate
   * (`separate`), the loop's invariant before the entry (the entries before it have their
   * fields `after`, the entries from it on their fields `snap` from the start) gives the
   * invariant after it, or the loop's final outcome when the entry fails.
   */
  method AppendStep(dir: Node, es: seq<JsValue>, i: nat, move: (string, string) -> Status,
                    ghost separate: bool, ghost srcs: seq<Option<Source>>, ghost d: string,
                    ghost snap: seq<Snapshot>, ghost after: seq<Snapshot>)
    returns (st: Status)
    requires dir.kind == DirectoryNode && i < |es|
    requires separate ==>
      && (es[i].NodeV? ==> es[i].node != dir)
      && (es[i].NodeV? ==> forall j :: 0 <= j < |es| && j != i && es[j].NodeV? ==> es[j].node != es[i].node)
      && |srcs| == |es| == |snap| == |after|
      && d == dir.pathName
      && srcs[i] == SourceFrom(es[i], snap[i]) && after[i] == Landed(srcs[i], d, snap[i])
      && (forall j {:trigger after[j]} :: 0 <= j < i && es[j].NodeV? ==> SnapshotOf(es[j].node) == after[j])
      && (forall j {:trigger snap[j]} :: i <= j < |es| && es[j].NodeV? ==> SnapshotOf(es[j].node) == snap[j])
    modifies if es[i].NodeV? then {es[i].node} else {}
    ensures separate ==> st == StepStatus(srcs[i], d, move)
    ensures separate ==>
      forall j {:trigger after[j]} :: 0 <= j < i && es[j].NodeV? ==> SnapshotOf(es[j].node) == after[j]
    ensures separate && st.Done? && es[i].NodeV? ==> SnapshotOf(es[i].node) == after[i]
    ensures separate ==>
      forall j {:trigger snap[j]} :: i < j < |es| && es[j].NodeV? ==> SnapshotOf(es[j].node) == snap[j]
    ensures separate && st.Failed? && es[i].NodeV? ==> SnapshotOf(es[i].node) == snap[i]
    ensures separate ==> unchanged(dir)
  {
    if separate {
      SourceAt(es, i, srcs, snap);
    }
    st := MoveEntry(dir, es[i], move, SourceOf(es[i]), dir.pathName);
    if separate {
      OthersKept(Pass(es, i, snap, after));
      if st.Failed? {
        if es[i].NodeV? {
          assert old(SnapshotOf(es[i].node)) == snap[i];
        }
      } else {
        if es[i].NodeV? {
          LandedAt(es[i].node, srcs[i], d, snap[i]);
        }
      }
    }
  }

  /** The source of entry `i` is the one recorded for it, as long as its node is as it was. */
  lemma SourceAt(es: seq<JsValue>, i: nat, srcs: seq<Option<Source>>, snap: seq<Snapshot>)
    requires i < |es| == |srcs| == |snap| && srcs[i] == SourceFrom(es[i], snap[i])
    requires forall j {:trigger snap[j]} :: i <= j < |es| && es[j].NodeV? ==> SnapshotOf(es[j].node) == snap[j]
    ensures SourceOf(es[i]) == srcs[i]
  {
    assert es[i].NodeV? ==> SnapshotOf(es[i].node) == snap[i];
  }

  /** A node `MovedInto` `d` with its stats kept has the landed fields. */
  lemma LandedAt(n: Node, src: Option<Source>, d: string, s: Snapshot)
    requires MovedInto(n, src, d) && n.stats == s.stats
    ensures SnapshotOf(n) == Landed(src, d, s)
  {
  }

  /** Entry `i`, moved, joins the entries before it that have their landed fields. */
  lemma MovedOn(es: seq<JsValue>, i: nat, after: seq<Snapshot>)
    requires i < |es| == |after|
    requires forall j {:trigger after[j]} :: 0 <= j < i && es[j].NodeV? ==> SnapshotOf(es[j].node) == after[j]
    requires es[i].NodeV? ==> SnapshotOf(es[i].node) == after[i]
    ensures forall j {:trigger after[j]} :: 0 <= j < i + 1 && es[j].NodeV? ==> SnapshotOf(es[j].node) == after[j]
  {
  }

  /** Entry `i`, left as it was, joins the entries after it that have their fields from the start. */
  lemma StoppedAt(es: seq<JsValue>, i: nat, snap: seq<Snapshot>)
    requires i < |es| == |snap|
    requires forall j {:trigger snap[j]} :: i < j < |es| && es[j].NodeV? ==> SnapshotOf(es[j].node) == snap[j]
    requires es[i].NodeV? ==> SnapshotOf(es[i].node) == snap[i]
    ensures forall j {:trigger snap[j]} :: i <= j < |es| && es[j].NodeV? ==> SnapshotOf(es[j].node) == snap[j]
  {
  }

  /**
   * The ghost state of the loop of `appendSync` at entry `i`: the entries, their fields at
   * the start (`snap`) and the fields each has once it has moved (`after`).
   */
  datatype Pass = Pass(es: seq<JsValue>, i: nat, snap: seq<Snapshot>, after: seq<Snapshot>)

  /** The entries other than entry `p.i`, left alone by its move, keep the fields the loop knows of. */
  twostate lemma OthersKept(p: Pass)
    requires p.i < |p.es| == |p.snap| == |p.after|
    requires forall j :: 0 <= j < |p.es| && j != p.i && p.es[j].NodeV? ==> unchanged(p.es[j].node)
    requires old(forall j {:trigger p.after[j]} ::
      0 <= j < p.i && p.es[j].NodeV? ==> SnapshotOf(p.es[j].node) == p.after[j])
    requires old(forall j {:trigger p.snap[j]} ::
      p.i <= j < |p.es| && p.es[j].NodeV? ==> SnapshotOf(p.es[j].node) == p.snap[j])
    ensures forall j {:trigger p.after[j]} ::
      0 <= j < p.i && p.es[j].NodeV? ==> SnapshotOf(p.es[j].node) == p.after[j]
    ensures forall j {:trigger p.snap[j]} ::
      p.i < j < |p.es| && p.es[j].NodeV? ==> SnapshotOf(p.es[j].node) == p.snap[j]
  {
    forall j | 0 <= j < p.i && p.es[j].NodeV? ensures SnapshotOf(p.es[j].node) == p.after[j] {
      assert old(SnapshotOf(p.es[j].node)) == p.after[j];
    }
    forall j | p.i < j < |p.es| && p.es[j].NodeV? ensures SnapshotOf(p.es[j].node) == p.snap[j] {
      assert old(SnapshotOf(p.es[j].node)) == p.snap[j];
    }
  }

  /**
   * When the loop stops at entry `i`, the entries from it on still have their fields `snap`
   * from the start, and every entry has its stats from the start.
   */
  lemma SnapshotsKept(es: seq<JsValue>, i: nat, snap: seq<Snapshot>, after: seq<Snapshot>)
    requires |snap| == |es| == |after| && i <= |es|
    requires forall j {:trigger after[j]} :: 0 <= j < |es| ==> after[j].stats == snap[j].stats
    requires forall j {:trigger after[j]} :: 0 <= j < i && es[j].NodeV? ==> SnapshotOf(es[j].node) == after[j]
    requires forall j {:trigger snap[j]} :: i <= j < |es| && es[j].NodeV? ==> SnapshotOf(es[j].node) == snap[j]
    ensures KeptFrom(es, snap, i)
    ensures StatsKept(es, snap)
  {
    forall j | 0 <= j < |es| && es[j].NodeV? ensures es[j].node.stats == snap[j].stats {
      if j < i {
        assert SnapshotOf(es[j].node) == after[j];
      } else {
        assert SnapshotOf(es[j].node) == snap[j];
      }
    }
  }

  /** The node entries before `k` have moved into `d`, each with its source's base name. */
  ghost predicate MovedBefore(es: seq<JsValue>, srcs: seq<Option<Source>>, d: string, k: nat)
    reads NodesIn(es)
  {
    forall j :: 0 <= j < k && j < |es| && j < |srcs| && es[j].NodeV? ==> MovedInto(es[j].node, srcs[j], d)
  }

  /** The node entries from `k` on have all the fields `snap` records for them. */
  ghost predicate KeptFrom(es: seq<JsValue>, snap: seq<Snapshot>, k: nat)
    reads NodesIn(es)
  {
    forall j :: k <= j < |es| && j < |snap| && es[j].NodeV? ==> SnapshotOf(es[j].node) == snap[j]
  }

  /** Every node entry has the stats `snap` records for it. */
  ghost predicate StatsKept(es: seq<JsValue>, snap: seq<Snapshot>)
    reads NodesIn(es)
  {
    forall j :: 0 <= j < |es| && j < |snap| && es[j].NodeV? ==> es[j].node.stats == snap[j].stats
  }

  /**
   * The loop of `appendSync` over the normalised entries `es`: each entry is handled by
   * `MoveEntry` in turn, and the first one that throws stops the loop. When the entries are
   * separate, it stops at `FirstRefused` with `AppendStatus` as outcome, the entries before
   * have their landed fields `after` and the others their fields `snap` from the start.
   */
  method MoveEntries(dir: Node, es: seq<JsValue>, move: (string, string) -> Status,
                     ghost separate: bool, ghost srcs: seq<Option<Source>>, ghost d: string,
                     ghost snap: seq<Snapshot>, ghost after: seq<Snapshot>)
    returns (st: Status, ghost k: nat)
    requires dir.kind == DirectoryNode
    requires separate ==>
      && Separate(dir, es) && |srcs| == |es| == |snap| == |after| && d == dir.pathName
      && (forall j {:trigger srcs[j]} :: 0 <= j < |es| ==> srcs[j] == SourceFrom(es[j], snap[j]))
      && (forall j {:trigger after[j]} :: 0 <= j < |es| ==> after[j] == Landed(srcs[j], d, snap[j]))
      && (forall j {:trigger snap[j]} :: 0 <= j < |es| && es[j].NodeV? ==> SnapshotOf(es[j].node) == snap[j])
    modifies NodesIn(es)
    ensures separate ==>
      && k == FirstRefused(srcs, d, move) && st == AppendStatus(srcs, d, move) && unchanged(dir)
      && (forall j {:trigger after[j]} :: 0 <= j < k && es[j].NodeV? ==> SnapshotOf(es[j].node) == after[j])
      && (forall j {:trigger snap[j]} :: k <= j < |es| && es[j].NodeV? ==> SnapshotOf(es[j].node) == snap[j])
  {
    var i := 0;
    while i < |es|
      invariant 0 <= i <= |es|
      invariant separate ==> i <= FirstRefused(srcs, d, move)
      invariant separate ==> unchanged(dir)
      invariant separate ==> forall j {:trigger after[j]} ::
        0 <= j < i && es[j].NodeV? ==> SnapshotOf(es[j].node) == after[j]
      invariant separate ==> forall j {:trigger snap[j]} ::
        i <= j < |es| && es[j].NodeV? ==> SnapshotOf(es[j].node) == snap[j]
    {
      assert es[i].NodeV? ==> es[i].node in NodesIn(es);
      st := AppendStep(dir, es, i, move, separate, srcs, d, snap, after);
      if st.Failed? {
        if separate {
          RefusedHere(srcs, d, move, i);
          StoppedAt(es, i, snap);
        }
        return st, i;
      }
      if separate {
        RefusedLater(srcs, d, move, i);
        MovedOn(es, i, after);
      }
      i := i + 1;
    }
    return Done, i;
  }

  /**
   * `directory.appendSync(nodes, options)`: the argument is normalised to a list of entries,
   * which `MoveEntries` moves into the directory in turn. When the entries are separate
   * nodes and name distinct paths, the outcome is `AppendStatus` of their sources, exactly the entries before
   * `FirstRefused` have moved, the cached stats are kept, and nothing else has changed.
   */
  method AppendSync(dir: Node, nodes: JsValue, move: (string, string) -> Status) returns (st: Status)
    requires dir.kind == DirectoryNode
    modifies AppendNodes(nodes)
    ensures NormalizeAppendNodes(nodes).Err? ==> st == Failed(NormalizeAppendNodes(nodes).message)
    ensures var r := NormalizeAppendNodes(nodes);
      r.Ok? && Separate(dir, r.value) && DistinctSources(old(Sources(r.value))) ==>
      var es := r.value;
      var srcs := old(Sources(es));
      var snap := old(Snapshots(es));
      var d := old(dir.pathName);
      var k := FirstRefused(srcs, d, move);
      && st == AppendStatus(srcs, d, move)
      && unchanged(dir)
      && MovedBefore(es, srcs, d, k)
      && KeptFrom(es, snap, k)
      && StatsKept(es, snap)
  {
    var r := NormalizeAppendNodes(nodes);
    if r.Err? {
      return Failed(r.message);
    }
    var es := r.value;
    ghost var snap := Snapshots(es);
    ghost var srcs := Sources(es);
    ghost var separate := Separate(dir, es) && DistinctSources(srcs);
    ghost var d := dir.pathName;
    // the fields each entry has once it has moved
    ghost var after := Afters(srcs, d, snap);
    ghost var k;
    st, k := MoveEntries(dir, es, move, separate, srcs, d, snap, after);
    if separate {
      LandedMoved(es, srcs, d, snap, after, k, move);
      SnapshotsKept(es, k, snap, after);
    }
  }

  /**
   * The library's test: a file node and a path string both get through the loop when the
   * directory is absolute and the filesystem accepts every move, and the file keeps its
   * base name in the directory.
   */
  lemma AppendExample()
    ensures var srcs := [Some(NodeEntry("/fake_dir/non_empty_dir/file.rb", "file.rb")),
                         Some(PathEntry("/fake_dir/non_empty_dir/foo"))];
      var always := (a: string, b: string) => Done;
      && DistinctSources(srcs)
      && FirstRefused(srcs, "/fake_dir/empty_dir", always) == 2
      && AppendStatus(srcs, "/fake_dir/empty_dir", always) == Done
  {
    var srcs := [Some(NodeEntry("/fake_dir/non_empty_dir/file.rb", "file.rb")),
                 Some(PathEntry("/fake_dir/non_empty_dir/foo"))];
    var always := (a: string, b: string) => Done;
    assert PosixPath.IsAbsolute("/fake_dir/empty_dir");
    assert StepStatus(srcs[0], "/fake_dir/empty_dir", always) == Done;
    assert StepStatus(srcs[1], "/fake_dir/empty_dir", always) == Done;
  }

  // ------------------------------------------------------------------ find

  /** Setting `cwd` between two settings of `absolute` leaves the second one without effect. */
  lemma AbsoluteTwice(m: map<string, JsValue>, cwd: JsValue)
    ensures m["absolute" := Bool(true)]["cwd" := cwd]["absolute" := Bool(true)]
         == m["absolute" := Bool(true)]["cwd" := cwd]
  {
    var a := m["absolute" := Bool(true)]["cwd" := cwd];
    assert a["absolute" := Bool(true)].Keys == a.Keys;
  }

  /**
   * `directory.findSync(selector, options)`: the options are normalised (so `absolute` is
   * true), `cwd` is then this directory's path whatever the caller gave, and the paths
   * `glob` finds become a collection. `used` is the options object `glob` receives; a
   * caller's object is that object.
   */
  method FindSync(dir: Node, options: JsValue, found: seq<string>, lstat: string -> Result<Stats>)
    returns (r: Result<Draxt>, ghost used: map<string, JsValue>)
    requires !IsInstance(options)
    modifies ObjectOf(options)
    ensures !(options.Undefined? || options.Str? || options.Obj?) ==> r == Err(GlobOptionsMessage)
    ensures options.Undefined? || options.Str? || options.Obj? ==>
      var given := if options.Obj? then old(options.obj.props) else if options.Str? then map["cwd" := options] else map[];
      && used == given["absolute" := Bool(true)]["cwd" := Str(dir.pathName)]
      && (r.Ok? <==> FirstFailure(found, lstat) == |found|)
      && (FirstFailure(found, lstat) < |found| ==> r == Err(lstat(found[FirstFailure(found, lstat)]).message))
    ensures options.Obj? ==> options.obj.props == used
    ensures r.Ok? ==> fresh(r.value) && UniquePaths(r.value.items)
    ensures r.Ok? ==> forall p :: p in PathsOf(r.value.items) <==> p in found
    ensures r.Ok? && Distinct(found) ==> PathsOf(r.value.items) == found
    ensures r.Ok? ==> AllBuilt(r.value.items, lstat)
  {
    used := map[];
    var o := NormalizeGlobOptions(options);
    if o.Err? {
      return Err(o.message), used;
    }
    var obj := o.value;
    ghost var given := if options.Obj? then old(options.obj.props) else if options.Str? then map["cwd" := options] else map[];
    assert obj.props == given["absolute" := Bool(true)];
    obj.props := obj.props["cwd" := Str(dir.pathName)];
    var nodes := QuerySync(Obj(obj), found, lstat);
    used := obj.props;
    AbsoluteTwice(given, Str(dir.pathName));
    if nodes.Err? {
      return Err(nodes.message), used;
    }
    var c := CollectionOf(nodes.value, found, lstat);
    return Ok(c), used;
  }

  // ------------------------------------------------------------------ children

  /**
   * `directory.childrenSync(pattern, options)`: the relative options (with `cwd` this
   * directory's path) expand `*`, a given pattern then keeps the accepted paths in their
   * order, and the kept paths become a collection. `used` is the options object `glob`
   * receives.
   */
  method ChildrenSync(dir: Node, args: seq<JsValue>, found: seq<string>,
                      accepts: (string, MatchFilter) -> bool, lstat: string -> Result<Stats>)
    returns (r: Result<Draxt>, ghost used: map<string, JsValue>)
    requires dir.kind == DirectoryNode
    requires !IsInstance(OptionsArg(args))
    modifies ObjectOf(OptionsArg(args))
    ensures RelativeError(args).Some? ==> r == Err(RelativeError(args).value) && unchanged(ObjectOf(OptionsArg(args)))
    ensures RelativeError(args).None? ==>
      var given := OptionsArg(args);
      var before := if given.Obj? then old(given.obj.props) else map[];
      var kept := FilterByPattern(found, RelativeFilter(PatternArg(args), before), accepts);
      && used == RelativeProps(before, dir.pathName)["absolute" := Bool(true)]
      && (r.Ok? <==> FirstFailure(kept, lstat) == |kept|)
      && (FirstFailure(kept, lstat) < |kept| ==> r == Err(lstat(kept[FirstFailure(kept, lstat)]).message))
      && (r.Ok? ==> forall p :: p in PathsOf(r.value.items) <==> p in kept)
      && (r.Ok? && Distinct(kept) ==> PathsOf(r.value.items) == kept)
      && (r.Ok? ==> AllBuilt(r.value.items, lstat))
    ensures RelativeError(args).None? && OptionsArg(args).Obj? ==> OptionsArg(args).obj.props == used
    ensures r.Ok? ==> fresh(r.value) && UniquePaths(r.value.items)
  {
    used := map[];
    var q := dir.NormalizeRelativeGlobOptions(args);
    if q.Err? {
      return Err(q.message), used;
    }
    var obj := q.value.options;
    var items := RawQuerySync(Obj(obj), found);
    used := obj.props;
    var kept := FilterByPattern(items.value, q.value.filter, accepts);
    r := NodesCollection(kept, lstat);
  }

  /**
   * `new Draxt(Node.toNodesSync(paths))`: the first path whose `lstat` fails gives its
   * error; otherwise the collection holds each listed path once, in order when none repeats.
   */
  method NodesCollection(paths: seq<string>, lstat: string -> Result<Stats>) returns (r: Result<Draxt>)
    ensures FirstFailure(paths, lstat) < |paths| ==>
      r == Err(lstat(paths[FirstFailure(paths, lstat)]).message)
    ensures r.Ok? <==> FirstFailure(paths, lstat) == |paths|
    ensures r.Ok? ==> fresh(r.value) && UniquePaths(r.value.items)
    ensures r.Ok? ==> forall p :: p in PathsOf(r.value.items) <==> p in paths
    ensures r.Ok? && Distinct(paths) ==> PathsOf(r.value.items) == paths
    ensures r.Ok? ==> AllBuilt(r.value.items, lstat)
  {
    var nodes := ToNodesSync(paths, lstat);
    if nodes.Err? {
      return Err(nodes.message);
    }
    var c := CollectionOf(nodes.value, paths, lstat);
    return Ok(c);
  }
}
