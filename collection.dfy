/**
 * The `draxt` collection (src/draxt.js): an ordered list of nodes in which no two items share a
 * path, with the queries and mutators of a jQuery-like wrapper. The list is the `items` field of
 * a `Draxt` object; mutators reassign it, queries build new collections.
 *
 * Callbacks handed to `filter` and `sort` see a node through its `View`: its class and its
 * path fields.
 */
module Collection {
  import opened Outcomes
  import opened Nodes

  // ------------------------------------------------------------------ item lists

  /** The paths of the nodes, in order. */
  function PathsOf(s: seq<Node>): (ps: seq<string>)
    reads s
    ensures |ps| == |s|
    ensures forall i :: 0 <= i < |s| ==> ps[i] == s[i].pathName
  {
    if s == [] then [] else PathsOf(s[..|s| - 1]) + [s[|s| - 1].pathName]
  }

  /** The invariant of a collection: no two items share a path. */
  predicate UniquePaths(s: seq<Node>)
    reads s
  {
    forall i, j :: 0 <= i < j < |s| ==> s[i].pathName != s[j].pathName
  }

  /** The node values of a list of nodes, as `get()` hands them out. */
  function NodeValues(s: seq<Node>): (vs: seq<JsValue>)
    ensures |vs| == |s|
    ensures forall i :: 0 <= i < |s| ==> vs[i] == NodeV(s[i])
  {
    if s == [] then [] else NodeValues(s[..|s| - 1]) + [NodeV(s[|s| - 1])]
  }

  /** What a `filter` or `sort` callback can observe of a node: its class and its path fields. */
  datatype View = View(kind: NodeKind, pathName: string, params: PathParams)

  function ViewOf(n: Node): View
    reads n
  {
    View(n.kind, n.pathName, n.Params())
  }

  // ------------------------------------------------------------------ add

  /**
   * What `add` does with a list of nodes: each, in order, is appended unless an item with its
   * path is already there, including one appended earlier in the same call.
   */
  function AddAll(cur: seq<Node>, cands: seq<Node>): (r: seq<Node>)
    reads set x | x in cur + cands
    ensures cur <= r
    ensures forall x :: x in r ==> x in cur || x in cands
    decreases |cands|
  {
    if cands == [] then cur
    else
      var prev := AddAll(cur, cands[..|cands| - 1]);
      var n := cands[|cands| - 1];
      if n.pathName in PathsOf(prev) then prev else prev + [n]
  }

  /** `add` keeps the collection free of repeated paths. */
  lemma {:induction false} AddAllUnique(cur: seq<Node>, cands: seq<Node>)
    requires UniquePaths(cur)
    ensures UniquePaths(AddAll(cur, cands))
    decreases |cands|
  {
    if cands != [] {
      var prev := AddAll(cur, cands[..|cands| - 1]);
      AddAllUnique(cur, cands[..|cands| - 1]);
      var n := cands[|cands| - 1];
      if n.pathName !in PathsOf(prev) {
        var r := prev + [n];
        forall i, j | 0 <= i < j < |r|
          ensures r[i].pathName != r[j].pathName
        {
          if j == |prev| {
            assert PathsOf(prev)[i] == r[i].pathName;
          }
        }
      }
    }
  }

  /** After `add`, the paths present are exactly the earlier ones and the candidates'. */
  lemma {:induction false} AddAllPaths(cur: seq<Node>, cands: seq<Node>)
    ensures forall p :: p in PathsOf(AddAll(cur, cands)) <==> p in PathsOf(cur) || p in PathsOf(cands)
    decreases |cands|
  {
    if cands != [] {
      var init := cands[..|cands| - 1];
      var n := cands[|cands| - 1];
      AddAllPaths(cur, init);
      var prev := AddAll(cur, init);
      assert PathsOf(cands) == PathsOf(init) + [n.pathName];
      if n.pathName !in PathsOf(prev) {
        assert PathsOf(prev + [n]) == PathsOf(prev) + [n.pathName];
      }
    }
  }

  /** Candidates whose paths are all present already change nothing. */
  lemma {:induction false} AddAllPresent(cur: seq<Node>, cands: seq<Node>)
    requires forall p :: p in PathsOf(cands) ==> p in PathsOf(cur)
    ensures AddAll(cur, cands) == cur
    decreases |cands|
  {
    if cands != [] {
      var init := cands[..|cands| - 1];
      assert PathsOf(cands) == PathsOf(init) + [cands[|cands| - 1].pathName];
      AddAllPresent(cur, init);
    }
  }

  /** Adding the same nodes a second time changes nothing. */
  lemma AddAllIdempotent(cur: seq<Node>, cands: seq<Node>)
    ensures AddAll(AddAll(cur, cands), cands) == AddAll(cur, cands)
  {
    AddAllPaths(cur, cands);
    AddAllPresent(AddAll(cur, cands), cands);
  }

  /** Nodes whose paths are all distinct are added as they are, in order. */
  lemma {:induction false} AddAllDistinct(cur: seq<Node>, cands: seq<Node>)
    requires UniquePaths(cur + cands)
    ensures AddAll(cur, cands) == cur + cands
    decreases |cands|
  {
    if cands != [] {
      var init := cands[..|cands| - 1];
      var n := cands[|cands| - 1];
      assert cur + cands == (cur + init) + [n];
      assert UniquePaths(cur + init) by {
        forall i, j | 0 <= i < j < |cur + init|
          ensures (cur + init)[i].pathName != (cur + init)[j].pathName
        {
          assert (cur + init)[i] == (cur + cands)[i] && (cur + init)[j] == (cur + cands)[j];
        }
      }
      AddAllDistinct(cur, init);
      forall i | 0 <= i < |cur + init| ensures PathsOf(cur + init)[i] != n.pathName {
        assert (cur + init)[i] == (cur + cands)[i];
        assert n == (cur + cands)[|cur + init|];
      }
    }
  }

  /** One more candidate node: appended unless its path is present already. */
  lemma AddAllStep(cur: seq<Node>, vals: seq<JsValue>, i: nat)
    requires i < |vals| && forall j :: 0 <= j <= i ==> vals[j].NodeV?
    ensures var prev := AddAll(cur, NodePrefix(vals, i));
      AddAll(cur, NodePrefix(vals, i + 1))
      == if vals[i].node.pathName in PathsOf(prev) then prev else prev + [vals[i].node]
  {
    assert NodePrefix(vals, i + 1)[..i] == NodePrefix(vals, i);
  }

  /**
   * The `forEach` of `add`: walks the candidates in order, appending each node whose path is
   * not yet present, and stops at the first candidate that is not a node, whose index it reports.
   */
  method AddNodes(cur: seq<Node>, cands: seq<JsValue>) returns (acc: seq<Node>, k: nat)
    ensures k == FirstNonNode(cands)
    ensures acc == AddAll(cur, NodePrefix(cands, k))
    ensures UniquePaths(cur) ==> UniquePaths(acc)
  {
    acc := cur;
    k := 0;
    while k < |cands| && cands[k].NodeV?
      invariant k <= FirstNonNode(cands)
      invariant acc == AddAll(cur, NodePrefix(cands, k))
    {
      var n := cands[k].node;
      AddAllStep(cur, cands, k);
      if n.pathName !in PathsOf(acc) {
        acc := acc + [n];
      }
      k := k + 1;
    }
    if UniquePaths(cur) {
      AddAllUnique(cur, NodePrefix(cands, k));
    }
  }

  /** A list without repeated paths is added as it is. */
  lemma AddAllUniqueAsIs(s: seq<Node>)
    requires UniquePaths(s)
    ensures AddAll([], s) == s
  {
    assert [] + s == s;
    AddAllDistinct([], s);
  }

  /** A contiguous part of a list without repeated paths has none either. */
  lemma UniqueSlice(s: seq<Node>, lo: nat, hi: nat)
    requires lo <= hi <= |s| && UniquePaths(s)
    ensures UniquePaths(s[lo..hi])
  {
    var part := s[lo..hi];
    forall i, j | 0 <= i < j < |part| ensures part[i].pathName != part[j].pathName {
      assert part[i] == s[lo + i] && part[j] == s[lo + j];
    }
  }

  /** The values `add` loops over: a collection's items, an array's elements, or the value alone. */
  function Candidates(v: JsValue): (cands: seq<JsValue>)
    ensures v.DraxtV? ==> cands == NodeValues(v.members)
    ensures v.Arr? ==> cands == v.elems
    ensures !v.DraxtV? && !v.Arr? ==> cands == [v]
  {
    match v
    case DraxtV(ms) => NodeValues(ms)
    case Arr(es) => es
    case _ => [v]
  }

  /** The index of the first candidate at or after `from` that is not a node; `|vals|` if none. */
  function FirstNonNode(vals: seq<JsValue>, from: nat := 0): (k: nat)
    requires from <= |vals|
    ensures from <= k <= |vals|
    ensures forall i :: from <= i < k ==> vals[i].NodeV?
    ensures k < |vals| ==> !vals[k].NodeV?
    decreases |vals| - from
  {
    if from == |vals| || !vals[from].NodeV? then from else FirstNonNode(vals, from + 1)
  }

  /** The nodes among the first `k` values, all of which are nodes. */
  function NodePrefix(vals: seq<JsValue>, k: nat): (ns: seq<Node>)
    requires k <= |vals|
    requires forall i :: 0 <= i < k ==> vals[i].NodeV?
    ensures |ns| == k
    ensures forall i :: 0 <= i < k ==> ns[i] == vals[i].node
  {
    if k == 0 then [] else NodePrefix(vals, k - 1) + [vals[k - 1].node]
  }

  /** Taking the node values of a list of nodes and back gives the list again. */
  lemma NodePrefixOfValues(s: seq<Node>)
    ensures FirstNonNode(NodeValues(s)) == |s|
    ensures NodePrefix(NodeValues(s), |s|) == s
  {
  }

  const AddTypePrefix := "Invalid value for `items` parameter. `draxt` collection can only have Node instances. The given value is a(n) "

  /** The message `add` throws for a candidate that is not a node. */
  function AddTypeMessage(v: JsValue): string {
    AddTypePrefix + TypeName(v) + "!"
  }

  // ------------------------------------------------------------------ other list functions

  /** `Array.prototype.filter` with a callback that looks at each node. */
  function Select(s: seq<Node>, keep: View -> bool): (r: seq<Node>)
    reads s
    ensures |r| <= |s|
    ensures forall x :: x in r ==> x in s && keep(ViewOf(x))
    ensures forall x :: x in s && keep(ViewOf(x)) ==> x in r
  {
    if s == [] then []
    else
      var prev := Select(s[..|s| - 1], keep);
      var n := s[|s| - 1];
      if keep(ViewOf(n)) then prev + [n] else prev
  }

  /** Filtering distributes over concatenation: the kept items stay in their original order. */
  lemma {:induction false} SelectAppend(a: seq<Node>, b: seq<Node>, keep: View -> bool)
    ensures Select(a + b, keep) == Select(a, keep) + Select(b, keep)
    decreases |b|
  {
    if b != [] {
      var init := b[..|b| - 1];
      assert (a + b)[..|a + b| - 1] == a + init;
      assert (a + b)[|a + b| - 1] == b[|b| - 1];
      SelectAppend(a, init, keep);
    } else {
      assert a + b == a;
    }
  }

  /** A filter every item passes keeps the list as it is. */
  lemma {:induction false} SelectAll(s: seq<Node>, keep: View -> bool)
    requires forall x :: x in s ==> keep(ViewOf(x))
    ensures Select(s, keep) == s
    decreases |s|
  {
    if s != [] {
      SelectAll(s[..|s| - 1], keep);
      assert s[..|s| - 1] + [s[|s| - 1]] == s;
    }
  }

  /** Filtering keeps the collection free of repeated paths. */
  lemma {:induction false} SelectUnique(s: seq<Node>, keep: View -> bool)
    requires UniquePaths(s)
    ensures UniquePaths(Select(s, keep))
    decreases |s|
  {
    if s != [] {
      var init := s[..|s| - 1];
      var n := s[|s| - 1];
      assert UniquePaths(init) by {
        forall i, j | 0 <= i < j < |init| ensures init[i].pathName != init[j].pathName {
          assert init[i] == s[i] && init[j] == s[j];
        }
      }
      SelectUnique(init, keep);
      var prev := Select(init, keep);
      if keep(ViewOf(n)) {
        var r := prev + [n];
        forall i, j | 0 <= i < j < |r| ensures r[i].pathName != r[j].pathName {
          if j == |prev| {
            assert r[i] in init;
            var k :| 0 <= k < |init| && init[k] == r[i];
            assert s[k] == r[i];
          }
        }
      }
    }
  }

  /** The items in the opposite order. */
  function Reversed(s: seq<Node>): (r: seq<Node>)
    ensures |r| == |s|
    ensures forall i :: 0 <= i < |s| ==> r[i] == s[|s| - 1 - i]
  {
    if s == [] then [] else [s[|s| - 1]] + Reversed(s[..|s| - 1])
  }

  /** Reversing twice restores the original order. */
  lemma ReverseTwice(s: seq<Node>)
    ensures Reversed(Reversed(s)) == s
  {
  }

  /** Reversing keeps the same items, each as often, and so keeps paths distinct. */
  lemma {:induction false} ReversePermutes(s: seq<Node>)
    ensures multiset(Reversed(s)) == multiset(s)
    ensures UniquePaths(s) ==> UniquePaths(Reversed(s))
    decreases |s|
  {
    if s != [] {
      var init := s[..|s| - 1];
      ReversePermutes(init);
      assert Reversed(s) == [s[|s| - 1]] + Reversed(init);
      assert s == init + [s[|s| - 1]];
    }
  }

  // ------------------------------------------------------------------ sort

  /** A comparator: negative, zero or positive as its first argument sorts before, with or after the second. */
  type Comparator = (View, View) -> int

  /** A comparator that orders consistently: any two views compare, and the order is transitive. */
  ghost predicate Consistent(cmp: Comparator) {
    && (forall a, b :: cmp(a, b) <= 0 || cmp(b, a) <= 0)
    && (forall a, b, c :: cmp(a, b) <= 0 && cmp(b, c) <= 0 ==> cmp(a, c) <= 0)
  }

  /** No item sorts after a later one. */
  predicate SortedUnder(s: seq<Node>, cmp: Comparator)
    reads s
  {
    forall i, j :: 0 <= i < j < |s| ==> cmp(ViewOf(s[i]), ViewOf(s[j])) <= 0
  }

  /** Places `x` after every trailing item it does not sort before. */
  function Insert(s: seq<Node>, x: Node, cmp: Comparator): (r: seq<Node>)
    reads s, x
    ensures |r| == |s| + 1
    ensures multiset(r) == multiset(s) + multiset{x}
    ensures forall y :: y in r ==> y in s || y == x
    ensures x in r && forall y :: y in s ==> y in r
  {
    if s == [] || cmp(ViewOf(s[|s| - 1]), ViewOf(x)) <= 0 then s + [x]
    else
      assert s == s[..|s| - 1] + [s[|s| - 1]];
      Insert(s[..|s| - 1], x, cmp) + [s[|s| - 1]]
  }

  /**
   * The order a stable sort leaves: each item in turn is inserted after the items before it
   * that it does not sort before, so items that compare equal keep their relative order.
   */
  function SortedBy(s: seq<Node>, cmp: Comparator): (r: seq<Node>)
    reads set y | y in s
    ensures |r| == |s|
    ensures multiset(r) == multiset(s)
    ensures forall y :: y in r ==> y in s
    ensures forall y :: y in s ==> y in r
  {
    if s == [] then []
    else
      assert s == s[..|s| - 1] + [s[|s| - 1]];
      Insert(SortedBy(s[..|s| - 1], cmp), s[|s| - 1], cmp)
  }

  /** A sorted list stays sorted without its last item. */
  lemma SortedInit(s: seq<Node>, cmp: Comparator)
    requires s != [] && SortedUnder(s, cmp)
    ensures SortedUnder(s[..|s| - 1], cmp)
  {
    var init := s[..|s| - 1];
    forall i, j | 0 <= i < j < |init| ensures cmp(ViewOf(init[i]), ViewOf(init[j])) <= 0 {
      assert init[i] == s[i] && init[j] == s[j];
    }
  }

  /** An item no earlier item sorts after can go at the end of a sorted list. */
  lemma SortedAppend(m: seq<Node>, y: Node, cmp: Comparator)
    requires SortedUnder(m, cmp)
    requires forall i :: 0 <= i < |m| ==> cmp(ViewOf(m[i]), ViewOf(y)) <= 0
    ensures SortedUnder(m + [y], cmp)
  {
    var r := m + [y];
    forall i, j | 0 <= i < j < |r| ensures cmp(ViewOf(r[i]), ViewOf(r[j])) <= 0 {
      assert r[i] == m[i];
      if j < |m| {
        assert r[j] == m[j];
      }
    }
  }

  /** Inserting into a sorted list under a consistent comparator keeps it sorted. */
  lemma {:induction false} InsertSorted(s: seq<Node>, x: Node, cmp: Comparator)
    requires Consistent(cmp) && SortedUnder(s, cmp)
    ensures SortedUnder(Insert(s, x, cmp), cmp)
    decreases |s|
  {
    if s == [] {
      SortedAppend(s, x, cmp);
    } else {
      var init := s[..|s| - 1];
      var last := s[|s| - 1];
      if cmp(ViewOf(last), ViewOf(x)) > 0 {
        SortedInit(s, cmp);
        InsertSorted(init, x, cmp);
        var m := Insert(init, x, cmp);
        InsertBefore(s, x, m, cmp);
        SortedAppend(m, last, cmp);
      } else {
        forall i | 0 <= i < |s| ensures cmp(ViewOf(s[i]), ViewOf(x)) <= 0 {
          if i < |s| - 1 {
            assert cmp(ViewOf(s[i]), ViewOf(last)) <= 0;
          }
        }
        SortedAppend(s, x, cmp);
      }
    }
  }

  /** When `x` sorts after the last item of a sorted list, the last item sorts after everything else. */
  lemma InsertBefore(s: seq<Node>, x: Node, m: seq<Node>, cmp: Comparator)
    requires s != [] && SortedUnder(s, cmp)
    requires cmp(ViewOf(s[|s| - 1]), ViewOf(x)) > 0 && Consistent(cmp)
    requires m == Insert(s[..|s| - 1], x, cmp)
    ensures forall i :: 0 <= i < |m| ==> cmp(ViewOf(m[i]), ViewOf(s[|s| - 1])) <= 0
  {
    var init, last := s[..|s| - 1], s[|s| - 1];
    forall i | 0 <= i < |m| ensures cmp(ViewOf(m[i]), ViewOf(last)) <= 0 {
      if m[i] != x {
        assert m[i] in m;
        var k :| 0 <= k < |init| && init[k] == m[i];
        assert s[k] == m[i];
      }
    }
  }

  /** Under a consistent comparator the sorted list is in order. */
  lemma {:induction false} SortedBySorted(s: seq<Node>, cmp: Comparator)
    requires Consistent(cmp)
    ensures SortedUnder(SortedBy(s, cmp), cmp)
    decreases |s|
  {
    if s != [] {
      SortedBySorted(s[..|s| - 1], cmp);
      InsertSorted(SortedBy(s[..|s| - 1], cmp), s[|s| - 1], cmp);
    }
  }

  /** Sorting keeps the collection free of repeated paths. */
  lemma {:induction false} SortedByUnique(s: seq<Node>, cmp: Comparator)
    requires UniquePaths(s)
    ensures UniquePaths(SortedBy(s, cmp))
    decreases |s|
  {
    if s != [] {
      var init := s[..|s| - 1];
      var x := s[|s| - 1];
      assert UniquePaths(init) by {
        forall i, j | 0 <= i < j < |init| ensures init[i].pathName != init[j].pathName {
          assert init[i] == s[i] && init[j] == s[j];
        }
      }
      SortedByUnique(init, cmp);
      forall y | y in SortedBy(init, cmp) ensures y.pathName != x.pathName {
        var k :| 0 <= k < |init| && init[k] == y;
        assert s[k] == y;
      }
      InsertUnique(SortedBy(init, cmp), x, cmp);
    }
  }

  /** Inserting a node whose path is new keeps paths distinct. */
  lemma {:induction false} InsertUnique(s: seq<Node>, x: Node, cmp: Comparator)
    requires UniquePaths(s)
    requires forall y :: y in s ==> y.pathName != x.pathName
    ensures UniquePaths(Insert(s, x, cmp))
    decreases |s|
  {
    if s != [] && cmp(ViewOf(s[|s| - 1]), ViewOf(x)) > 0 {
      var init := s[..|s| - 1];
      var last := s[|s| - 1];
      assert UniquePaths(init) by {
        forall i, j | 0 <= i < j < |init| ensures init[i].pathName != init[j].pathName {
          assert init[i] == s[i] && init[j] == s[j];
        }
      }
      InsertUnique(init, x, cmp);
      var m := Insert(init, x, cmp);
      var r := m + [last];
      forall i, j | 0 <= i < j < |r| ensures r[i].pathName != r[j].pathName {
        if j == |m| && r[i] != x {
          assert r[i] == m[i] && m[i] in m;
          var k :| 0 <= k < |init| && init[k] == r[i];
          assert s[k] == r[i];
        }
      }
    } else {
      var r := s + [x];
      forall i, j | 0 <= i < j < |r| ensures r[i].pathName != r[j].pathName {
        if j == |s| {
          assert r[i] in s;
        }
      }
    }
  }

  /** `a` occurs somewhere before `b` in `s`. */
  ghost predicate Before(s: seq<Node>, a: Node, b: Node) {
    exists i, j :: 0 <= i < j < |s| && s[i] == a && s[j] == b
  }

  /** Inserting keeps items `i` and `j` of the list, `i` before `j`, in that order. */
  lemma {:induction false} InsertKeepsPair(s: seq<Node>, x: Node, cmp: Comparator, i: nat, j: nat)
    requires i < j < |s|
    ensures Before(Insert(s, x, cmp), s[i], s[j])
    decreases |s|
  {
    var r := Insert(s, x, cmp);
    if cmp(ViewOf(s[|s| - 1]), ViewOf(x)) <= 0 {
      assert r == s + [x];
      assert r[i] == s[i] && r[j] == s[j];
    } else {
      var init, last := s[..|s| - 1], s[|s| - 1];
      var r0 := Insert(init, x, cmp);
      assert r == r0 + [last];
      if j < |s| - 1 {
        InsertKeepsPair(init, x, cmp, i, j);
        var a, b :| 0 <= a < b < |r0| && r0[a] == init[i] && r0[b] == init[j];
        assert r[a] == s[i] && r[b] == s[j];
      } else {
        assert init[i] in init;
        var a :| 0 <= a < |r0| && r0[a] == init[i];
        assert r[a] == s[i] && r[|r0|] == s[j];
      }
    }
  }

  /** Inserting puts `x` after each item that does not sort after it. */
  lemma {:induction false} InsertAfter(s: seq<Node>, x: Node, cmp: Comparator, k: nat)
    requires k < |s| && cmp(ViewOf(s[k]), ViewOf(x)) <= 0
    ensures Before(Insert(s, x, cmp), s[k], x)
    decreases |s|
  {
    var r := Insert(s, x, cmp);
    if cmp(ViewOf(s[|s| - 1]), ViewOf(x)) <= 0 {
      assert r == s + [x];
      assert r[k] == s[k] && r[|s|] == x;
    } else {
      var init := s[..|s| - 1];
      var r0 := Insert(init, x, cmp);
      assert r == r0 + [s[|s| - 1]];
      assert k < |s| - 1 && s[k] == init[k];
      InsertAfter(init, x, cmp, k);
      var a, b :| 0 <= a < b < |r0| && r0[a] == init[k] && r0[b] == x;
      assert r[a] == s[k] && r[b] == x;
    }
  }

  /** One pair of `SortedByStable`: item `i` does not sort after item `j`, so it stays before it. */
  lemma {:induction false} SortedByKeeps(s: seq<Node>, cmp: Comparator, i: nat, j: nat)
    requires i < j < |s| && cmp(ViewOf(s[i]), ViewOf(s[j])) <= 0
    ensures Before(SortedBy(s, cmp), s[i], s[j])
    decreases |s|
  {
    var init := s[..|s| - 1];
    var m := SortedBy(init, cmp);
    assert SortedBy(s, cmp) == Insert(m, s[|s| - 1], cmp);
    assert s[i] == init[i];
    if j < |s| - 1 {
      assert s[j] == init[j];
      SortedByKeeps(init, cmp, i, j);
      var a, b :| 0 <= a < b < |m| && m[a] == s[i] && m[b] == s[j];
      InsertKeepsPair(m, s[|s| - 1], cmp, a, b);
    } else {
      assert s[i] in m;
      var k :| 0 <= k < |m| && m[k] == s[i];
      InsertAfter(m, s[|s| - 1], cmp, k);
    }
  }

  /**
   * `SortedBy` is stable: an item that does not sort after a later one stays before it, so
   * items that compare equal keep their order.
   */
  lemma SortedByStable(s: seq<Node>, cmp: Comparator)
    ensures forall i, j :: 0 <= i < j < |s| && cmp(ViewOf(s[i]), ViewOf(s[j])) <= 0 ==>
      Before(SortedBy(s, cmp), s[i], s[j])
  {
    forall i, j | 0 <= i < j < |s| && cmp(ViewOf(s[i]), ViewOf(s[j])) <= 0
      ensures Before(SortedBy(s, cmp), s[i], s[j])
    {
      SortedByKeeps(s, cmp, i, j);
    }
  }

  /** The comparator that finds every two nodes equal. */
  function Unordered(a: View, b: View): int {
    0
  }

  /** Under the comparator that finds everything equal, an item is inserted at the end. */
  lemma InsertUnordered(s: seq<Node>, x: Node)
    ensures Insert(s, x, Unordered) == s + [x]
  {
    assert s == [] || Unordered(ViewOf(s[|s| - 1]), ViewOf(x)) <= 0;
  }

  /** A stable sort under a comparator that finds everything equal leaves the order alone. */
  lemma {:induction false} SortedByUnordered(s: seq<Node>)
    ensures SortedBy(s, Unordered) == s
    decreases |s|
  {
    if s != [] {
      var init, last := s[..|s| - 1], s[|s| - 1];
      SortedByUnordered(init);
      assert SortedBy(s, Unordered) == Insert(init, last, Unordered);
      InsertUnordered(init, last);
      assert init + [last] == s;
    }
  }

  // ------------------------------------------------------------------ slice

  /**
   * Where `Array.prototype.slice(begin, end)` starts and stops on a list of `len` items: an
   * absent bound is the start or the end, a negative one counts back from the end, and both
   * are clamped to the list.
   */
  function SliceBounds(len: nat, begin: Option<int>, end: Option<int>): (b: (nat, nat))
    ensures b.0 <= b.1 <= len
    ensures b.0 == Clamp(len, if begin.None? then 0 else begin.value)
    ensures var e := Clamp(len, if end.None? then len else end.value);
      b.1 == (if e < b.0 then b.0 else e)
    ensures begin.None? ==> b.0 == 0
    ensures end.None? ==> b.1 == len
  {
    var lo := Clamp(len, if begin.None? then 0 else begin.value);
    var hi := Clamp(len, if end.None? then len else end.value);
    if hi < lo then (lo, lo) else (lo, hi)
  }

  /** A relative index turned into a position in `0..len`. */
  function Clamp(len: nat, rel: int): (k: nat)
    ensures k <= len
    ensures 0 <= rel <= len ==> k == rel
    ensures rel < 0 <= len + rel ==> k == len + rel
    ensures len + rel < 0 ==> k == 0
    ensures rel > len ==> k == len
  {
    if rel < 0 then (if len + rel < 0 then 0 else len + rel)
    else if rel > len then len
    else rel
  }

  /** `slice(-k)` takes the last `k` items; `slice()` takes them all. */
  lemma SliceExamples(len: nat, k: nat)
    requires 0 < k <= len
    ensures SliceBounds(len, Some(-(k as int)), None) == (len - k, len)
    ensures SliceBounds(len, None, None) == (0, len)
    ensures SliceBounds(len, Some(0), Some(-(k as int))) == (0, len - k)
  {
  }

  /**
   * `slice(0, k)` takes the first `k` items, or all of them when there are fewer; a begin at or
   * after the end takes nothing.
   */
  lemma SliceRanges(len: nat, k: nat, i: int, j: int)
    ensures SliceBounds(len, Some(0), Some(k)) == (0, if k <= len then k else len)
    ensures 0 <= j <= i ==> SliceBounds(len, Some(i), Some(j)).0 == SliceBounds(len, Some(i), Some(j)).1
  {
  }

  /** `slice(0, k)` followed by `slice(k)` gives back the whole list, whatever `k` is. */
  lemma SliceSplit(s: seq<Node>, k: int)
    ensures var a := SliceBounds(|s|, Some(0), Some(k));
      var b := SliceBounds(|s|, Some(k), None);
      s[a.0..a.1] + s[b.0..b.1] == s
  {
    var m := Clamp(|s|, k);
    assert SliceBounds(|s|, Some(0), Some(k)) == (0, m);
    assert SliceBounds(|s|, Some(k), None) == (m, |s|);
    assert s[0..m] + s[m..|s|] == s;
  }

  // ------------------------------------------------------------------ drop

  const DropParamMessage := "Invalid paramter passed to `.drop()` method"

  /** The list `drop` takes its keys from, or `None` when the selector has an unsupported type. */
  function DropSelection(selector: JsValue): (r: Option<seq<JsValue>>)
    ensures r.None? <==> !(selector.NodeV? || selector.DraxtV? || selector.Str? || selector.Arr?)
    ensures selector.NodeV? || selector.Str? ==> r == Some([selector])
    ensures selector.DraxtV? ==> r == Some(NodeValues(selector.members))
    ensures selector.Arr? ==> r == Some(selector.elems)
  {
    match selector
    case NodeV(_) => Some([selector])
    case DraxtV(ms) => Some(NodeValues(ms))
    case Str(_) => Some([selector])
    case Arr(es) => Some(es)
    case _ => None
  }

  /** Whether reading `pathName` from a selector entry throws: it does for `null` and `undefined`. */
  predicate Nullish(v: JsValue) {
    v.Null? || v.Undefined?
  }

  /** The index of the first nullish entry at or after `from`; `|vals|` if none. */
  function FirstNullish(vals: seq<JsValue>, from: nat := 0): (k: nat)
    requires from <= |vals|
    ensures from <= k <= |vals|
    ensures forall i :: from <= i < k ==> !Nullish(vals[i])
    ensures k < |vals| ==> Nullish(vals[k])
    decreases |vals| - from
  {
    if from == |vals| || Nullish(vals[from]) then from else FirstNullish(vals, from + 1)
  }

  /** The `TypeError` V8 raises when `pathName` is read from a nullish entry. */
  function NullishMessage(v: JsValue): string
    requires Nullish(v)
  {
    "Cannot read properties of " + TypeName(v) + " (reading 'pathName')"
  }

  /**
   * The paths a selector list names: its strings, the paths of its nodes, and the string
   * `pathName` properties of its plain objects. Other entries yield keys no path equals.
   */
  function DroppedPaths(vals: seq<JsValue>): (keys: set<string>)
    reads Refs(vals)
  {
    (set i | 0 <= i < |vals| && vals[i].Str? :: vals[i].s)
    + (set i | 0 <= i < |vals| && vals[i].NodeV? :: vals[i].node.pathName)
    + (set i | 0 <= i < |vals| && vals[i].Obj? && Get(vals[i].obj.props, "pathName").Str? ::
         Get(vals[i].obj.props, "pathName").s)
  }

  /** The `drop` filter: an item stays when its path is not one of the keys. */
  function Outside(keys: set<string>): View -> bool {
    (v: View) => v.pathName !in keys
  }

  /** `drop` removes exactly the items with a listed path and keeps the rest in order. */
  lemma DropExactly(s: seq<Node>, keys: set<string>)
    ensures forall x :: x in Select(s, Outside(keys)) <==> x in s && x.pathName !in keys
    ensures (forall x :: x in s ==> x.pathName !in keys) ==> Select(s, Outside(keys)) == s
  {
    if forall x :: x in s ==> x.pathName !in keys {
      SelectAll(s, Outside(keys));
    }
  }

  // ------------------------------------------------------------------ the collection

  /** A `draxt` collection: its `items`, whose count is its `length`. */
  class Draxt {
    var items: seq<Node>

    /** `draxt()`: an empty collection. */
    constructor Empty()
      ensures items == []
    {
      items := [];
    }

    /** `draxt(collection)`: a shallow copy of another collection's items. */
    constructor Copy(members: seq<Node>)
      ensures items == members
    {
      items := members;
    }

    /** `length`. */
    function Length(): (n: nat)
      reads this
      ensures n == |items|
    {
      |items|
    }

    /**
     * `add(items)`: each candidate node, in order, is appended unless an item with its path is
     * there already. The first candidate that is not a node throws, naming its type; the
     * candidates before it stay added.
     */
    method Add(v: JsValue) returns (st: Status)
      modifies this
      ensures var cands := Candidates(v); var k := FirstNonNode(cands);
        && items == old(AddAll(items, NodePrefix(cands, k)))
        && (st.Done? <==> k == |cands|)
        && (st.Failed? ==> st.message == AddTypeMessage(cands[k]))
      ensures old(UniquePaths(items)) ==> UniquePaths(items)
    {
      var cands := Candidates(v);
      ghost var want := AddAll(items, NodePrefix(cands, FirstNonNode(cands)));
      var acc, k := AddNodes(items, cands);
      assert acc == want;
      label pre:
      items := acc;
      UniqueKept@pre(acc);
      st := if k < |cands| then Failed(AddTypeMessage(cands[k])) else Done;
    }

    /**
     * `has(item)`: whether an item has the path of `item`, a node or a path. Any other value
     * matches nothing.
     */
    function Has(item: JsValue): (b: bool)
      reads this, items, RefsOf(item)
      ensures item.NodeV? ==> (b <==> item.node.pathName in PathsOf(items))
      ensures item.Str? ==> (b <==> item.s in PathsOf(items))
      ensures !item.NodeV? && !item.Str? ==> !b
    {
      if item.NodeV? then item.node.pathName in PathsOf(items)
      else item.Str? && item.s in PathsOf(items)
    }

    /** `has` compares paths only: asking with a node is asking with its path. */
    lemma HasComparesPaths(n: Node)
      ensures Has(NodeV(n)) == Has(Str(n.pathName))
      ensures Has(NodeV(n)) <==> exists i :: 0 <= i < |items| && items[i].pathName == n.pathName
    {
      if Has(NodeV(n)) {
        var i :| 0 <= i < |items| && PathsOf(items)[i] == n.pathName;
      }
    }

    /**
     * `get(index)`: the item list when no index is given, the item at a valid index, the
     * array's `length` for that property name, and `undefined` for any other index.
     */
    function Get(index: JsValue): (r: JsValue)
      reads this
      ensures index.Undefined? ==>
        r.Arr? && |r.elems| == |items| && forall i :: 0 <= i < |items| ==> r.elems[i] == NodeV(items[i])
      ensures index.Num? && 0 <= index.n < |items| ==> r == NodeV(items[index.n])
      ensures index == Str("length") ==> r == Num(Length())
      ensures !index.Undefined? && !(index.Num? && 0 <= index.n < |items|) && index != Str("length") ==> r == Undefined
    {
      if index.Undefined? then Arr(NodeValues(items))
      else if index.Num? && 0 <= index.n < |items| then NodeV(items[index.n])
      else if index == Str("length") then Num(|items|)
      else Undefined
    }

    /** `first()`: the first item, if any. */
    function First(): (r: Option<Node>)
      reads this
      ensures r.Some? <==> |items| > 0
      ensures r.Some? ==> r.value == items[0] && Get(Num(0)) == NodeV(r.value)
    {
      if |items| > 0 then Some(items[0]) else None
    }

    /** `last()`: the last item, if any; it is the first of the reversed list. */
    function Last(): (r: Option<Node>)
      reads this
      ensures r.Some? <==> |items| > 0
      ensures r.Some? ==> r.value == items[|items| - 1] && r.value == Reversed(items)[0]
      ensures r.Some? ==> Get(Num(|items| - 1)) == NodeV(r.value)
    {
      if |items| > 0 then Some(items[|items| - 1]) else None
    }

    /**
     * `slice(begin, end)`: a new collection of the items between the bounds, built with `add`
     * so that it too holds each path once.
     */
    method Slice(begin: Option<int>, end: Option<int>) returns (d: Draxt)
      ensures fresh(d)
      ensures d.items == AddAll([], items[SliceBounds(|items|, begin, end).0..SliceBounds(|items|, begin, end).1])
      ensures UniquePaths(items) ==>
        d.items == items[SliceBounds(|items|, begin, end).0..SliceBounds(|items|, begin, end).1]
    {
      var (lo, hi) := SliceBounds(|items|, begin, end);
      var part := items[lo..hi];
      if UniquePaths(items) {
        UniqueSlice(items, lo, hi);
        AddAllUniqueAsIs(part);
      }
      d := FromNodes(part);
    }

    /**
     * `filter(callback)`: a new collection of the items the callback accepts, in order. The
     * receiver is not changed.
     */
    method Filter(keep: View -> bool) returns (d: Draxt)
      ensures fresh(d)
      ensures d.items == AddAll([], Select(items, keep))
      ensures UniquePaths(items) ==> d.items == Select(items, keep)
    {
      var kept := Select(items, keep);
      if UniquePaths(items) {
        SelectUnique(items, keep);
        AddAllUniqueAsIs(kept);
      }
      d := FromNodes(kept);
    }

    /** `directories()`: the `Directory` items, in order. */
    method Directories() returns (d: Draxt)
      ensures fresh(d)
      ensures d.items == AddAll([], Select(items, KindIs(DirectoryNode)))
      ensures UniquePaths(items) ==> d.items == Select(items, KindIs(DirectoryNode))
      ensures UniquePaths(items) ==> forall x :: x in d.items <==> x in items && x.kind == DirectoryNode
    {
      d := Filter(KindIs(DirectoryNode));
    }

    /** `files()`: the `File` items, in order. */
    method Files() returns (d: Draxt)
      ensures fresh(d)
      ensures d.items == AddAll([], Select(items, KindIs(FileNode)))
      ensures UniquePaths(items) ==> d.items == Select(items, KindIs(FileNode))
      ensures UniquePaths(items) ==> forall x :: x in d.items <==> x in items && x.kind == FileNode
    {
      d := Filter(KindIs(FileNode));
    }

    /** `symlinks()`: the `SymbolicLink` items, in order. */
    method Symlinks() returns (d: Draxt)
      ensures fresh(d)
      ensures d.items == AddAll([], Select(items, KindIs(SymbolicLinkNode)))
      ensures UniquePaths(items) ==> d.items == Select(items, KindIs(SymbolicLinkNode))
      ensures UniquePaths(items) ==> forall x :: x in d.items <==> x in items && x.kind == SymbolicLinkNode
    {
      d := Filter(KindIs(SymbolicLinkNode));
    }

    /**
     * `sort(compare)`: the items are put in the order a stable sort under `compare` gives. With
     * no comparator every node converts to the same string, so the order does not change.
     */
    method Sort(compare: Option<Comparator>) returns (st: Status)
      modifies this
      ensures st == Done
      ensures compare.Some? ==> items == SortedBy(old(items), compare.value)
      ensures compare.None? ==> items == old(items)
      ensures old(UniquePaths(items)) ==> UniquePaths(items)
    {
      var cmp := if compare.Some? then compare.value else Unordered;
      var sorted := SortedBy(items, cmp);
      if compare.None? {
        SortedByUnordered(items);
      } else if UniquePaths(items) {
        SortedByUnique(items, cmp);
      }
      label pre:
      items := sorted;
      UniqueKept@pre(sorted);
      return Done;
    }

    /** `reverse()`: the items in the opposite order. */
    method Reverse() returns (st: Status)
      modifies this
      ensures st == Done
      ensures items == Reversed(old(items))
      ensures old(UniquePaths(items)) ==> UniquePaths(items)
    {
      ReversePermutes(items);
      items := Reversed(items);
      return Done;
    }

    /** `empty()`: no items; the filesystem is not touched. */
    method MakeEmpty() returns (st: Status)
      modifies this
      ensures st == Done && items == []
    {
      items := [];
      return Done;
    }

    /**
     * `drop(selector)`: removes the items whose paths the selector names, keeping the rest in
     * order. An unsupported selector type throws; so does a `null` or `undefined` entry, before
     * anything is removed.
     */
    method Drop(selector: JsValue) returns (st: Status)
      modifies this
      ensures DropSelection(selector).None? ==> st == Failed(DropParamMessage) && items == old(items)
      ensures DropSelection(selector).Some? ==>
        var vals := DropSelection(selector).value;
        var k := FirstNullish(vals);
        && (k < |vals| ==> st == Failed(NullishMessage(vals[k])) && items == old(items))
        && (k == |vals| ==> st == Done && items == old(Select(items, Outside(DroppedPaths(vals)))))
      ensures old(UniquePaths(items)) ==> UniquePaths(items)
    {
      var sel := DropSelection(selector);
      if sel.None? {
        return Failed(DropParamMessage);
      }
      var vals := sel.value;
      var k := FirstNullish(vals);
      if k < |vals| {
        return Failed(NullishMessage(vals[k]));
      }
      var kept := Select(items, Outside(DroppedPaths(vals)));
      if UniquePaths(items) {
        SelectUnique(items, Outside(DroppedPaths(vals)));
      }
      items := kept;
      return Done;
    }
  }

  /** The `filter` callback `el => el.is<Kind>()`. */
  function KindIs(k: NodeKind): View -> bool {
    (v: View) => v.kind == k
  }

  /** The four kind filters split a list: each item passes exactly one of them. */
  lemma {:induction false} KindsPartition(s: seq<Node>)
    ensures |Select(s, KindIs(GenericNode))| + |Select(s, KindIs(DirectoryNode))|
          + |Select(s, KindIs(FileNode))| + |Select(s, KindIs(SymbolicLinkNode))| == |s|
    ensures forall k, x :: x in Select(s, KindIs(k)) <==> x in s && x.kind == k
    decreases |s|
  {
    if s != [] {
      KindsPartition(s[..|s| - 1]);
    }
    forall k, x ensures x in Select(s, KindIs(k)) <==> x in s && x.kind == k {
      assert KindIs(k)(ViewOf(x)) == (x.kind == k);
    }
  }

  /** `new Draxt(nodes)` for an array of nodes: an empty collection, then `add`. */
  method FromNodes(nodes: seq<Node>) returns (d: Draxt)
    ensures fresh(d)
    ensures d.items == AddAll([], nodes)
  {
    d := new Draxt.Empty();
    NodePrefixOfValues(nodes);
    label before:
    var st := d.Add(Arr(NodeValues(nodes)));
    AddAllKept@before(([], nodes));
  }

  /** A list whose nodes did not change repeats a path now iff it did before. */
  twostate lemma UniqueKept(s: seq<Node>)
    requires forall n :: n in s ==> unchanged(n)
    ensures UniquePaths(s) == old(UniquePaths(s))
  {
    forall i | 0 <= i < |s| ensures s[i].pathName == old(s[i].pathName) {
      assert s[i] in s;
    }
  }

  /** `add` on one collection leaves what adding to any other list gives unchanged. */
  twostate lemma AddAllKept(lists: (seq<Node>, seq<Node>))
    requires forall n :: n in lists.0 + lists.1 ==> unchanged(n)
    ensures AddAll(lists.0, lists.1) == old(AddAll(lists.0, lists.1))
  {
  }

  /**
   * `draxt(pattern, options)` for the patterns it handles itself: `undefined` gives an empty
   * collection, a node or an array goes through `add` (and throws as it does), and another
   * collection is copied. A glob pattern is queried as `Sync` does.
   */
  method Create(pattern: JsValue, options: JsValue, found: seq<string>, lstat: string -> Result<Stats>)
    returns (r: Result<Draxt>)
    requires !(pattern.Undefined? || pattern.NodeV? || pattern.Arr? || pattern.DraxtV?) ==> !IsInstance(options)
    modifies ObjectOf(options)
    ensures r.Ok? ==> fresh(r.value)
    ensures pattern.Undefined? ==> r.Ok? && r.value.items == []
    ensures pattern.DraxtV? ==> r.Ok? && r.value.items == pattern.members
    ensures pattern.NodeV? ==> r.Ok? && r.value.items == [pattern.node]
    ensures pattern.Arr? ==>
      var k := FirstNonNode(pattern.elems);
      && (r.Ok? <==> k == |pattern.elems|)
      && (r.Ok? ==> r.value.items == AddAll([], NodePrefix(pattern.elems, k)))
      && (!r.Ok? ==> r == Err(AddTypeMessage(pattern.elems[k])))
    ensures !(pattern.Undefined? || pattern.NodeV? || pattern.Arr? || pattern.DraxtV?) ==>
      && (!(options.Undefined? || options.Str? || options.Obj?) ==> r == Err(GlobOptionsMessage))
      && (options.Undefined? || options.Str? || options.Obj? ==>
        && (r.Ok? <==> FirstFailure(found, lstat) == |found|)
        && (FirstFailure(found, lstat) < |found| ==> r == Err(lstat(found[FirstFailure(found, lstat)]).message)))
      && (options.Obj? ==> options.obj.props == old(options.obj.props)["absolute" := Bool(true)])
      && (r.Ok? ==> UniquePaths(r.value.items) && forall p :: p in PathsOf(r.value.items) <==> p in found)
      && (r.Ok? && Distinct(found) ==> PathsOf(r.value.items) == found)
      && (r.Ok? ==> AllBuilt(r.value.items, lstat))
  {
    if pattern.Undefined? {
      var d := new Draxt.Empty();
      return Ok(d);
    }
    if pattern.NodeV? || pattern.Arr? {
      r := Added(pattern);
      if pattern.NodeV? {
        assert NodePrefix([pattern], 1) == [pattern.node];
      }
      return;
    }
    if pattern.DraxtV? {
      var d := new Draxt.Copy(pattern.members);
      return Ok(d);
    }
    r := Sync(options, found, lstat);
  }

  /** A new collection that `add`s the candidates of `v`; the error `add` throws, if any. */
  method Added(v: JsValue) returns (r: Result<Draxt>)
    ensures var cands := Candidates(v); var k := FirstNonNode(cands);
      && (r.Ok? <==> k == |cands|)
      && (r.Ok? ==> fresh(r.value) && r.value.items == AddAll([], NodePrefix(cands, k)))
      && (r.Err? ==> r.message == AddTypeMessage(cands[k]))
  {
    var d := new Draxt.Empty();
    ghost var cands := Candidates(v);
    ghost var added := NodePrefix(cands, FirstNonNode(cands));
    label before:
    var st := d.Add(v);
    AddAllKept@before(([], added));
    assert d.items == AddAll([], added);
    r := if st.Failed? then Err(st.message) else Ok(d);
  }

  // ------------------------------------------------------------------ query results

  /** Every item is the node `toNodesSync` builds for its own path: kind and stats from `lstat`. */
  predicate AllBuilt(s: seq<Node>, lstat: string -> Result<Stats>)
    reads s
  {
    forall x :: x in s ==> BuiltFor(x, x.pathName, lstat)
  }

  /** No path is listed twice. */
  predicate Distinct(ps: seq<string>) {
    forall i, j :: 0 <= i < j < |ps| ==> ps[i] != ps[j]
  }

  /**
   * The nodes `toNodesSync` builds, added to an empty collection: no path twice, exactly the
   * paths listed, and for distinct paths those nodes in that order.
   */
  lemma Collected(nodes: seq<Node>, paths: seq<string>, lstat: string -> Result<Stats>)
    requires Classified(nodes, paths, lstat)
    ensures UniquePaths(AddAll([], nodes))
    ensures forall p :: p in PathsOf(AddAll([], nodes)) <==> p in paths
    ensures Distinct(paths) ==> PathsOf(AddAll([], nodes)) == paths
  {
    ClassifiedPathsOf(nodes, paths, lstat);
    AddAllUnique([], nodes);
    AddAllPaths([], nodes);
    if Distinct(paths) {
      DistinctUnique(nodes);
      AddAllUniqueAsIs(nodes);
    }
  }

  /** `new Draxt(nodes)` for the nodes `toNodesSync` built for `paths`. */
  method CollectionOf(nodes: seq<Node>, ghost paths: seq<string>, lstat: string -> Result<Stats>) returns (c: Draxt)
    requires Classified(nodes, paths, lstat)
    ensures fresh(c) && UniquePaths(c.items)
    ensures forall p :: p in PathsOf(c.items) <==> p in paths
    ensures Distinct(paths) ==> PathsOf(c.items) == paths
    ensures AllBuilt(c.items, lstat)
  {
    c := FromNodes(nodes);
    Collected(nodes, paths, lstat);
    forall x | x in c.items ensures BuiltFor(x, x.pathName, lstat) {
      var i :| 0 <= i < |nodes| && nodes[i] == x;
      assert BuiltFor(nodes[i], paths[i], lstat);
    }
  }

  /** Classified nodes carry the paths they were built for. */
  lemma ClassifiedPathsOf(nodes: seq<Node>, paths: seq<string>, lstat: string -> Result<Stats>)
    requires Classified(nodes, paths, lstat)
    ensures PathsOf(nodes) == paths
  {
    ClassifiedPaths(nodes, paths, lstat);
  }

  /** Nodes with distinct paths repeat no path. */
  lemma DistinctUnique(nodes: seq<Node>)
    requires Distinct(PathsOf(nodes))
    ensures UniquePaths(nodes)
  {
    forall i, j | 0 <= i < j < |nodes| ensures nodes[i].pathName != nodes[j].pathName {
      assert PathsOf(nodes)[i] != PathsOf(nodes)[j];
    }
  }

  /**
   * `Draxt.sync(pattern, options)`: the nodes `Node.querySync` builds for the paths `glob`
   * found, added to a new collection; each path found is there once.
   */
  method Sync(options: JsValue, found: seq<string>, lstat: string -> Result<Stats>) returns (r: Result<Draxt>)
    requires !IsInstance(options)
    modifies ObjectOf(options)
    ensures !(options.Undefined? || options.Str? || options.Obj?) ==> r == Err(GlobOptionsMessage)
    ensures options.Undefined? || options.Str? || options.Obj? ==>
      && (r.Ok? <==> FirstFailure(found, lstat) == |found|)
      && (FirstFailure(found, lstat) < |found| ==> r == Err(lstat(found[FirstFailure(found, lstat)]).message))
    ensures options.Obj? ==> options.obj.props == old(options.obj.props)["absolute" := Bool(true)]
    ensures r.Ok? ==> fresh(r.value)
    ensures r.Ok? ==> UniquePaths(r.value.items)
    ensures r.Ok? ==> forall p :: p in PathsOf(r.value.items) <==> p in found
    ensures r.Ok? && Distinct(found) ==> PathsOf(r.value.items) == found
    ensures r.Ok? ==> AllBuilt(r.value.items, lstat)
  {
    var nodes := QuerySync(options, found, lstat);
    if nodes.Err? {
      return Err(nodes.message);
    }
    var d := CollectionOf(nodes.value, found, lstat);
    return Ok(d);
  }
}
