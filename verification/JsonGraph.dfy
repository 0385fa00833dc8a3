/**
  The explicit-stack validator of metadata values. Python values form an object graph that may share
  nodes and contain cycles; the validator must stop on all of them and accept exactly the graphs that
  `json` could print.
*/
module JsonGraph {
  import opened Text
  import opened Wrappers

  type Id = nat

  /** One object: a legal scalar, a non-finite float, an unsupported type, a list or a dict. */
  datatype Node =
    | Scalar
    | NonFinite
    | Unsupported
    | ListNode(items: seq<Id>)
    | DictNode(textKeys: bool, values: seq<Id>)
  {
    predicate Container() { ListNode? || DictNode? }

    function Children(): seq<Id> {
      match this
      case ListNode(items) => items
      case DictNode(_, values) => values
      case _ => []
    }

    predicate Legal() {
      match this
      case Scalar => true
      case ListNode(_) => true
      case DictNode(textKeys, _) => textKeys
      case _ => false
    }
  }

  type Heap = map<Id, Node>

  ghost predicate Closed(heap: Heap) {
    forall id <- heap :: forall child <- heap[id].Children() :: child in heap
  }

  // ---- Paths: what acceptance means ----

  ghost predicate IsPath(heap: Heap, from: Id, path: seq<Id>) {
    && |path| > 0 && path[0] == from
    && (forall id <- path :: id in heap)
    && forall i :: 0 <= i < |path| - 1 ==> path[i + 1] in heap[path[i]].Children()
  }

  ghost predicate Distinct(path: seq<Id>) {
    forall i, j :: 0 <= i < j < |path| ==> path[i] != path[j]
  }

  /** Everything reachable is legal and nothing reachable lies on a cycle. */
  ghost predicate Printable(heap: Heap, root: Id) {
    forall path :: IsPath(heap, root, path) ==> heap[path[|path| - 1]].Legal() && Distinct(path)
  }

  // ---- The recursive reading: a value under its ancestors ----

  ghost predicate Acceptable(heap: Heap, v: Id, ancestors: set<Id>)
    requires Closed(heap) && v in heap
    decreases heap.Keys - ancestors
  {
    var node := heap[v];
    && node.Legal()
    && (node.Container() ==>
          && v !in ancestors
          && forall child <- node.Children() :: Acceptable(heap, child, ancestors + {v}))
  }

  lemma {:induction false} AcceptableBoundsPaths(heap: Heap, v: Id, ancestors: set<Id>, path: seq<Id>)
    requires Closed(heap) && v in heap && Acceptable(heap, v, ancestors) && IsPath(heap, v, path)
    ensures heap[path[|path| - 1]].Legal() && Distinct(path)
    ensures forall id <- path :: heap[id].Container() ==> id !in ancestors
    decreases |path|
  {
    if |path| > 1 {
      var rest := path[1..];
      assert path[0 + 1] in heap[v].Children();
      forall i | 0 <= i < |rest| - 1 ensures rest[i + 1] in heap[rest[i]].Children() {
        assert path[i + 1 + 1] in heap[path[i + 1]].Children();
      }
      assert IsPath(heap, path[1], rest);
      AcceptableBoundsPaths(heap, path[1], ancestors + {v}, rest);
      forall i, j | 0 <= i < j < |path| ensures path[i] != path[j] {
        if i == 0 {
          assert path[j] == rest[j - 1] && rest[j - 1] in rest;
        } else {
          assert path[i] == rest[i - 1] && path[j] == rest[j - 1];
        }
      }
    }
  }

  lemma LastIsNew(path: seq<Id>)
    requires |path| > 0 && Distinct(path)
    ensures path[|path| - 1] !in path[..|path| - 1]
  {
    var before, last := path[..|path| - 1], path[|path| - 1];
    forall i | 0 <= i < |before| ensures before[i] != last {
      assert before[i] == path[i];
    }
  }

  lemma PathExtends(heap: Heap, root: Id, path: seq<Id>, child: Id)
    requires Closed(heap) && IsPath(heap, root, path) && child in heap[path[|path| - 1]].Children()
    ensures IsPath(heap, root, path + [child])
  {
    var longer := path + [child];
    assert path[|path| - 1] in path;
    forall i | 0 <= i < |longer| - 1 ensures longer[i + 1] in heap[longer[i]].Children() {
      if i < |path| - 1 { assert path[i + 1] in heap[path[i]].Children(); }
    }
  }

  lemma {:induction false} PathsMakeAcceptable(heap: Heap, root: Id, path: seq<Id>, ancestors: set<Id>)
    requires Closed(heap) && Printable(heap, root) && IsPath(heap, root, path)
    requires forall id :: id in ancestors <==> id in path[..|path| - 1]
    ensures Acceptable(heap, path[|path| - 1], ancestors)
    decreases heap.Keys - ancestors
  {
    var v := path[|path| - 1];
    assert v in path;
    var node := heap[v];
    hide IsPath;
    if node.Container() {
      LastIsNew(path);
      forall child | child in node.Children() ensures Acceptable(heap, child, ancestors + {v}) {
        var longer := path + [child];
        PathExtends(heap, root, path, child);
        assert longer[..|longer| - 1] == path;
        assert path == path[..|path| - 1] + [v];
        PathsMakeAcceptable(heap, root, longer, ancestors + {v});
      }
    }
  }

  /** The ancestor-based reading is the graph property. */
  lemma AcceptableIffPrintable(heap: Heap, root: Id)
    requires Closed(heap) && root in heap
    ensures Acceptable(heap, root, {}) <==> Printable(heap, root)
  {
    if Acceptable(heap, root, {}) {
      forall path | IsPath(heap, root, path) ensures heap[path[|path| - 1]].Legal() && Distinct(path) {
        AcceptableBoundsPaths(heap, root, {}, path);
      }
    }
    if Printable(heap, root) {
      assert IsPath(heap, root, [root]);
      PathsMakeAcceptable(heap, root, [root], {});
    }
  }

  // ---- The stack ----

  datatype Frame = Visit(id: Id) | Leave(id: Id)

  /** The containers whose leave marker is on the stack. */
  function Markers(stack: seq<Frame>): set<Id> {
    set frame | frame in stack && frame.Leave? :: frame.id
  }

  lemma MarkersPush(stack: seq<Frame>, frame: Frame)
    ensures Markers(stack + [frame]) == if frame.Leave? then Markers(stack) + {frame.id} else Markers(stack)
  {
    forall id ensures id in Markers(stack + [frame]) <==> id in (if frame.Leave? then Markers(stack) + {frame.id} else Markers(stack)) {
      if id in Markers(stack + [frame]) {
        var f :| f in stack + [frame] && f.Leave? && f.id == id;
      }
      if id in Markers(stack) {
        var f :| f in stack && f.Leave? && f.id == id;
        assert f in stack + [frame];
      }
      if frame.Leave? { assert frame in stack + [frame]; }
    }
  }

  /** Every pending visit is acceptable under the leave markers beneath it. */
  ghost predicate PendingAcceptable(heap: Heap, stack: seq<Frame>)
    requires Closed(heap) && forall frame <- stack :: frame.id in heap
  {
    |stack| > 0 ==>
      var top, below := stack[|stack| - 1], stack[..|stack| - 1];
      (top.Visit? ==> Acceptable(heap, top.id, Markers(below))) && PendingAcceptable(heap, below)
  }

  /** A container is on the stack as a leave marker at most once. */
  ghost predicate MarkersOnce(stack: seq<Frame>) {
    |stack| > 0 ==>
      var top, below := stack[|stack| - 1], stack[..|stack| - 1];
      (top.Leave? ==> top.id !in Markers(below)) && MarkersOnce(below)
  }

  function Visits(children: seq<Id>): seq<Frame> {
    if |children| == 0 then [] else Visits(children[1..]) + [Visit(children[0])]
  }

  lemma {:induction false} PushVisits(heap: Heap, stack: seq<Frame>, children: seq<Id>)
    requires Closed(heap) && (forall frame <- stack :: frame.id in heap) && (forall child <- children :: child in heap)
    ensures forall frame <- stack + Visits(children) :: frame.id in heap
    ensures Markers(stack + Visits(children)) == Markers(stack)
    ensures MarkersOnce(stack + Visits(children)) <==> MarkersOnce(stack)
    ensures PendingAcceptable(heap, stack + Visits(children)) <==>
            PendingAcceptable(heap, stack) && forall child <- children :: Acceptable(heap, child, Markers(stack))
  {
    hide Acceptable;
    if |children| == 0 {
      assert stack + Visits(children) == stack;
    } else {
      var rest := children[1..];
      assert children[0] in children && forall child <- rest :: child in children;
      assert children == [children[0]] + rest;
      PushVisits(heap, stack, rest);
      var under := stack + Visits(rest);
      var all := stack + Visits(children);
      assert all == under + [Visit(children[0])];
      assert all[..|all| - 1] == under;
      MarkersPush(under, Visit(children[0]));
    }
  }

  // ---- Termination on every graph ----

  ghost function MaxDegree(heap: Heap): nat
    decreases |heap|
  {
    if heap == map[] then 0
    else
      var id :| id in heap;
      assert (heap - {id}).Keys == heap.Keys - {id};
      assert |(heap - {id}).Keys| < |heap.Keys|;
      var rest := MaxDegree(heap - {id});
      if |heap[id].Children()| > rest then |heap[id].Children()| else rest
  }

  lemma {:induction false} DegreeBound(heap: Heap, v: Id)
    requires v in heap
    ensures |heap[v].Children()| <= MaxDegree(heap)
    decreases |heap|
  {
    var id :| id in heap && MaxDegree(heap) ==
      (var rest := MaxDegree(heap - {id}); if |heap[id].Children()| > rest then |heap[id].Children()| else rest);
    if id != v {
      assert (heap - {id}).Keys == heap.Keys - {id};
      assert |(heap - {id}).Keys| < |heap.Keys|;
      DegreeBound(heap - {id}, v);
      assert (heap - {id})[v] == heap[v];
    }
  }

  ghost function Times(n: nat, cost: nat): nat {
    if n == 0 then 0 else Times(n - 1, cost) + cost
  }

  lemma {:induction false} TimesMonotone(a: nat, b: nat, cost: nat)
    requires a <= b
    ensures Times(a, cost) <= Times(b, cost)
    decreases b - a
  {
    if a < b { TimesMonotone(a, b - 1, cost); }
  }

  /** A bound on the work below a visit with `room` nodes outside its ancestors. */
  ghost function Cost(degree: nat, room: nat): nat {
    if room == 0 then 2 else 2 + Times(degree, Cost(degree, room - 1))
  }

  ghost function Work(heap: Heap, degree: nat, stack: seq<Frame>): nat {
    if |stack| == 0 then 0
    else
      var top, below := stack[|stack| - 1], stack[..|stack| - 1];
      Work(heap, degree, below) + if top.Leave? then 1 else Cost(degree, Room(heap, below))
  }

  ghost function Room(heap: Heap, stack: seq<Frame>): nat {
    |heap.Keys - Markers(stack)|
  }

  lemma WorkPush(heap: Heap, degree: nat, stack: seq<Frame>, frame: Frame)
    ensures Work(heap, degree, stack + [frame]) == Work(heap, degree, stack) + if frame.Leave? then 1 else Cost(degree, Room(heap, stack))
  {
    hide Cost, Room;
    assert (stack + [frame])[..|stack + [frame]| - 1] == stack;
  }

  lemma {:induction false} VisitsLeaveMarkers(stack: seq<Frame>, children: seq<Id>)
    ensures Markers(stack + Visits(children)) == Markers(stack)
  {
    hide Markers;
    if |children| == 0 {
      assert stack + Visits(children) == stack;
    } else {
      VisitsLeaveMarkers(stack, children[1..]);
      ConcatAssoc(stack, Visits(children[1..]), [Visit(children[0])]);
      MarkersPush(stack + Visits(children[1..]), Visit(children[0]));
    }
  }

  lemma {:induction false} WorkOfVisits(heap: Heap, degree: nat, stack: seq<Frame>, children: seq<Id>)
    ensures Work(heap, degree, stack + Visits(children)) == Work(heap, degree, stack) + Times(|children|, Cost(degree, Room(heap, stack)))
  {
    hide Cost, Markers, Work;
    if |children| == 0 {
      assert stack + Visits(children) == stack;
    } else {
      var rest := children[1..];
      WorkOfVisits(heap, degree, stack, rest);
      VisitsLeaveMarkers(stack, rest);
      ConcatAssoc(stack, Visits(rest), [Visit(children[0])]);
      WorkPush(heap, degree, stack + Visits(rest), Visit(children[0]));
    }
  }

  /** Expanding a container strictly lowers the remaining work, although the stack grows. */
  lemma ExpandLowersWork(heap: Heap, stack: seq<Frame>, v: Id)
    requires v in heap && v !in Markers(stack)
    ensures var degree := MaxDegree(heap);
            Work(heap, degree, stack + [Leave(v)] + Visits(heap[v].Children())) < Work(heap, degree, stack + [Visit(v)])
  {
    hide MaxDegree, Markers;
    var degree := MaxDegree(heap);
    var children := heap[v].Children();
    var marked := stack + [Leave(v)];
    assert marked[..|marked| - 1] == stack;
    MarkersPush(stack, Leave(v));
    VisitsLeaveMarkers(marked, children);
    WorkOfVisits(heap, degree, marked, children);
    var room := Room(heap, stack);
    assert heap.Keys - Markers(marked) == (heap.Keys - Markers(stack)) - {v};
    assert Room(heap, marked) == room - 1;
    DegreeBound(heap, v);
    TimesMonotone(|children|, degree, Cost(degree, room - 1));
    var visited := stack + [Visit(v)];
    assert visited[..|visited| - 1] == stack;
  }

  lemma PopLowersWork(heap: Heap, stack: seq<Frame>)
    requires |stack| > 0
    ensures Work(heap, MaxDegree(heap), stack[..|stack| - 1]) < Work(heap, MaxDegree(heap), stack)
  {
    hide MaxDegree, Markers;
    var below := stack[..|stack| - 1];
    assert Cost(MaxDegree(heap), Room(heap, below)) >= 2;
  }

  lemma ExpandKeepsInvariant(heap: Heap, stack: seq<Frame>, v: Id)
    requires Closed(heap) && v in heap && (forall frame <- stack :: frame.id in heap)
    requires heap[v].Container() && heap[v].Legal() && v !in Markers(stack) && MarkersOnce(stack)
    ensures var next := stack + [Leave(v)] + Visits(heap[v].Children());
            && (forall frame <- next :: frame.id in heap)
            && Markers(next) == Markers(stack) + {v} && MarkersOnce(next)
            && (PendingAcceptable(heap, next) <==> Acceptable(heap, v, Markers(stack)) && PendingAcceptable(heap, stack))
  {
    var marked := stack + [Leave(v)];
    assert marked[..|marked| - 1] == stack;
    MarkersPush(stack, Leave(v));
    PushVisits(heap, marked, heap[v].Children());
  }

  /**
    `_validate_json_value`: stops on every graph and accepts exactly the printable ones. The active set
    is always the set of containers whose leave marker is on the stack.
  */
  method ValidateJsonValue(heap: Heap, root: Id) returns (accepted: bool)
    requires Closed(heap) && root in heap
    ensures accepted <==> Printable(heap, root)
  {
    hide Acceptable, Printable, MaxDegree, Markers, Work, MarkersOnce, PendingAcceptable;
    var stack: seq<Frame> := [Visit(root)];
    var active: set<Id> := {};
    AcceptableIffPrintable(heap, root);
    StartInvariant(heap, root);
    while |stack| > 0
      invariant forall frame <- stack :: frame.id in heap
      invariant active == Markers(stack) && MarkersOnce(stack)
      invariant Printable(heap, root) <==> PendingAcceptable(heap, stack)
      decreases Work(heap, MaxDegree(heap), stack)
    {
      var frame := stack[|stack| - 1];
      ghost var whole := stack;
      assert frame in whole;
      PopLowersWork(heap, stack);
      stack := stack[..|stack| - 1];
      assert whole == stack + [frame];
      MarkersPush(stack, frame);
      PopUnfolds(heap, whole);
      if frame.Leave? {
        active := active - {frame.id};
        continue;
      }
      var node := heap[frame.id];
      AcceptableUnfolds(heap, frame.id, Markers(stack));
      if node.Scalar? { continue; }
      if !node.Container() { return false; }
      if frame.id in active { return false; }
      active := active + {frame.id};
      if node.DictNode? && !node.textKeys { return false; }
      ExpandLowersWork(heap, stack, frame.id);
      ExpandKeepsInvariant(heap, stack, frame.id);
      stack := stack + [Leave(frame.id)] + Visits(node.Children());
    }
    assert stack == [];
    EmptyStack(heap);
    return true;
  }

  lemma EmptyStack(heap: Heap)
    requires Closed(heap)
    ensures Markers([]) == {} && MarkersOnce([]) && PendingAcceptable(heap, [])
  {
  }

  lemma StartInvariant(heap: Heap, root: Id)
    requires Closed(heap) && root in heap
    ensures var stack := [Visit(root)];
            Markers(stack) == {} && MarkersOnce(stack) && (PendingAcceptable(heap, stack) <==> Acceptable(heap, root, {}))
  {
    hide Acceptable;
    var stack := [Visit(root)];
    EmptyStack(heap);
    assert stack[..0] == [] && stack == [] + [Visit(root)];
    MarkersPush([], Visit(root));
  }

  /** Popping splits the invariant into the top frame's own part and the rest. */
  lemma PopUnfolds(heap: Heap, stack: seq<Frame>)
    requires Closed(heap) && |stack| > 0 && (forall frame <- stack :: frame.id in heap) && MarkersOnce(stack)
    ensures var top, below := stack[|stack| - 1], stack[..|stack| - 1];
            && (forall frame <- below :: frame.id in heap) && MarkersOnce(below)
            && (top.Leave? ==> top.id !in Markers(below))
            && (PendingAcceptable(heap, stack) <==> (top.Visit? ==> Acceptable(heap, top.id, Markers(below))) && PendingAcceptable(heap, below))
  {
    hide Acceptable;
  }

  lemma AcceptableUnfolds(heap: Heap, v: Id, ancestors: set<Id>)
    requires Closed(heap) && v in heap
    ensures heap[v].Scalar? ==> Acceptable(heap, v, ancestors)
    ensures !heap[v].Legal() || (heap[v].Container() && v in ancestors) ==> !Acceptable(heap, v, ancestors)
  {
  }
}
