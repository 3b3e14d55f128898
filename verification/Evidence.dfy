/** Evidence for a failure: a capped breadth-first walk over the cause and context links of exceptions. */
module Evidence {
  import opened Basics

  type Id = nat

  datatype CodeLocation = CodeLocation(file: Text, line: nat, routine: Text)

  /** One exception: `text` is what its `__str__` returns, None if that raises. */
  datatype Node = Node(
    typeName: Text,
    marked: bool,
    text: Option<Text>,
    traceback: seq<CodeLocation>,
    cause: Option<Id>,
    context: Option<Id>
  )

  type Graph = map<Id, Node>

  datatype Relation = CAUSE | CONTEXT

  datatype ExceptionEvidence = ExceptionEvidence(
    exceptionType: Text,
    message: Option<Text>,
    locations: seq<CodeLocation>,
    relation: Option<Relation>
  )

  datatype Evidence = Evidence(chain: seq<ExceptionEvidence>, truncated: bool)

  const MAX_CHAIN_DEPTH := 10
  const MAX_TRACEBACK_FRAMES := 20

  ghost predicate Closed(g: Graph) {
    forall n, b: nat :: n in g && b < 2 && Link(g, n, b).Some? ==> Link(g, n, b).value in g
  }

  /** The cause is link 0, the context link 1: the order in which the walk takes them. */
  function Link(g: Graph, n: Id, b: nat): Option<Id> {
    if n !in g then None
    else if b == 0 then g[n].cause
    else if b == 1 then g[n].context
    else None
  }

  // ---- one exception ------------------------------------------------------

  /** The last frames: the innermost ones. */
  function LastFrames(frames: seq<CodeLocation>): seq<CodeLocation> {
    if |frames| <= MAX_TRACEBACK_FRAMES then frames else frames[|frames| - MAX_TRACEBACK_FRAMES..]
  }

  /** `_locations`: a sliding window over the traceback, outermost frame first. */
  method Locations(traceback: seq<CodeLocation>) returns (window: seq<CodeLocation>)
    ensures window == LastFrames(traceback)
  {
    window := [];
    for i := 0 to |traceback|
      invariant window == LastFrames(traceback[..i])
    {
      window := window + [traceback[i]];
      if |window| > MAX_TRACEBACK_FRAMES {
        window := window[1..];
      }
    }
    assert traceback[..|traceback|] == traceback;
  }

  /** Type, locations and, behind the marker only, the message. */
  function EvidenceFor(node: Node, relation: Option<Relation>): ExceptionEvidence {
    ExceptionEvidence(node.typeName, if node.marked then node.text else None, LastFrames(node.traceback), relation)
  }

  // ---- distance -----------------------------------------------------------

  ghost predicate Edge(g: Graph, m: Id, n: Id) {
    Link(g, m, 0) == Some(n) || Link(g, m, 1) == Some(n)
  }

  /** `n` is at most `k` links away from `root`. */
  ghost predicate Within(g: Graph, root: Id, n: Id, k: nat)
    decreases k
  {
    if k == 0 then n == root
    else Within(g, root, n, k - 1) || exists m :: Within(g, root, m, k - 1) && Edge(g, m, n)
  }

  ghost predicate Reachable(g: Graph, root: Id, n: Id) {
    exists k: nat :: Within(g, root, n, k)
  }

  ghost function Reach(g: Graph, root: Id): set<Id> {
    set n | n in g && Reachable(g, root, n)
  }

  /** `k` is the distance of `n`. */
  ghost predicate At(g: Graph, root: Id, n: Id, k: nat) {
    Within(g, root, n, k) && forall j: nat :: j < k ==> !Within(g, root, n, j)
  }

  // ---- the walk -----------------------------------------------------------

  /** The state of a walk. `keys[i]` says how `order[i]` was found: -1 for the root, `2 * p + b` for link `b` of
      `order[p]`; `qkeys` says the same of what is queued; `levels` counts links back to the root. */
  datatype Walk = Walk(order: seq<Id>, keys: seq<int>, levels: seq<nat>, queue: seq<Id>, qkeys: seq<int>)

  ghost predicate From(g: Graph, root: Id, order: seq<Id>, key: int, n: Id) {
    if key < 0 then key == -1 && n == root
    else key / 2 < |order| && Link(g, order[key / 2], key % 2) == Some(n)
  }

  ghost function Level(levels: seq<nat>, key: int): nat
    requires key < 2 * |levels|
  {
    if key < 0 then 0 else levels[key / 2] + 1
  }

  function RelationOf(key: int): Option<Relation> {
    if key < 0 then None else if key % 2 == 0 then Some(CAUSE) else Some(CONTEXT)
  }

  ghost predicate Increasing(keys: seq<int>) {
    forall i, j :: 0 <= i < j < |keys| ==> keys[i] < keys[j]
  }

  ghost predicate Distinct(order: seq<Id>) {
    forall i, j :: 0 <= i < j < |order| ==> order[i] != order[j]
  }

  /** Entry `i` was found by its key from an earlier entry, one level deeper. */
  ghost predicate Entry(g: Graph, root: Id, order: seq<Id>, keys: seq<int>, levels: seq<nat>, i: nat)
    requires i < |order| == |keys| == |levels|
  {
    && order[i] in g && keys[i] < 2 * i
    && From(g, root, order[..i], keys[i], order[i])
    && levels[i] == Level(levels[..i], keys[i])
  }

  /** The recorded part: each exception once, in the order of the links that first lead to it. */
  ghost predicate Recorded(g: Graph, root: Id, w: Walk) {
    && |w.order| == |w.keys| == |w.levels|
    && Distinct(w.order) && Increasing(w.keys)
    && (w.order != [] ==> w.order[0] == root)
    && forall i :: 0 <= i < |w.order| ==> Entry(g, root, w.order, w.keys, w.levels, i)
  }

  ghost predicate Queued(g: Graph, root: Id, w: Walk) {
    && |w.queue| == |w.qkeys| && Increasing(w.qkeys)
    && (forall j :: 0 <= j < |w.queue| ==> w.queue[j] in g && From(g, root, w.order, w.qkeys[j], w.queue[j]))
    && (forall i, j :: 0 <= i < |w.keys| && 0 <= j < |w.qkeys| ==> w.keys[i] < w.qkeys[j])
    && (w.order == [] ==> w.queue == [root] && w.qkeys == [-1])
  }

  ghost predicate FoundBy(nodes: seq<Id>, keys: seq<int>, n: Id, key: int) {
    exists i :: 0 <= i < |nodes| && i < |keys| && nodes[i] == n && keys[i] <= key
  }

  /** Every link out of a recorded exception leads to one recorded or queued no later than by this link. */
  ghost predicate Explored(g: Graph, w: Walk) {
    forall p, b: nat :: 0 <= p < |w.order| && b < 2 && Link(g, w.order[p], b).Some? ==>
      var n := Link(g, w.order[p], b).value;
      FoundBy(w.order, w.keys, n, 2 * p + b) || FoundBy(w.queue, w.qkeys, n, 2 * p + b)
  }

  ghost predicate Good(g: Graph, root: Id, w: Walk) {
    Recorded(g, root, w) && Queued(g, root, w) && Explored(g, w)
  }

  lemma {:induction false} FoundByTail(nodes: seq<Id>, keys: seq<int>, n: Id, key: int)
    requires |nodes| == |keys| > 0 && FoundBy(nodes, keys, n, key)
    ensures (nodes[0] == n && keys[0] <= key) || FoundBy(nodes[1..], keys[1..], n, key)
  {
    var i :| 0 <= i < |nodes| && i < |keys| && nodes[i] == n && keys[i] <= key;
    if i > 0 {
      assert nodes[1..][i - 1] == n && keys[1..][i - 1] <= key;
    }
  }

  lemma {:induction false} FoundByMore(nodes: seq<Id>, keys: seq<int>, more: seq<Id>, moreKeys: seq<int>, n: Id,
                                       key: int)
    requires |nodes| == |keys| && FoundBy(nodes, keys, n, key)
    ensures FoundBy(nodes + more, keys + moreKeys, n, key)
  {
    var i :| 0 <= i < |nodes| && i < |keys| && nodes[i] == n && keys[i] <= key;
    assert (nodes + more)[i] == n && (keys + moreKeys)[i] <= key;
  }

  lemma {:induction false} SkipQueued(g: Graph, root: Id, w: Walk)
    requires Queued(g, root, w) && w.order != [] && w.queue != []
    ensures Queued(g, root, w.(queue := w.queue[1..], qkeys := w.qkeys[1..]))
  {
    hide From;
  }

  lemma {:induction false} SkipExplored(g: Graph, w: Walk, at: nat)
    requires Explored(g, w) && |w.order| == |w.keys| && |w.queue| == |w.qkeys| > 0
    requires at < |w.order| && w.order[at] == w.queue[0] && w.keys[at] < w.qkeys[0]
    ensures Explored(g, w.(queue := w.queue[1..], qkeys := w.qkeys[1..]))
  {
    hide Link, FoundBy;
    var w' := w.(queue := w.queue[1..], qkeys := w.qkeys[1..]);
    forall p, b: nat | 0 <= p < |w.order| && b < 2 && Link(g, w.order[p], b).Some?
      ensures var n := Link(g, w.order[p], b).value;
              FoundBy(w'.order, w'.keys, n, 2 * p + b) || FoundBy(w'.queue, w'.qkeys, n, 2 * p + b)
    {
      var n := Link(g, w.order[p], b).value;
      if !FoundBy(w.order, w.keys, n, 2 * p + b) {
        FoundByTail(w.queue, w.qkeys, n, 2 * p + b);
        if w.queue[0] == n && w.qkeys[0] <= 2 * p + b {
          FoundAt(w.order, w.keys, at, 2 * p + b);
        }
      }
    }
  }

  /** Dropping a queued exception that is recorded already keeps the walk good. */
  lemma {:induction false} SkipVisited(g: Graph, root: Id, w: Walk)
    requires Good(g, root, w) && w.queue != [] && w.queue[0] in w.order
    ensures Good(g, root, w.(queue := w.queue[1..], qkeys := w.qkeys[1..]))
  {
    hide From, Link, FoundBy, Increasing, Distinct, Explored;
    SkipQueued(g, root, w);
    var at :| 0 <= at < |w.order| && w.order[at] == w.queue[0];
    assert w.keys[at] < w.qkeys[0];
    SkipExplored(g, w, at);
  }

  lemma {:induction false} FoundAt(nodes: seq<Id>, keys: seq<int>, i: nat, key: int)
    requires i < |nodes| && i < |keys| && keys[i] <= key
    ensures FoundBy(nodes, keys, nodes[i], key)
  {
  }

  /** The links of `n` that lead to something not yet recorded, with their keys. */
  function Fresh(order: seq<Id>, link: Option<Id>, key: int): (r: (seq<Id>, seq<int>)) {
    if link.Some? && link.value !in order then ([link.value], [key]) else ([], [])
  }

  ghost function Visit(g: Graph, w: Walk): Walk
    requires w.queue != [] && w.qkeys != [] && w.qkeys[0] < 2 * |w.levels|
  {
    var n, p := w.queue[0], |w.order|;
    var order := w.order + [n];
    var cause, context := Fresh(order, Link(g, n, 0), 2 * p), Fresh(order, Link(g, n, 1), 2 * p + 1);
    Walk(order, w.keys + [w.qkeys[0]], w.levels + [Level(w.levels, w.qkeys[0])],
         w.queue[1..] + cause.0 + context.0, w.qkeys[1..] + cause.1 + context.1)
  }

  /** Recording the head of the queue keeps the walk good. */
  lemma {:induction false} VisitGood(g: Graph, root: Id, w: Walk)
    requires Closed(g) && Good(g, root, w) && w.queue != [] && w.queue[0] !in w.order
    ensures w.qkeys[0] < 2 * |w.levels| && Good(g, root, Visit(g, w))
  {
    hide Closed, FoundBy;
    VisitRecorded(g, root, w);
    VisitQueued(g, root, w);
    VisitExplored(g, root, w);
  }

  lemma {:induction false} HeadAfterAll(g: Graph, root: Id, w: Walk)
    requires Good(g, root, w) && w.queue != [] && w.queue[0] !in w.order
    ensures Increasing(w.keys + [w.qkeys[0]]) && Distinct(w.order + [w.queue[0]])
    ensures w.qkeys[0] < 2 * |w.levels| && w.queue[0] in g && From(g, root, w.order, w.qkeys[0], w.queue[0])
    ensures w.order == [] ==> w.queue[0] == root
  {
    hide Explored;
  }

  lemma {:induction false} EntryKept(g: Graph, root: Id, order: seq<Id>, keys: seq<int>, levels: seq<nat>, i: nat,
                                     n: Id, key: int, level: nat)
    requires i < |order| == |keys| == |levels| && Entry(g, root, order, keys, levels, i)
    ensures Entry(g, root, order + [n], keys + [key], levels + [level], i)
  {
    assert (order + [n])[..i] == order[..i] && (levels + [level])[..i] == levels[..i];
  }

  lemma {:induction false} EntryAdded(g: Graph, root: Id, order: seq<Id>, keys: seq<int>, levels: seq<nat>, n: Id,
                                      key: int)
    requires |order| == |keys| == |levels| && n in g && key < 2 * |order| && From(g, root, order, key, n)
    ensures Entry(g, root, order + [n], keys + [key], levels + [Level(levels, key)], |order|)
  {
    var i := |order|;
    assert (order + [n])[..i] == order && (levels + [Level(levels, key)])[..i] == levels;
  }

  lemma {:induction false} VisitRecorded(g: Graph, root: Id, w: Walk)
    requires Good(g, root, w) && w.queue != [] && w.queue[0] !in w.order
    ensures w.qkeys[0] < 2 * |w.levels| && Recorded(g, root, Visit(g, w))
  {
    assert w.qkeys != [];
    hide Link, Explored, Fresh, From, Level, Distinct, Increasing, Queued, Entry;
    HeadAfterAll(g, root, w);
    var w', n, key, level := Visit(g, w), w.queue[0], w.qkeys[0], Level(w.levels, w.qkeys[0]);
    assert w'.order == w.order + [n] && w'.keys == w.keys + [key] && w'.levels == w.levels + [level];
    forall i | 0 <= i < |w'.order| ensures Entry(g, root, w'.order, w'.keys, w'.levels, i) {
      if i < |w.order| {
        EntryKept(g, root, w.order, w.keys, w.levels, i, n, key, level);
      } else {
        EntryAdded(g, root, w.order, w.keys, w.levels, n, key);
      }
    }
  }

  lemma {:induction false} FreshKeys(keys: seq<int>, more: seq<int>, others: seq<int>, p: nat)
    requires Increasing(keys) && forall j :: 0 <= j < |keys| ==> keys[j] < 2 * p
    requires more == [] || more == [2 * p]
    requires others == [] || others == [2 * p + 1]
    ensures Increasing(keys + more + others)
    ensures forall j :: 0 <= j < |keys + more + others| ==>
              (keys + more + others)[j] in keys || (keys + more + others)[j] >= 2 * p
  {
  }

  lemma {:induction false} FromMore(g: Graph, root: Id, order: seq<Id>, more: seq<Id>, key: int, n: Id)
    requires From(g, root, order, key, n)
    ensures From(g, root, order + more, key, n)
  {
  }

  /** Queued exceptions, each found by the link its key says, all after `low`. */
  ghost predicate Items(g: Graph, root: Id, order: seq<Id>, nodes: seq<Id>, keys: seq<int>, low: int) {
    |nodes| == |keys| && forall j :: 0 <= j < |nodes| ==>
      nodes[j] in g && From(g, root, order, keys[j], nodes[j]) && low < keys[j]
  }

  lemma {:induction false} ItemsJoin(g: Graph, root: Id, order: seq<Id>, low: int,
                                     a: seq<Id>, aKeys: seq<int>, b: seq<Id>, bKeys: seq<int>)
    requires Items(g, root, order, a, aKeys, low) && Items(g, root, order, b, bKeys, low)
    ensures Items(g, root, order, a + b, aKeys + bKeys, low)
  {
    hide From;
  }

  lemma {:induction false} RestItems(g: Graph, root: Id, w: Walk, more: seq<Id>)
    requires Queued(g, root, w) && w.queue != []
    ensures Items(g, root, w.order + more, w.queue[1..], w.qkeys[1..], w.qkeys[0]) && Increasing(w.qkeys[1..])
  {
    hide From;
    forall j | 0 <= j < |w.queue[1..]|
      ensures w.queue[1..][j] in g && From(g, root, w.order + more, w.qkeys[1..][j], w.queue[1..][j])
    {
      FromMore(g, root, w.order, more, w.qkeys[j + 1], w.queue[j + 1]);
    }
  }

  lemma {:induction false} VisitQueued(g: Graph, root: Id, w: Walk)
    requires Closed(g) && Good(g, root, w) && w.queue != [] && w.queue[0] !in w.order
    requires w.qkeys[0] < 2 * |w.levels|
    ensures Queued(g, root, Visit(g, w))
  {
    hide Explored, From, Link, Fresh, Closed, Increasing, Items, Distinct;
    var w', n, p := Visit(g, w), w.queue[0], |w.order|;
    var cause, context := Fresh(w'.order, Link(g, n, 0), 2 * p), Fresh(w'.order, Link(g, n, 1), 2 * p + 1);
    KeysBelow(g, root, w);
    HeadIsLast(g, root, w);
    assert n in g;
    hide Queued, Recorded;
    FreshItems(g, root, w'.order, n, p, 0, w.qkeys[0]);
    FreshItems(g, root, w'.order, n, p, 1, w.qkeys[0]);
    RestItems(g, root, w, [n]);
    FreshKeys(w.qkeys[1..], cause.1, context.1, p);
    ItemsJoin(g, root, w'.order, w.qkeys[0], w.queue[1..], w.qkeys[1..], cause.0, cause.1);
    ItemsJoin(g, root, w'.order, w.qkeys[0], w.queue[1..] + cause.0, w.qkeys[1..] + cause.1, context.0, context.1);
    QueuedFrom(g, root, w', w.qkeys[0]);
  }

  lemma {:induction false} KeysBelow(g: Graph, root: Id, w: Walk)
    requires Queued(g, root, w) && w.queue != [] && |w.order| == |w.keys|
    ensures forall j :: 0 <= j < |w.qkeys| ==> w.qkeys[j] < 2 * |w.order|
  {
  }

  lemma {:induction false} HeadIsLast(g: Graph, root: Id, w: Walk)
    requires Queued(g, root, w) && w.queue != []
    ensures forall i :: 0 <= i < |w.keys + [w.qkeys[0]]| ==> (w.keys + [w.qkeys[0]])[i] <= w.qkeys[0]
  {
    hide From;
  }

  lemma {:induction false} QueuedFrom(g: Graph, root: Id, w: Walk, last: int)
    requires w.order != [] && Items(g, root, w.order, w.queue, w.qkeys, last) && Increasing(w.qkeys)
    requires forall i :: 0 <= i < |w.keys| ==> w.keys[i] <= last
    ensures Queued(g, root, w)
  {
    hide From;
  }

  lemma {:induction false} FreshItems(g: Graph, root: Id, order: seq<Id>, n: Id, p: nat, b: nat, low: int)
    requires Closed(g) && n in g && p < |order| && order[p] == n && b < 2 && low < 2 * p
    ensures var f := Fresh(order, Link(g, n, b), 2 * p + b);
            (f.1 == [] || f.1 == [2 * p + b]) && Items(g, root, order, f.0, f.1, low)
  {
  }

  lemma {:induction false} VisitExplored(g: Graph, root: Id, w: Walk)
    requires Good(g, root, w) && w.queue != [] && w.queue[0] !in w.order
    requires w.qkeys[0] < 2 * |w.levels|
    ensures Explored(g, Visit(g, w))
  {
    assert |w.order| == |w.keys| && |w.queue| == |w.qkeys|;
    assert w.qkeys[0] < 2 * |w.order| && forall i :: 0 <= i < |w.keys| ==> w.keys[i] < w.qkeys[0];
    assert Explored(g, w);
    hide Recorded, Queued, FoundBy, From, Good;
    var w', n := Visit(g, w), w.queue[0];
    forall p, b: nat | 0 <= p < |w'.order| && b < 2 && Link(g, w'.order[p], b).Some?
      ensures var t := Link(g, w'.order[p], b).value;
              FoundBy(w'.order, w'.keys, t, 2 * p + b) || FoundBy(w'.queue, w'.qkeys, t, 2 * p + b)
    {
      var t := Link(g, w'.order[p], b).value;
      if p < |w.order| {
        OldLink(g, w, t, 2 * p + b);
      } else {
        NewLink(g, w, t, b);
      }
    }
  }

  lemma {:induction false} OldLink(g: Graph, w: Walk, t: Id, key: int)
    requires |w.order| == |w.keys| && |w.queue| == |w.qkeys| > 0 && w.qkeys[0] < 2 * |w.levels|
    requires FoundBy(w.order, w.keys, t, key) || FoundBy(w.queue, w.qkeys, t, key)
    ensures || FoundBy(Visit(g, w).order, Visit(g, w).keys, t, key)
            || FoundBy(Visit(g, w).queue, Visit(g, w).qkeys, t, key)
  {
    hide FoundBy, Link, Fresh;
    var w', n, p := Visit(g, w), w.queue[0], |w.order|;
    if FoundBy(w.order, w.keys, t, key) {
      FoundByMore(w.order, w.keys, [n], [w.qkeys[0]], t, key);
    } else {
      FoundByTail(w.queue, w.qkeys, t, key);
      if n == t && w.qkeys[0] <= key {
        FoundAt(w'.order, w'.keys, p, key);
      } else {
        var cause, context := Fresh(w'.order, Link(g, n, 0), 2 * p), Fresh(w'.order, Link(g, n, 1), 2 * p + 1);
        FoundByMore(w.queue[1..], w.qkeys[1..], cause.0 + context.0, cause.1 + context.1, t, key);
        Assoc(w.queue[1..], cause.0, context.0);
        Assoc(w.qkeys[1..], cause.1, context.1);
      }
    }
  }

  lemma {:induction false} NewLink(g: Graph, w: Walk, t: Id, b: nat)
    requires |w.order| == |w.keys| && |w.queue| == |w.qkeys| > 0 && w.qkeys[0] < 2 * |w.levels|
    requires w.qkeys[0] < 2 * |w.order| && forall i :: 0 <= i < |w.keys| ==> w.keys[i] < w.qkeys[0]
    requires b < 2 && Link(g, w.queue[0], b) == Some(t)
    ensures var key := 2 * |w.order| + b;
            || FoundBy(Visit(g, w).order, Visit(g, w).keys, t, key)
            || FoundBy(Visit(g, w).queue, Visit(g, w).qkeys, t, key)
  {
    hide FoundBy, Link;
    var w', n, p := Visit(g, w), w.queue[0], |w.order|;
    if t in w'.order {
      var i :| 0 <= i < |w'.order| && w'.order[i] == t;
      FoundAt(w'.order, w'.keys, i, 2 * p + b);
    } else {
      var at := |w'.queue| - 1 - if b == 0 then |Fresh(w'.order, Link(g, n, 1), 2 * p + 1).0| else 0;
      assert w'.queue[at] == t && w'.qkeys[at] == 2 * p + b;
      FoundAt(w'.queue, w'.qkeys, at, 2 * p + b);
    }
  }

  // ---- what a good walk knows ---------------------------------------------

  lemma {:induction false} LevelsRise(g: Graph, root: Id, w: Walk, a: nat, b: nat)
    requires Recorded(g, root, w) && a <= b < |w.order|
    ensures w.levels[a] <= w.levels[b]
    decreases b
  {
    hide Distinct, Link;
    assert Entry(g, root, w.order, w.keys, w.levels, a);
    assert Entry(g, root, w.order, w.keys, w.levels, b);
    if a < b && w.keys[a] >= 0 {
      assert w.keys[a] < w.keys[b];
      LevelsRise(g, root, w, w.keys[a] / 2, w.keys[b] / 2);
    }
  }

  lemma {:induction false} LaterKeyDeeper(g: Graph, root: Id, w: Walk, key: int, later: int)
    requires Recorded(g, root, w) && key <= later < 2 * |w.levels|
    ensures Level(w.levels, key) <= Level(w.levels, later)
  {
    hide Distinct, Link, From;
    if key >= 0 {
      LevelsRise(g, root, w, key / 2, later / 2);
    }
  }

  lemma {:induction false} RecordedWithin(g: Graph, root: Id, w: Walk, i: nat)
    requires Recorded(g, root, w) && i < |w.order|
    ensures Within(g, root, w.order[i], w.levels[i])
  {
    hide Distinct, Increasing;
    assert Entry(g, root, w.order, w.keys, w.levels, i);
    if w.keys[i] >= 0 {
      var p := w.keys[i] / 2;
      RecordedWithin(g, root, w, p);
      assert Link(g, w.order[p], w.keys[i] % 2) == Some(w.order[i]);
      assert Edge(g, w.order[p], w.order[i]);
    }
  }

  ghost predicate RecordedBy(w: Walk, n: Id, k: nat) {
    exists i :: 0 <= i < |w.order| && i < |w.levels| && w.order[i] == n && w.levels[i] <= k
  }

  ghost predicate StillQueued(w: Walk, k: nat) {
    exists j :: 0 <= j < |w.qkeys| && w.qkeys[j] < 2 * |w.levels| && Level(w.levels, w.qkeys[j]) <= k
  }

  /** Whatever is at most `k` links away is recorded, or something that near is still queued. */
  lemma {:induction false} Covered(g: Graph, root: Id, w: Walk, n: Id, k: nat)
    requires Good(g, root, w) && Within(g, root, n, k)
    ensures RecordedBy(w, n, k) || StillQueued(w, k)
    decreases k
  {
    hide Recorded, Queued, Explored, FoundBy, From, Link;
    if k == 0 {
      RootCovered(g, root, w);
    } else if Within(g, root, n, k - 1) {
      Covered(g, root, w, n, k - 1);
    } else {
      var m :| Within(g, root, m, k - 1) && Edge(g, m, n);
      Covered(g, root, w, m, k - 1);
      if RecordedBy(w, m, k - 1) {
        var p :| 0 <= p < |w.order| && p < |w.levels| && w.order[p] == m && w.levels[p] <= k - 1;
        LinkCovered(g, root, w, p, if Link(g, m, 0) == Some(n) then 0 else 1);
      }
    }
  }

  lemma {:induction false} RootCovered(g: Graph, root: Id, w: Walk)
    requires Good(g, root, w)
    ensures RecordedBy(w, root, 0) || StillQueued(w, 0)
  {
    hide Explored, Distinct, Increasing, From;
    if w.order == [] {
      assert w.qkeys[0] == -1;
    } else {
      assert Entry(g, root, w.order, w.keys, w.levels, 0);
    }
  }

  lemma {:induction false} LinkCovered(g: Graph, root: Id, w: Walk, p: nat, b: nat)
    requires Good(g, root, w) && p < |w.order| && b < 2 && Link(g, w.order[p], b).Some?
    ensures var n := Link(g, w.order[p], b).value;
            RecordedBy(w, n, w.levels[p] + 1) || StillQueued(w, w.levels[p] + 1)
  {
    hide Distinct, Increasing, Link, From;
    var n, key := Link(g, w.order[p], b).value, 2 * p + b;
    assert |w.order| == |w.keys| == |w.levels| && Level(w.levels, key) == w.levels[p] + 1;
    assert FoundBy(w.order, w.keys, n, key) || FoundBy(w.queue, w.qkeys, n, key);
    assert |w.queue| == |w.qkeys|;
    assert Recorded(g, root, w);
    hide *;
    if FoundBy(w.order, w.keys, n, key) {
      FoundRecorded(g, root, w, n, key);
    } else {
      FoundQueued(g, root, w, n, key);
    }
  }

  lemma {:induction false} FoundRecorded(g: Graph, root: Id, w: Walk, n: Id, key: int)
    requires Recorded(g, root, w) && key < 2 * |w.levels| && FoundBy(w.order, w.keys, n, key)
    ensures RecordedBy(w, n, Level(w.levels, key))
  {
    hide Distinct, Increasing, Link, From, Level;
    var i :| 0 <= i < |w.order| && i < |w.keys| && w.order[i] == n && w.keys[i] <= key;
    LaterKeyDeeper(g, root, w, w.keys[i], key);
    LevelOf(g, root, w, i);
  }

  lemma {:induction false} FoundQueued(g: Graph, root: Id, w: Walk, n: Id, key: int)
    requires Recorded(g, root, w) && key < 2 * |w.levels| && FoundBy(w.queue, w.qkeys, n, key)
    ensures StillQueued(w, Level(w.levels, key))
  {
    var j :| 0 <= j < |w.queue| && j < |w.qkeys| && w.queue[j] == n && w.qkeys[j] <= key;
    hide Recorded, Level;
    LaterKeyDeeper(g, root, w, w.qkeys[j], key);
  }

  lemma {:induction false} LevelOf(g: Graph, root: Id, w: Walk, i: nat)
    requires Recorded(g, root, w) && i < |w.order|
    ensures w.keys[i] < 2 * |w.levels| && w.levels[i] == Level(w.levels, w.keys[i])
  {
    assert Entry(g, root, w.order, w.keys, w.levels, i);
    hide Distinct, Increasing, Link, From;
  }

  /** Nothing queued is nearer than anything recorded. */
  lemma {:induction false} QueuedDeeper(g: Graph, root: Id, w: Walk, i: nat, k: nat)
    requires Good(g, root, w) && i < |w.order| && StillQueued(w, k)
    ensures w.levels[i] <= k
  {
    hide Distinct, Increasing, Explored, Link, From;
    var j :| 0 <= j < |w.qkeys| && w.qkeys[j] < 2 * |w.levels| && Level(w.levels, w.qkeys[j]) <= k;
    LevelOf(g, root, w, i);
    LaterKeyDeeper(g, root, w, w.keys[i], w.qkeys[j]);
  }

  /** Each recorded exception stands at its distance from the root. */
  lemma {:induction false} RecordedAt(g: Graph, root: Id, w: Walk, i: nat)
    requires Good(g, root, w) && i < |w.order|
    ensures At(g, root, w.order[i], w.levels[i])
  {
    hide Queued, Explored, Link, From, Increasing, Within;
    RecordedWithin(g, root, w, i);
    forall j: nat | j < w.levels[i] ensures !Within(g, root, w.order[i], j) {
      if Within(g, root, w.order[i], j) {
        Covered(g, root, w, w.order[i], j);
        if StillQueued(w, j) {
          QueuedDeeper(g, root, w, i, j);
        }
        assert false;
      }
    }
  }

  /** What was left out is no nearer than anything recorded. */
  lemma {:induction false} NearestFirst(g: Graph, root: Id, w: Walk, i: nat, n: Id, k: nat)
    requires Good(g, root, w) && i < |w.order| && n !in w.order && Within(g, root, n, k)
    ensures w.levels[i] <= k
  {
    hide Recorded, Queued, Explored, Within;
    Covered(g, root, w, n, k);
    QueuedDeeper(g, root, w, i, k);
  }

  ghost function Nodes(order: seq<Id>): set<Id> {
    set i | 0 <= i < |order| :: order[i]
  }

  lemma {:induction false} DistinctCount(order: seq<Id>)
    requires Distinct(order)
    ensures |Nodes(order)| == |order|
  {
    if order != [] {
      var n := |order| - 1;
      DistinctCount(order[..n]);
      assert Nodes(order) == Nodes(order[..n]) + {order[n]};
    }
  }

  lemma {:induction false} RecordedReachable(g: Graph, root: Id, w: Walk)
    requires Good(g, root, w)
    ensures Nodes(w.order) <= Reach(g, root)
    ensures |Nodes(w.order)| == |w.order|
  {
    hide Queued, Explored, Link, From, Increasing, Within;
    forall i | 0 <= i < |w.order| ensures w.order[i] in Reach(g, root) {
      RecordedWithin(g, root, w, i);
      assert Entry(g, root, w.order, w.keys, w.levels, i);
    }
    DistinctCount(w.order);
  }

  /** With an empty queue everything reachable is recorded. */
  lemma {:induction false} AllRecorded(g: Graph, root: Id, w: Walk)
    requires Good(g, root, w) && w.queue == []
    ensures Nodes(w.order) == Reach(g, root) && |Reach(g, root)| == |w.order|
  {
    RecordedReachable(g, root, w);
    assert w.qkeys == [];
    hide Recorded, Queued, Explored, Within;
    forall n | n in Reach(g, root) ensures n in w.order {
      var k: nat :| Within(g, root, n, k);
      Covered(g, root, w, n, k);
    }
  }

  /** With a queued exception not yet recorded, more is reachable than is recorded. */
  lemma {:induction false} MoreReachable(g: Graph, root: Id, w: Walk)
    requires Closed(g) && Good(g, root, w) && w.queue != [] && w.queue[0] !in w.order
    ensures |Reach(g, root)| > |w.order|
  {
    VisitGood(g, root, w);
    RecordedReachable(g, root, Visit(g, w));
    hide Good, Within;
    SubsetSize(Nodes(Visit(g, w).order), Reach(g, root));
  }

  lemma {:induction false} SubsetSize<T>(a: set<T>, b: set<T>)
    requires a <= b
    ensures |a| <= |b|
  {
    assert b == a + (b - a);
  }

  // ---- the method ---------------------------------------------------------

  datatype Pending = Pending(node: Id, relation: Option<Relation>)

  ghost function QueueNodes(queue: seq<Pending>): (r: seq<Id>)
    ensures |r| == |queue| && forall j :: 0 <= j < |queue| ==> r[j] == queue[j].node
  {
    seq(|queue|, j requires 0 <= j < |queue| => queue[j].node)
  }

  ghost predicate Related(queue: seq<Pending>, keys: seq<int>) {
    |queue| == |keys| && forall j :: 0 <= j < |queue| ==> queue[j].relation == RelationOf(keys[j])
  }

  /** The chain reports these exceptions, each by the link that first led to it. */
  ghost predicate Reports(g: Graph, chain: seq<ExceptionEvidence>, order: seq<Id>, keys: seq<int>) {
    && |chain| == |order| == |keys|
    && forall i :: 0 <= i < |chain| ==> order[i] in g && chain[i] == EvidenceFor(g[order[i]], RelationOf(keys[i]))
  }

  /** Each recorded exception was found by the first of all the links that lead to it from a recorded one. */
  ghost predicate FirstLinks(g: Graph, w: Walk) {
    forall i, p, b: nat :: 0 <= i < |w.order| && i < |w.keys| && 0 <= p < |w.order| && b < 2 ==>
      (Link(g, w.order[p], b) == Some(w.order[i]) ==> w.keys[i] <= 2 * p + b)
  }

  lemma {:induction false} FirstLinksFound(g: Graph, root: Id, w: Walk)
    requires Good(g, root, w)
    ensures FirstLinks(g, w)
  {
    hide Link, From;
    forall i, p, b: nat | && 0 <= i < |w.order| && 0 <= p < |w.order| && b < 2
                          && Link(g, w.order[p], b) == Some(w.order[i])
      ensures w.keys[i] <= 2 * p + b
    {
      if FoundBy(w.order, w.keys, w.order[i], 2 * p + b) {
        var at :| 0 <= at < |w.order| && at < |w.keys| && w.order[at] == w.order[i] && w.keys[at] <= 2 * p + b;
        assert at == i;
      }
    }
  }

  /** The recorded exceptions are a breadth-first prefix: each at its distance, by its first link, in nondecreasing
      distance, and none left out is nearer than any of them. */
  ghost predicate BreadthFirst(g: Graph, root: Id, w: Walk) {
    && Recorded(g, root, w) && FirstLinks(g, w)
    && (forall i :: 0 <= i < |w.order| ==> At(g, root, w.order[i], w.levels[i]))
    && (forall i, j :: 0 <= i < j < |w.order| ==> w.levels[i] <= w.levels[j])
    && (forall i, n, k: nat :: 0 <= i < |w.order| && Within(g, root, n, k) && n !in w.order ==> w.levels[i] <= k)
  }

  lemma {:induction false} GoodIsBreadthFirst(g: Graph, root: Id, w: Walk)
    requires Good(g, root, w)
    ensures BreadthFirst(g, root, w)
  {
    assert Recorded(g, root, w);
    hide Good, Recorded, Link, Within, At, FirstLinks;
    FirstLinksFound(g, root, w);
    forall i | 0 <= i < |w.order| ensures At(g, root, w.order[i], w.levels[i]) {
      RecordedAt(g, root, w, i);
    }
    forall i, j | 0 <= i < j < |w.order| ensures w.levels[i] <= w.levels[j] {
      LevelsRise(g, root, w, i, j);
    }
    forall i, n, k: nat | 0 <= i < |w.order| && Within(g, root, n, k) && n !in w.order ensures w.levels[i] <= k {
      NearestFirst(g, root, w, i, n, k);
    }
  }

  /** `_evidence_for`. */
  method CollectEvidence(node: Node, relation: Option<Relation>) returns (e: ExceptionEvidence)
    ensures e == EvidenceFor(node, relation)
  {
    var locations := Locations(node.traceback);
    e := ExceptionEvidence(node.typeName, if node.marked then node.text else None, locations, relation);
  }

  /** One turn of the loop over the two links. */
  function Enqueue(queue: seq<Pending>, link: Option<Id>, relation: Relation, visited: set<Id>): seq<Pending> {
    if link.Some? && link.value !in visited then queue + [Pending(link.value, Some(relation))] else queue
  }

  lemma {:induction false} EnqueueFresh(queue: seq<Pending>, keys: seq<int>, link: Option<Id>, relation: Relation,
                                        order: seq<Id>, key: int)
    requires Related(queue, keys) && RelationOf(key) == Some(relation)
    ensures var q := Enqueue(queue, link, relation, Nodes(order));
            && QueueNodes(q) == QueueNodes(queue) + Fresh(order, link, key).0
            && Related(q, keys + Fresh(order, link, key).1)
  {
  }

  /** The loop body past the cap check is one visit. */
  lemma {:induction false} QueueVisits(g: Graph, w: Walk, queue: seq<Pending>)
    requires queue != [] && w.queue == QueueNodes(queue) && Related(queue, w.qkeys) && w.qkeys[0] < 2 * |w.levels|
    requires queue[0].node in g && |w.order| == |w.keys|
    ensures var visited := Nodes(w.order) + {queue[0].node};
            var node := g[queue[0].node];
            var q := Enqueue(Enqueue(queue[1..], node.cause, CAUSE, visited), node.context, CONTEXT, visited);
            && visited == Nodes(Visit(g, w).order)
            && Visit(g, w).queue == QueueNodes(q) && Related(q, Visit(g, w).qkeys)
  {
    hide Enqueue, Fresh;
    var n, p, order := queue[0].node, |w.order|, w.order + [queue[0].node];
    assert Nodes(order) == Nodes(w.order) + {n} by { NodesSnoc(w.order, n); }
    hide Nodes;
    EnqueueFresh(queue[1..], w.qkeys[1..], g[n].cause, CAUSE, order, 2 * p);
    var q := Enqueue(queue[1..], g[n].cause, CAUSE, Nodes(order));
    EnqueueFresh(q, w.qkeys[1..] + Fresh(order, g[n].cause, 2 * p).1, g[n].context, CONTEXT, order, 2 * p + 1);
    assert QueueNodes(queue[1..]) == w.queue[1..];
  }

  lemma {:induction false} NodesSnoc(order: seq<Id>, n: Id)
    ensures Nodes(order + [n]) == Nodes(order) + {n}
  {
    assert forall i :: 0 <= i < |order| ==> (order + [n])[i] == order[i];
    assert (order + [n])[|order|] == n;
  }

  lemma {:induction false} NodesIn(order: seq<Id>, n: Id)
    ensures n in Nodes(order) <==> n in order
  {
  }

  lemma {:induction false} ReportsSnoc(g: Graph, chain: seq<ExceptionEvidence>, w: Walk, e: ExceptionEvidence)
    requires Reports(g, chain, w.order, w.keys) && w.queue != [] && w.qkeys != [] && w.qkeys[0] < 2 * |w.levels|
    requires w.queue[0] in g && e == EvidenceFor(g[w.queue[0]], RelationOf(w.qkeys[0]))
    ensures Reports(g, chain + [e], Visit(g, w).order, Visit(g, w).keys)
  {
    hide EvidenceFor;
  }

  /** What is shown of an exception: its type, its message exactly if it is marked and has one, and its innermost
      frames. */
  ghost predicate Shows(node: Node, e: ExceptionEvidence) {
    && e.exceptionType == node.typeName
    && (!node.marked ==> e.message.None?) && (node.marked ==> e.message == node.text)
    && |e.locations| <= MAX_TRACEBACK_FRAMES && |e.locations| <= |node.traceback|
    && e.locations == node.traceback[|node.traceback| - |e.locations|..]
    && (|node.traceback| <= MAX_TRACEBACK_FRAMES ==> e.locations == node.traceback)
  }

  lemma {:induction false} ReportsShow(g: Graph, chain: seq<ExceptionEvidence>, w: Walk)
    requires Reports(g, chain, w.order, w.keys)
    ensures forall i :: 0 <= i < |chain| ==> Shows(g[w.order[i]], chain[i])
  {
  }

  /** How an exception came to be reported: the raised one by no link, any other by the cause or the context of an
      earlier one, as its relation says; of two links out of one exception the cause comes first. */
  ghost predicate Labelled(g: Graph, chain: seq<ExceptionEvidence>, order: seq<Id>) {
    && |chain| == |order|
    && (forall i :: 0 <= i < |order| ==> LabelledAt(g, chain, order, i))
  }

  ghost predicate LabelledAt(g: Graph, chain: seq<ExceptionEvidence>, order: seq<Id>, i: nat)
    requires i < |chain| == |order|
  {
    match chain[i].relation
    case None => i == 0
    case Some(CAUSE) => exists p :: 0 <= p < i && order[p] in g && g[order[p]].cause == Some(order[i])
    case Some(CONTEXT) =>
      exists p :: 0 <= p < i && order[p] in g && g[order[p]].context == Some(order[i])
        && forall k :: i < k < |order| ==> g[order[p]].cause != Some(order[k])
  }

  lemma {:induction false} ReportsLabelled(g: Graph, root: Id, chain: seq<ExceptionEvidence>, w: Walk)
    requires Reports(g, chain, w.order, w.keys) && Recorded(g, root, w) && FirstLinks(g, w)
    ensures Labelled(g, chain, w.order)
  {
    forall i | 0 <= i < |w.order| ensures LabelledAt(g, chain, w.order, i) {
      assert Entry(g, root, w.order, w.keys, w.levels, i);
      if w.keys[i] < 0 {
        FirstIsRoot(g, root, w, i);
      } else {
        var p := w.keys[i] / 2;
        assert p < i && Link(g, w.order[p], w.keys[i] % 2) == Some(w.order[i]);
        if w.keys[i] % 2 == 1 {
          forall k | i < k < |w.order| ensures g[w.order[p]].cause != Some(w.order[k]) {
            assert Link(g, w.order[p], 0) == g[w.order[p]].cause;
            assert w.keys[i] < w.keys[k];
          }
        }
      }
    }
  }

  lemma {:induction false} FirstIsRoot(g: Graph, root: Id, w: Walk, i: nat)
    requires Recorded(g, root, w) && i < |w.order| && w.keys[i] < 0
    ensures i == 0
  {
    assert Entry(g, root, w.order, w.keys, w.levels, i);
    assert Entry(g, root, w.order, w.keys, w.levels, 0);
  }

  /** `build_evidence`. The walk `w` behind the chain is breadth first, and complete unless more than the cap is
      reachable. */
  method BuildEvidence(g: Graph, root: Id) returns (e: Evidence, ghost w: Walk)
    requires Closed(g) && root in g
    ensures Reports(g, e.chain, w.order, w.keys) && BreadthFirst(g, root, w)
    ensures e.truncated <==> |Reach(g, root)| > MAX_CHAIN_DEPTH
    ensures |e.chain| == if e.truncated then MAX_CHAIN_DEPTH else |Reach(g, root)|
    ensures !e.truncated ==> Nodes(w.order) == Reach(g, root)
    ensures forall i :: 0 <= i < |e.chain| ==> Shows(g[w.order[i]], e.chain[i])
    ensures Labelled(g, e.chain, w.order)
  {
    var entries: seq<ExceptionEvidence> := [];
    var visited: set<Id> := {};
    var truncated := false;
    var queue := [Pending(root, None)];
    w := Walk([], [], [], [root], [-1]);
    assert Good(g, root, w);
    assert Nodes(w.order) == {};
    hide Good, BreadthFirst, EvidenceFor, Visit, Nodes, Reach, Enqueue, Closed;
    while queue != []
      invariant Good(g, root, w) && visited == Nodes(w.order)
      invariant w.queue == QueueNodes(queue) && Related(queue, w.qkeys)
      invariant Reports(g, entries, w.order, w.keys) && |entries| <= MAX_CHAIN_DEPTH
      invariant !truncated
      decreases MAX_CHAIN_DEPTH - |entries|, |queue|
    {
      var current := queue[0];
      NodesIn(w.order, current.node);
      QueuedKnown(g, root, w);
      if current.node in visited {
        SkipVisited(g, root, w);
        queue, w := queue[1..], w.(queue := w.queue[1..], qkeys := w.qkeys[1..]);
        continue;
      }
      if |entries| >= MAX_CHAIN_DEPTH {
        truncated := true;
        MoreReachable(g, root, w);
        break;
      }
      VisitGood(g, root, w);
      QueueVisits(g, w, queue);
      var evidence := CollectEvidence(g[current.node], current.relation);
      ReportsSnoc(g, entries, w, evidence);
      visited := visited + {current.node};
      entries := entries + [evidence];
      queue := queue[1..];
      queue := Enqueue(queue, g[current.node].cause, CAUSE, visited);
      queue := Enqueue(queue, g[current.node].context, CONTEXT, visited);
      w := Visit(g, w);
    }
    if !truncated {
      AllRecorded(g, root, w);
    }
    GoodIsBreadthFirst(g, root, w);
    ReportsShow(g, entries, w);
    ReportsLabelled(g, root, entries, w);
    e := Evidence(entries, truncated);
  }

  lemma {:induction false} QueuedKnown(g: Graph, root: Id, w: Walk)
    requires Good(g, root, w) && w.queue != []
    ensures w.queue[0] in g && |w.queue| == |w.qkeys| && |w.order| == |w.keys| == |w.levels|
  {
    hide Link, From, Explored;
  }
}
