/** Flattening workspaces to library names, and writing them (bridge/_workspace.py). */
module Flatten {
  import opened Wrappers
  import opened Names

  type Id = nat

  /** A container's member: another container, by identity, or a value. */
  datatype Ref<V> = Container(id: Id) | Value(value: V)

  type Graph<V> = map<Id, seq<(string, Ref<V>)>>

  predicate InGraph<V>(g: Graph<V>, items: seq<(string, Ref<V>)>) {
    forall i :: 0 <= i < |items| && items[i].1.Container? ==> items[i].1.id in g
  }

  predicate ClosedGraph<V>(g: Graph<V>) {
    forall id :: id in g ==> InGraph(g, g[id])
  }

  /** What an acyclic container unfolds to; shared containers are unfolded at each place. */
  datatype Tree<V> = Leaf(value: V) | Branch(items: seq<Named<V>>)

  datatype Named<V> = Named(key: string, tree: Tree<V>)

  function Members(stack: seq<Id>): set<Id> {
    set id | id in stack
  }

  lemma PushShrinks<V>(g: Graph<V>, id: Id, stack: seq<Id>)
    requires id in g && id !in stack
    ensures g.Keys - Members(stack + [id]) < g.Keys - Members(stack)
  {
    assert id in Members(stack + [id]) && id !in Members(stack);
  }

  /** The unfolding of a container below the containers on the stack; None when one recurs. */
  function Unfold<V>(g: Graph<V>, id: Id, stack: seq<Id>): Option<Tree<V>>
    requires ClosedGraph(g) && id in g
    decreases g.Keys - Members(stack), 0, 0
  {
    if id in stack then None
    else
      PushShrinks(g, id, stack);
      match UnfoldItems(g, g[id], stack + [id])
      case None => None
      case Some(items) => Some(Branch(items))
  }

  function UnfoldItems<V>(g: Graph<V>, items: seq<(string, Ref<V>)>, stack: seq<Id>): Option<seq<Named<V>>>
    requires ClosedGraph(g) && InGraph(g, items)
    decreases g.Keys - Members(stack), |items|, 2
  {
    if items == [] then Some([])
    else
      var first := UnfoldRef(g, items[0].1, stack);
      match UnfoldItems(g, items[1..], stack)
      case None => None
      case Some(rest) => if first.None? then None else Some([Named(items[0].0, first.value)] + rest)
  }

  function UnfoldRef<V>(g: Graph<V>, r: Ref<V>, stack: seq<Id>): Option<Tree<V>>
    requires ClosedGraph(g) && (r.Container? ==> r.id in g)
    decreases g.Keys - Members(stack), 0, 1
  {
    match r
    case Value(v) => Some(Leaf(v))
    case Container(id) => Unfold(g, id, stack)
  }

  // -- names -----------------------------------------------------------------------

  function ChildName(prefix: Option<string>, glue: string, key: string): string {
    match prefix
    case None => key
    case Some(p) => p + glue + key
  }

  /** The named leaves of the items from position i on, in order. */
  function Leaves<V>(items: seq<Named<V>>, i: nat, prefix: Option<string>, glue: string): seq<(string, V)>
    requires i <= |items|
    decreases items, |items| - i
  {
    if i == |items| then []
    else
      var name := ChildName(prefix, glue, items[i].key);
      (match items[i].tree
       case Leaf(v) => [(name, v)]
       case Branch(nested) => Leaves(nested, 0, Some(name), glue))
      + Leaves(items, i + 1, prefix, glue)
  }

  function LeavesOf<V>(t: Tree<V>, prefix: Option<string>, glue: string): seq<(string, V)>
    requires t.Branch?
  {
    Leaves(t.items, 0, prefix, glue)
  }

  /** The recursion's shared state: the names found so far and the containers being visited. */
  class Flattening<V> {
    var flat: seq<(string, V)>
    var stack: seq<Id>

    constructor ()
      ensures flat == [] && stack == []
    {
      flat, stack := [], [];
    }

    /** Append the leaves of one container, or report a cycle; the stack is always restored. */
    method FlattenInto(g: Graph<V>, id: Id, prefix: Option<string>, glue: string) returns (ok: bool)
      requires ClosedGraph(g) && id in g
      modifies this
      ensures stack == old(stack)
      ensures ok <==> Unfold(g, id, old(stack)).Some?
      ensures ok ==> flat == old(flat) + LeavesOf(Unfold(g, id, old(stack)).value, prefix, glue)
      decreases g.Keys - Members(stack)
    {
      hide UnfoldItems;
      hide Leaves;
      UnfoldPushed(g, id, stack);
      if id in stack {
        return false;
      }
      PushShrinks(g, id, stack);
      hide Unfold;
      stack := stack + [id];
      var items := g[id];
      ghost var trees: seq<Named<V>> := [];
      var i := 0;
      UnfoldStart(g, items, stack, prefix, glue);
      while i < |items|
        invariant 0 <= i <= |items|
        invariant stack == old(stack) + [id]
        invariant UnfoldItems(g, items, stack)
               == Prepend(trees, UnfoldItems(g, items[i..], stack))
        invariant flat == old(flat) + Leaves(trees, 0, prefix, glue)
      {
        var (key, value) := items[i];
        var name := match prefix case None => key case Some(p) => p + glue + key;
        UnfoldNext(g, items, i, stack, trees);
        match value {
          case Container(child) =>
            var good := FlattenInto(g, child, Some(name), glue);
            if !good {
              stack := stack[..|stack| - 1];
              return false;
            }
            ghost var tree := Unfold(g, child, stack).value;
            LeavesAppend(trees, Named(key, tree), 0, prefix, glue);
            trees := trees + [Named(key, tree)];
          case Value(v) =>
            flat := flat + [(name, v)];
            LeavesAppend(trees, Named(key, Leaf(v)), 0, prefix, glue);
            trees := trees + [Named(key, Leaf(v))];
        }
        i := i + 1;
      }
      UnfoldDone(g, items[i..], stack, trees);
      stack := stack[..|stack| - 1];
      return true;
    }
  }

  function Prepend<T>(done: seq<T>, rest: Option<seq<T>>): Option<seq<T>> {
    match rest
    case None => None
    case Some(more) => Some(done + more)
  }

  lemma UnfoldPushed<V>(g: Graph<V>, id: Id, stack: seq<Id>)
    requires ClosedGraph(g) && id in g
    ensures Unfold(g, id, stack)
         == if id in stack then None
            else match UnfoldItems(g, g[id], stack + [id])
                 case None => None
                 case Some(items) => Some(Branch(items))
  {
  }

  lemma UnfoldStart<V>(g: Graph<V>, items: seq<(string, Ref<V>)>, stack: seq<Id>, prefix: Option<string>, glue: string)
    requires ClosedGraph(g) && InGraph(g, items)
    ensures InGraph(g, items[0..])
    ensures UnfoldItems(g, items, stack) == Prepend([], UnfoldItems(g, items[0..], stack))
    ensures Leaves<V>([], 0, prefix, glue) == []
  {
    assert items[0..] == items;
    var whole := UnfoldItems(g, items, stack);
    if whole.Some? {
      assert [] + whole.value == whole.value;
    }
  }

  lemma UnfoldDone<V>(g: Graph<V>, rest: seq<(string, Ref<V>)>, stack: seq<Id>, done: seq<Named<V>>)
    requires ClosedGraph(g) && rest == []
    ensures Prepend(done, UnfoldItems(g, rest, stack)) == Some(done)
  {
    assert done + [] == done;
  }

  lemma UnfoldNext<V>(g: Graph<V>, items: seq<(string, Ref<V>)>, i: nat, stack: seq<Id>,
                      done: seq<Named<V>>)
    requires ClosedGraph(g) && InGraph(g, items) && i < |items|
    ensures InGraph(g, items[i..]) && InGraph(g, items[i + 1..])
    ensures var t := UnfoldRef(g, items[i].1, stack);
            Prepend(done, UnfoldItems(g, items[i..], stack))
            == if t.None? then None
               else Prepend(done + [Named(items[i].0, t.value)], UnfoldItems(g, items[i + 1..], stack))
  {
    var t, rest := UnfoldRef(g, items[i].1, stack), UnfoldItems(g, items[i + 1..], stack);
    assert items[i..][1..] == items[i + 1..];
    if t.Some? && rest.Some? {
      var first := [Named(items[i].0, t.value)];
      assert done + (first + rest.value) == done + first + rest.value;
    }
  }

  lemma {:induction false} LeavesAppend<V>(items: seq<Named<V>>, item: Named<V>, i: nat,
                                           prefix: Option<string>, glue: string)
    requires i <= |items|
    ensures Leaves(items + [item], i, prefix, glue)
         == Leaves(items, i, prefix, glue)
            + (match item.tree
               case Leaf(v) => [(ChildName(prefix, glue, item.key), v)]
               case Branch(nested) => Leaves(nested, 0, Some(ChildName(prefix, glue, item.key)), glue))
    decreases |items| - i
  {
    var all := items + [item];
    if i < |items| {
      LeavesAppend(items, item, i + 1, prefix, glue);
      assert all[i] == items[i];
    } else {
      assert all[i] == item;
    }
  }

  // -- cycles -----------------------------------------------------------------------

  ghost predicate Contains<V>(g: Graph<V>, a: Id, b: Id)
    requires a in g
  {
    exists k: nat :: k < |g[a]| && g[a][k].1 == Container(b)
  }

  /** A walk from container to contained container. */
  ghost predicate IsWalk<V>(g: Graph<V>, walk: seq<Id>) {
    walk != [] && walk[0] in g
    && (|walk| > 1 ==> Contains(g, walk[0], walk[1]) && IsWalk(g, walk[1..]))
  }

  ghost predicate Repeats(ids: seq<Id>) {
    exists i: nat, j: nat :: i < j < |ids| && ids[i] == ids[j]
  }

  lemma {:induction false} FirstCycle<V>(g: Graph<V>, id: Id, stack: seq<Id>) returns (walk: seq<Id>)
    requires ClosedGraph(g) && id in g && Unfold(g, id, stack) == None
    ensures IsWalk(g, walk) && walk[0] == id && Repeats(stack + walk)
    decreases g.Keys - Members(stack), 0
  {
    if id in stack {
      walk := [id];
      var i: nat :| i < |stack| && stack[i] == id;
      assert (stack + walk)[i] == (stack + walk)[|stack|];
    } else {
      PushShrinks(g, id, stack);
      var k := FirstBadItem(g, g[id], stack + [id]);
      var tail := FirstCycle(g, g[id][k].1.id, stack + [id]);
      walk := [id] + tail;
      assert walk[1..] == tail;
      assert stack + walk == stack + [id] + tail;
    }
  }

  lemma {:induction false} FirstBadItem<V>(g: Graph<V>, items: seq<(string, Ref<V>)>, stack: seq<Id>) returns (k: nat)
    requires ClosedGraph(g) && InGraph(g, items) && UnfoldItems(g, items, stack) == None
    ensures k < |items| && items[k].1.Container? && Unfold(g, items[k].1.id, stack) == None
    decreases |items|
  {
    if UnfoldRef(g, items[0].1, stack) == None {
      k := 0;
    } else {
      var rest := FirstBadItem(g, items[1..], stack);
      k := rest + 1;
    }
  }

  lemma {:induction false} BadItemFails<V>(g: Graph<V>, items: seq<(string, Ref<V>)>, stack: seq<Id>, k: nat)
    requires ClosedGraph(g) && InGraph(g, items)
    requires k < |items| && UnfoldRef(g, items[k].1, stack) == None
    ensures UnfoldItems(g, items, stack) == None
    decreases k
  {
    if k > 0 {
      BadItemFails(g, items[1..], stack, k - 1);
    }
  }

  lemma PushRepeats(stack: seq<Id>, id: Id)
    ensures Repeats(stack + [id]) ==> Repeats(stack) || id in stack
  {
    if Repeats(stack + [id]) {
      var i: nat, j: nat :| i < j < |stack| + 1 && (stack + [id])[i] == (stack + [id])[j];
      assert if j < |stack| then stack[i] == stack[j] else stack[i] == id;
    }
  }

  lemma {:induction false} RepeatFails<V>(g: Graph<V>, stack: seq<Id>, walk: seq<Id>)
    requires ClosedGraph(g) && IsWalk(g, walk) && !Repeats(stack) && Repeats(stack + walk)
    ensures Unfold(g, walk[0], stack) == None
    decreases |walk|
  {
    var id := walk[0];
    if id !in stack {
      PushRepeats(stack, id);
      assert |walk| == 1 ==> walk == [id];
      if |walk| > 1 {
        assert stack + [id] + walk[1..] == stack + walk;
        RepeatFails(g, stack + [id], walk[1..]);
        var k: nat :| k < |g[id]| && g[id][k].1 == Container(walk[1]);
        BadItemFails(g, g[id], stack + [id], k);
      }
    }
  }

  /** A cycle is reported exactly when some walk from the container meets a container twice. */
  lemma CycleReported<V>(g: Graph<V>, id: Id)
    requires ClosedGraph(g) && id in g
    ensures Unfold(g, id, []) == None <==> exists walk :: IsWalk(g, walk) && walk[0] == id && Repeats(walk)
  {
    if Unfold(g, id, []) == None {
      var walk := FirstCycle(g, id, []);
      assert [] + walk == walk;
    }
    if walk :| IsWalk(g, walk) && walk[0] == id && Repeats(walk) {
      assert [] + walk == walk;
      RepeatFails(g, [], walk);
    }
  }

  // -- every leaf once, in order --------------------------------------------------------

  /** The leaf at a path of positions, with its joined name. */
  function LeafAt<V>(items: seq<Named<V>>, path: seq<nat>, prefix: Option<string>, glue: string): Option<(string, V)> {
    if path == [] || path[0] >= |items| then None
    else
      var name := ChildName(prefix, glue, items[path[0]].key);
      match items[path[0]].tree
      case Leaf(v) => if |path| == 1 then Some((name, v)) else None
      case Branch(nested) => LeafAt(nested, path[1..], Some(name), glue)
  }

  predicate Before(a: seq<nat>, b: seq<nat>) {
    if a == [] || b == [] then a == [] && b != []
    else a[0] < b[0] || (a[0] == b[0] && Before(a[1..], b[1..]))
  }

  function Addresses<V>(items: seq<Named<V>>, i: nat): seq<seq<nat>>
    requires i <= |items|
    decreases items, |items| - i
  {
    if i == |items| then []
    else
      (match items[i].tree
       case Leaf(_) => [[i]]
       case Branch(nested) => Under(i, Addresses(nested, 0)))
      + Addresses(items, i + 1)
  }

  function Under(i: nat, paths: seq<seq<nat>>): (r: seq<seq<nat>>)
    ensures |r| == |paths| && forall k :: 0 <= k < |r| ==> r[k] == [i] + paths[k]
  {
    seq(|paths|, k requires 0 <= k < |paths| => [i] + paths[k])
  }

  /** The addresses lead to the entries one by one, starting between i and the end. */
  predicate Lead<V(==)>(items: seq<Named<V>>, i: nat, paths: seq<seq<nat>>, flat: seq<(string, V)>,
      prefix: Option<string>, glue: string)
  {
    |paths| == |flat|
    && forall k :: 0 <= k < |paths| ==>
         paths[k] != [] && i <= paths[k][0] < |items| && LeafAt(items, paths[k], prefix, glue) == Some(flat[k])
  }

  lemma {:induction false} BranchLeads<V>(items: seq<Named<V>>, i: nat, nested: seq<Named<V>>, inner: seq<seq<nat>>,
      flat: seq<(string, V)>, prefix: Option<string>, glue: string)
    requires i < |items| && items[i].tree == Branch(nested)
    requires Lead(nested, 0, inner, flat, Some(ChildName(prefix, glue, items[i].key)), glue)
    ensures Lead(items, i, Under(i, inner), flat, prefix, glue)
  {
    forall k | 0 <= k < |inner| ensures LeafAt(items, [i] + inner[k], prefix, glue) == Some(flat[k]) {
      assert ([i] + inner[k])[1..] == inner[k];
    }
  }

  lemma {:induction false} BothLead<V>(items: seq<Named<V>>, i: nat, a: seq<seq<nat>>, b: seq<seq<nat>>,
      first: seq<(string, V)>, rest: seq<(string, V)>, prefix: Option<string>, glue: string)
    requires Lead(items, i, a, first, prefix, glue) && Lead(items, i + 1, b, rest, prefix, glue)
    ensures Lead(items, i, a + b, first + rest, prefix, glue)
  {
    hide LeafAt;
  }

  /** One address per flattened entry, and it leads to that entry. */
  lemma {:induction false} AddressesLead<V>(items: seq<Named<V>>, i: nat, prefix: Option<string>, glue: string)
    requires i <= |items|
    ensures Lead(items, i, Addresses(items, i), Leaves(items, i, prefix, glue), prefix, glue)
    decreases items, |items| - i
  {
    if i < |items| {
      AddressesLead(items, i + 1, prefix, glue);
      var name := ChildName(prefix, glue, items[i].key);
      var later, rest := Addresses(items, i + 1), Leaves(items, i + 1, prefix, glue);
      match items[i].tree
      case Leaf(v) => BothLead(items, i, [[i]], later, [(name, v)], rest, prefix, glue);
      case Branch(nested) =>
        AddressesLead(nested, 0, Some(name), glue);
        var inner, flat := Addresses(nested, 0), Leaves(nested, 0, Some(name), glue);
        BranchLeads(items, i, nested, inner, flat, prefix, glue);
        hide Lead;
        BothLead(items, i, Under(i, inner), later, flat, rest, prefix, glue);
    }
  }

  predicate Increasing(paths: seq<seq<nat>>) {
    forall j, k :: 0 <= j < k < |paths| ==> Before(paths[j], paths[k])
  }

  predicate StartBetween(paths: seq<seq<nat>>, lo: nat, hi: nat) {
    forall k :: 0 <= k < |paths| ==> paths[k] != [] && lo <= paths[k][0] < hi
  }

  lemma UnderIncreases(i: nat, paths: seq<seq<nat>>)
    requires Increasing(paths)
    ensures Increasing(Under(i, paths)) && StartBetween(Under(i, paths), i, i + 1)
  {
    var under := Under(i, paths);
    forall j, k | 0 <= j < k < |under| ensures Before(under[j], under[k]) {
      assert under[j][1..] == paths[j] && under[k][1..] == paths[k];
    }
  }

  lemma AppendIncreases(a: seq<seq<nat>>, b: seq<seq<nat>>, i: nat, hi: nat)
    requires Increasing(a) && StartBetween(a, i, i + 1) && i < hi
    requires Increasing(b) && StartBetween(b, i + 1, hi)
    ensures Increasing(a + b) && StartBetween(a + b, i, hi)
  {
    var c := a + b;
    forall j, k | 0 <= j < k < |c| ensures Before(c[j], c[k]) {
      if j < |a| && k >= |a| {
        assert c[j] == a[j] && c[k] == b[k - |a|];
      }
    }
  }

  lemma {:induction false} AddressesIncrease<V>(items: seq<Named<V>>, i: nat)
    requires i <= |items|
    ensures Increasing(Addresses(items, i)) && StartBetween(Addresses(items, i), i, |items|)
    decreases items, |items| - i
  {
    if i < |items| {
      AddressesIncrease(items, i + 1);
      var here := match items[i].tree
                  case Leaf(_) => [[i]]
                  case Branch(nested) => Under(i, Addresses(nested, 0));
      if items[i].tree.Branch? {
        AddressesIncrease(items[i].tree.items, 0);
        UnderIncreases(i, Addresses(items[i].tree.items, 0));
      }
      AppendIncreases(here, Addresses(items, i + 1), i, |items|);
    }
  }

  lemma {:induction false} AddressListed<V>(items: seq<Named<V>>, i: nat, path: seq<nat>,
                                            prefix: Option<string>, glue: string)
    requires i <= |items| && LeafAt(items, path, prefix, glue).Some? && i <= path[0]
    ensures path in Addresses(items, i)
    decreases items, |items| - i
  {
    if path[0] > i {
      AddressListed(items, i + 1, path, prefix, glue);
    } else {
      match items[i].tree
      case Leaf(_) => assert path == [i];
      case Branch(nested) =>
        AddressListed(nested, 0, path[1..], Some(ChildName(prefix, glue, items[i].key)), glue);
        hide LeafAt;
        UnderHas(i, Addresses(nested, 0), path);
    }
  }

  lemma UnderHas(i: nat, paths: seq<seq<nat>>, path: seq<nat>)
    requires path != [] && path[0] == i && path[1..] in paths
    ensures path in Under(i, paths)
  {
    var k :| 0 <= k < |paths| && paths[k] == path[1..];
    assert path == [i] + path[1..];
    assert Under(i, paths)[k] == path;
  }

  /** Every root-to-leaf path is listed exactly once, in the order of the containers. */
  lemma EveryLeafOnceInOrder<V>(t: Tree<V>, prefix: Option<string>, glue: string)
    requires t.Branch?
    ensures var paths, flat := Addresses(t.items, 0), LeavesOf(t, prefix, glue);
            |paths| == |flat|
            && (forall k :: 0 <= k < |flat| ==> LeafAt(t.items, paths[k], prefix, glue) == Some(flat[k]))
            && Increasing(paths)
            && (forall path :: LeafAt(t.items, path, prefix, glue).Some? ==> path in paths)
  {
    AddressesLead(t.items, 0, prefix, glue);
    AddressesIncrease(t.items, 0);
    forall path | LeafAt(t.items, path, prefix, glue).Some? ensures path in Addresses(t.items, 0) {
      AddressListed(t.items, 0, path, prefix, glue);
    }
  }

  // -- the leaves of the containers themselves ------------------------------------------------

  /** The value reached from a container by a path of positions, under the keys joined on the way. */
  function ValueAt<V>(g: Graph<V>, id: Id, path: seq<nat>, prefix: Option<string>, glue: string): Option<(string, V)>
    requires ClosedGraph(g) && id in g
    decreases |path|
  {
    if path == [] || path[0] >= |g[id]| then None
    else
      var (key, item) := g[id][path[0]];
      var name := if prefix.None? then key else prefix.value + glue + key;
      match item
      case Value(v) => if |path| == 1 then Some((name, v)) else None
      case Container(child) => ValueAt(g, child, path[1..], Some(name), glue)
  }

  lemma {:induction false} ItemsFollow<V>(g: Graph<V>, items: seq<(string, Ref<V>)>, stack: seq<Id>)
    requires ClosedGraph(g) && InGraph(g, items) && UnfoldItems(g, items, stack).Some?
    ensures var trees := UnfoldItems(g, items, stack).value;
            |trees| == |items|
            && forall i :: 0 <= i < |items| ==>
                 trees[i].key == items[i].0 && UnfoldRef(g, items[i].1, stack) == Some(trees[i].tree)
    decreases |items|
  {
    hide UnfoldRef;
    if items != [] {
      ItemsFollow(g, items[1..], stack);
    }
  }

  /** The unfolding holds at every path what the containers hold there. */
  lemma {:induction false} UnfoldFollows<V>(g: Graph<V>, id: Id, stack: seq<Id>, path: seq<nat>,
      prefix: Option<string>, glue: string)
    requires ClosedGraph(g) && id in g && Unfold(g, id, stack).Some?
    ensures LeafAt(Unfold(g, id, stack).value.items, path, prefix, glue) == ValueAt(g, id, path, prefix, glue)
    decreases |path|
  {
    ItemsFollow(g, g[id], stack + [id]);
    hide UnfoldItems;
    if path != [] && path[0] < |g[id]| {
      var (key, item) := g[id][path[0]];
      if item.Container? {
        var name := if prefix.None? then key else prefix.value + glue + key;
        UnfoldFollows(g, item.id, stack + [id], path[1..], Some(name), glue);
      }
    }
  }

  /** Flattening a container lists exactly the values its containers hold, each once, in their order, under
      the joined keys. */
  lemma ValuesOnceInOrder<V>(g: Graph<V>, id: Id, prefix: Option<string>, glue: string) returns (paths: seq<seq<nat>>)
    requires ClosedGraph(g) && id in g && Unfold(g, id, []).Some?
    ensures var flat := LeavesOf(Unfold(g, id, []).value, prefix, glue);
            |paths| == |flat|
            && (forall k :: 0 <= k < |flat| ==> ValueAt(g, id, paths[k], prefix, glue) == Some(flat[k]))
            && Increasing(paths)
            && forall path :: ValueAt(g, id, path, prefix, glue).Some? ==> path in paths
  {
    var t := Unfold(g, id, []).value;
    hide Unfold, LeafAt, ValueAt, Addresses;
    EveryLeafOnceInOrder(t, prefix, glue);
    paths := Addresses(t.items, 0);
    forall path ensures LeafAt(t.items, path, prefix, glue) == ValueAt(g, id, path, prefix, glue) {
      UnfoldFollows(g, id, [], path, prefix, glue);
    }
    hide Increasing;
  }
}
