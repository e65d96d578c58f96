/** Flattening a workspace and rebuilding it from the upper-cased names (bridge/_workspace.py). */
module RoundTrip {
  import opened Wrappers
  import opened Names
  import F = Flatten
  import opened Resolve
  import P = Placing
  import opened PlaceOrder

  // -- workspaces ---------------------------------------------------------------------------

  /** A key as the library's names give it back: lower case, not empty, not a wildcard. */
  predicate PlainKey(key: string) {
    key != "" && IsLower(key) && !IsWildcard(key)
  }

  /** Plain distinct keys at every level, and no empty workspace below the top. */
  predicate PlainItems<V>(items: seq<F.Named<V>>, i: nat)
    requires i <= |items|
    decreases items, |items| - i
  {
    i == |items| ||
    (PlainKey(items[i].key)
     && (forall j :: i < j < |items| ==> items[j].key != items[i].key)
     && (items[i].tree.Branch? ==> items[i].tree.items != [] && PlainItems(items[i].tree.items, 0))
     && PlainItems(items, i + 1))
  }

  lemma {:induction false} PlainAt<V>(items: seq<F.Named<V>>, i: nat, k: nat)
    requires i <= k < |items| && PlainItems(items, i)
    ensures PlainItems(items, k)
    ensures forall j :: i <= j < k ==> items[j].key != items[k].key
    decreases k - i
  {
    if i < k {
      PlainAt(items, i + 1, k);
    }
  }

  /** The leaves with their key paths, in order. */
  function KeyLeaves<V>(items: seq<F.Named<V>>, i: nat): seq<(Path, V)>
    requires i <= |items|
    decreases items, |items| - i
  {
    if i == |items| then []
    else ItemLeaves(items, i) + KeyLeaves(items, i + 1)
  }

  function ItemLeaves<V>(items: seq<F.Named<V>>, i: nat): seq<(Path, V)>
    requires i < |items|
    decreases items, |items| - i, 0
  {
    match items[i].tree
    case Leaf(v) => [([items[i].key], v)]
    case Branch(nested) => UnderKey(items[i].key, KeyLeaves(nested, 0))
  }

  function UnderKey<V>(key: string, leaves: seq<(Path, V)>): (r: seq<(Path, V)>)
    ensures |r| == |leaves| && forall j :: 0 <= j < |r| ==> r[j] == ([key] + leaves[j].0, leaves[j].1)
  {
    seq(|leaves|, j requires 0 <= j < |leaves| => ([key] + leaves[j].0, leaves[j].1))
  }

  function Prefixed(prefix: Option<string>, glue: string, name: string): string {
    match prefix
    case None => name
    case Some(p) => p + glue + name
  }

  lemma LoneName(prefix: Option<string>, glue: string, key: string)
    ensures Prefixed(prefix, glue, JoinKeys([key], glue)) == F.ChildName(prefix, glue, key)
  {
  }

  lemma NestedName(prefix: Option<string>, glue: string, key: string, path: Path)
    requires path != []
    ensures Prefixed(Some(F.ChildName(prefix, glue, key)), glue, JoinKeys(path, glue))
         == Prefixed(prefix, glue, JoinKeys([key] + path, glue))
  {
    assert ([key] + path)[1..] == path;
    var rest := JoinKeys(path, glue);
    if prefix.Some? {
      assert (prefix.value + glue + key) + glue + rest == prefix.value + glue + (key + glue + rest);
    }
  }

  /** A flattened name is the joined key path of its leaf. */
  lemma {:induction false} NamesAreJoinedKeys<V>(items: seq<F.Named<V>>, i: nat, prefix: Option<string>, glue: string)
    requires i <= |items|
    ensures var leaves, flat := KeyLeaves(items, i), F.Leaves(items, i, prefix, glue);
            |leaves| == |flat|
            && forall j :: 0 <= j < |flat| ==>
                 leaves[j].0 != [] && flat[j] == (Prefixed(prefix, glue, JoinKeys(leaves[j].0, glue)), leaves[j].1)
    decreases items, |items| - i
  {
    hide JoinKeys, Prefixed, F.ChildName;
    if i < |items| {
      var key := items[i].key;
      NamesAreJoinedKeys(items, i + 1, prefix, glue);
      match items[i].tree
      case Leaf(_) => LoneName(prefix, glue, key);
      case Branch(nested) =>
        NamesAreJoinedKeys(nested, 0, Some(F.ChildName(prefix, glue, key)), glue);
        var inner := KeyLeaves(nested, 0);
        forall j | 0 <= j < |inner|
          ensures Prefixed(Some(F.ChildName(prefix, glue, key)), glue, JoinKeys(inner[j].0, glue))
               == Prefixed(prefix, glue, JoinKeys([key] + inner[j].0, glue))
        {
          NestedName(prefix, glue, key, inner[j].0);
        }
    }
  }

  // -- the collect specification of the branch names ------------------------------------------

  function CollectOf<V>(items: seq<F.Named<V>>, i: nat): seq<Entry>
    requires i <= |items|
    decreases items, |items| - i
  {
    if i == |items| then []
    else match items[i].tree
      case Leaf(_) => CollectOf(items, i + 1)
      case Branch(nested) => [Entry(items[i].key, CollectOf(nested, 0))] + CollectOf(items, i + 1)
  }

  function LowerCase(): string -> Option<string> {
    (s: string) => if s == "" then None else Some(Lower(s))
  }

  function RulesOf<V>(items: seq<F.Named<V>>, glue: string, prefix: Option<string>): Rules {
    Rules(glue, LowerCase(), prefix, CollectOf(items, 0))
  }

  // -- what a name is read as -----------------------------------------------------------------

  /** The upper-cased name begins with the branch and the glue, and something follows. */
  predicate RunsPast(name: string, branch: string, glue: string) {
    Upper(branch + glue) <= Upper(name) && |name| > |branch + glue|
  }

  predicate PastItem<V>(items: seq<F.Named<V>>, j: nat, name: string, glue: string)
    requires j < |items|
  {
    items[j].tree.Branch? && RunsPast(name, items[j].key, glue)
  }

  /** No name is taken for another one: a leaf's name runs past no branch beside it, and the names
      below a branch run past none that is listed before it. An empty glue reads no branch at all. */
  ghost predicate Legible<V>(items: seq<F.Named<V>>, glue: string)
    decreases items, 1
  {
    forall k :: 0 <= k < |items| ==> ItemLegible(items, k, glue)
  }

  ghost predicate ItemLegible<V>(items: seq<F.Named<V>>, k: nat, glue: string)
    requires k < |items|
    decreases items, 0
  {
    (items[k].tree.Branch? ==> glue != "" && Legible(items[k].tree.items, glue))
    && forall leaf, j :: leaf in ItemLeaves(items, k) && 0 <= j < |items| ==>
         PastItem(items, j, JoinKeys(leaf.0, glue), glue) ==> items[k].tree.Branch? && k <= j
  }

  /** The first branch from position i on that a name runs past. */
  function FirstPast<V>(items: seq<F.Named<V>>, i: nat, name: string, glue: string): (j: nat)
    requires i <= |items|
    ensures i <= j <= |items| && (j < |items| ==> PastItem(items, j, name, glue))
    ensures forall k :: i <= k < j ==> !PastItem(items, k, name, glue)
    decreases |items| - i
  {
    if i == |items| || PastItem(items, i, name, glue) then i else FirstPast(items, i + 1, name, glue)
  }

  /** The entry a name matches is the first branch that it runs past. */
  lemma {:induction false} FirstMatchIs<V>(items: seq<F.Named<V>>, i: nat, name: string, glue: string)
    requires i <= |items| && PlainItems(items, i) && glue != ""
    ensures var j := FirstPast(items, i, name, glue);
            FirstMatch(Upper(name), glue, LowerCase(), CollectOf(items, i))
            == Ok(if j == |items| then None
                  else Some(Match(items[j].key, Upper(name)[|items[j].key + glue|..],
                                  CollectOf(items[j].tree.items, 0))))
    decreases |items| - i
  {
    if i < |items| {
      FirstMatchIs(items, i + 1, name, glue);
      if items[i].tree.Branch? {
        var all := CollectOf(items, i);
        assert all[1..] == CollectOf(items, i + 1);
      }
    }
  }

  /** A name is read as the first branch it runs past and the reading of the rest, or as a key. */
  lemma {:induction false} DestinationIs<V>(items: seq<F.Named<V>>, name: string, glue: string)
    requires PlainItems(items, 0) && glue != ""
    ensures var j := FirstPast(items, 0, name, glue);
            Destination(Upper(name), RulesOf(items, glue, None))
            == if j == |items| then (if name == "" then Err(BadCase) else Ok([Lower(Upper(name))]))
               else match Destination(Upper(name)[|items[j].key + glue|..], RulesOf(items[j].tree.items, glue, None))
                 case Err(e) => Err(e)
                 case Ok(below) => Ok([items[j].key] + below)
  {
    hide PastItem, Upper, Lower, PlainItems, CollectOf;
    FirstMatchIs(items, 0, name, glue);
  }

  /** Every leaf below items[i..] hangs under one of their keys. */
  lemma {:induction false} LeafItem<V>(items: seq<F.Named<V>>, i: nat, leaf: (Path, V)) returns (k: nat)
    requires i <= |items| && leaf in KeyLeaves(items, i)
    ensures i <= k < |items| && leaf in ItemLeaves(items, k)
    decreases |items| - i
  {
    if leaf in ItemLeaves(items, i) {
      k := i;
    } else {
      k := LeafItem(items, i + 1, leaf);
    }
  }

  lemma {:induction false} ItemLeafListed<V>(items: seq<F.Named<V>>, i: nat, k: nat, leaf: (Path, V))
    requires i <= k < |items| && leaf in ItemLeaves(items, k)
    ensures leaf in KeyLeaves(items, i)
    decreases k - i
  {
    if i < k {
      ItemLeafListed(items, i + 1, k, leaf);
    }
  }

  lemma {:induction false} LeafKeysPlain<V>(items: seq<F.Named<V>>, leaf: (Path, V))
    requires PlainItems(items, 0) && leaf in KeyLeaves(items, 0)
    ensures leaf.0 != [] && PlainKey(leaf.0[0])
  {
    var k := LeafItem(items, 0, leaf);
    PlainAt(items, 0, k);
  }

  /** The upper-cased name of the leaf leads back to the leaf's key path. */
  ghost predicate LeadsBack<V>(items: seq<F.Named<V>>, leaf: (Path, V), glue: string) {
    Destination(Upper(JoinKeys(leaf.0, glue)), RulesOf(items, glue, None)) == Ok(leaf.0)
  }

  lemma {:induction false} LeafLeadsBackIff<V>(items: seq<F.Named<V>>, k: nat, leaf: (Path, V), glue: string)
    requires PlainItems(items, 0) && glue != ""
    requires k < |items| && items[k].tree.Leaf? && leaf in ItemLeaves(items, k)
    ensures LeadsBack(items, leaf, glue) <==> FirstPast(items, 0, JoinKeys(leaf.0, glue), glue) == |items|
  {
    hide Destination, PastItem, Upper, Lower;
    var key := items[k].key;
    assert leaf.0 == [key] && JoinKeys(leaf.0, glue) == key;
    PlainAt(items, 0, k);
    LowerUpper(key);
    DestinationIs(items, key, glue);
  }

  lemma {:induction false} BranchLeadsBackIff<V>(items: seq<F.Named<V>>, k: nat, inner: (Path, V), glue: string)
    requires PlainItems(items, 0) && glue != ""
    requires k < |items| && items[k].tree.Branch? && inner in KeyLeaves(items[k].tree.items, 0)
    ensures var leaf := ([items[k].key] + inner.0, inner.1);
            PastItem(items, k, JoinKeys(leaf.0, glue), glue)
            && (LeadsBack(items, leaf, glue) <==>
                  FirstPast(items, 0, JoinKeys(leaf.0, glue), glue) == k
                  && LeadsBack(items[k].tree.items, inner, glue))
  {
    hide Destination, PlainKey, RunsPast, JoinKeys, KeyLeaves;
    var key, nested := items[k].key, items[k].tree.items;
    PlainAt(items, 0, k);
    LeafKeysPlain(nested, inner);
    var leaf := ([key] + inner.0, inner.1);
    var name := JoinKeys(leaf.0, glue);
    assert leaf.0[1..] == inner.0;
    JoinedUnderKey(key, inner.0, glue);
    assert PastItem(items, k, name, glue);
    DestinationIs(items, name, glue);
    var j := FirstPast(items, 0, name, glue);
    assert j <= k;
    assert j < k ==> items[j].key != key;
  }

  /** The name below a key runs past the key, and what is left is the name below it. */
  lemma {:induction false} JoinedUnderKey(key: string, path: Path, glue: string)
    requires path != [] && PlainKey(path[0])
    ensures var name := JoinKeys([key] + path, glue);
            RunsPast(name, key, glue) && Upper(name)[|key + glue|..] == Upper(JoinKeys(path, glue))
  {
    assert ([key] + path)[1..] == path;
    var rest := JoinKeys(path, glue);
    assert rest != "";
    assert JoinKeys([key] + path, glue) == key + glue + rest;
    UpperConcat(key + glue, rest);
  }

  ghost predicate AllLeadBack<V>(items: seq<F.Named<V>>, glue: string) {
    forall leaf :: leaf in KeyLeaves(items, 0) ==> LeadsBack(items, leaf, glue)
  }

  ghost predicate ItemLeadsBack<V>(items: seq<F.Named<V>>, k: nat, glue: string)
    requires k < |items|
  {
    forall leaf :: leaf in ItemLeaves(items, k) ==> LeadsBack(items, leaf, glue)
  }

  lemma {:induction false} AllLeadBackByItem<V>(items: seq<F.Named<V>>, glue: string)
    ensures AllLeadBack(items, glue) <==> forall k :: 0 <= k < |items| ==> ItemLeadsBack(items, k, glue)
  {
    hide LeadsBack;
    forall k, leaf | 0 <= k < |items| && leaf in ItemLeaves(items, k) ensures leaf in KeyLeaves(items, 0) {
      ItemLeafListed(items, 0, k, leaf);
    }
    if forall k :: 0 <= k < |items| ==> ItemLeadsBack(items, k, glue) {
      forall leaf | leaf in KeyLeaves(items, 0) ensures LeadsBack(items, leaf, glue) {
        var k := LeafItem(items, 0, leaf);
        assert ItemLeadsBack(items, k, glue);
      }
    }
  }

  lemma {:induction false} ItemLeadsBackIff<V>(items: seq<F.Named<V>>, k: nat, glue: string)
    requires PlainItems(items, 0) && glue != "" && k < |items|
    ensures ItemLeadsBack(items, k, glue) <==> ItemLegible(items, k, glue)
    decreases items, 0
  {
    hide LeadsBack, PastItem, FirstPast, PlainItems, JoinKeys;
    if items[k].tree.Leaf? {
      LeafLeadsBackIff(items, k, ItemLeaves(items, k)[0], glue);
    } else {
      PlainBranch(items, k);
      var nested := items[k].tree.items;
      var inner, here := KeyLeaves(nested, 0), ItemLeaves(items, k);
      NamesLeadBackIff(nested, glue);
      forall x | 0 <= x < |inner|
        ensures LeadsBack(items, here[x], glue) <==>
                  LeadsBack(nested, inner[x], glue)
                  && forall j :: 0 <= j < k ==> !PastItem(items, j, JoinKeys(here[x].0, glue), glue)
      {
        BranchLeadsBackIff(items, k, inner[x], glue);
      }
      assert AllLeadBack(nested, glue) <==> forall x :: 0 <= x < |inner| ==> LeadsBack(nested, inner[x], glue);
      assert |here| == |inner|;
    }
  }

  lemma {:induction false} PlainBranch<V>(items: seq<F.Named<V>>, k: nat)
    requires PlainItems(items, 0) && k < |items| && items[k].tree.Branch?
    ensures items[k].tree.items != [] && PlainItems(items[k].tree.items, 0)
  {
    PlainAt(items, 0, k);
  }

  /** Every upper-cased name leads back to its own key path exactly when the workspace is legible. */
  lemma {:induction false} NamesLeadBackIff<V>(items: seq<F.Named<V>>, glue: string)
    requires PlainItems(items, 0)
    ensures AllLeadBack(items, glue) <==> Legible(items, glue)
    decreases items, 1
  {
    if glue == "" {
      NoGlueLeadsBackIff(items);
    } else {
      hide PlainItems, AllLeadBack, ItemLeadsBack, ItemLegible;
      forall k | 0 <= k < |items| ensures ItemLeadsBack(items, k, glue) <==> ItemLegible(items, k, glue) {
        ItemLeadsBackIff(items, k, glue);
      }
      AllLeadBackByItem(items, glue);
    }
  }

  /** Without glue nothing can be collected: a workspace with branches is refused, a flat one read. */
  lemma {:induction false} NoGlueLeadsBackIff<V>(items: seq<F.Named<V>>)
    requires PlainItems(items, 0)
    ensures AllLeadBack(items, "") <==> Legible(items, "")
  {
    if k :| 0 <= k < |items| && items[k].tree.Branch? {
      PlainBranch(items, k);
      Collected(items, 0, k);
      var leaf := SomeKeyLeaf(items[k].tree.items);
      var mine := ([items[k].key] + leaf.0, leaf.1);
      UnderKeyHas(items[k].key, KeyLeaves(items[k].tree.items, 0), leaf);
      ItemLeafListed(items, 0, k, mine);
      assert !LeadsBack(items, mine, "");
      assert !ItemLegible(items, k, "");
    } else {
      NothingCollected(items, 0);
      forall leaf | leaf in KeyLeaves(items, 0) ensures LeadsBack(items, leaf, "") {
        var k := LeafItem(items, 0, leaf);
        PlainAt(items, 0, k);
        LowerUpper(items[k].key);
      }
    }
  }

  lemma {:induction false} Collected<V>(items: seq<F.Named<V>>, i: nat, k: nat)
    requires i <= k < |items| && items[k].tree.Branch?
    ensures CollectOf(items, i) != []
    decreases k - i
  {
    if i < k {
      Collected(items, i + 1, k);
    }
  }

  lemma {:induction false} NothingCollected<V>(items: seq<F.Named<V>>, i: nat)
    requires i <= |items| && forall k :: 0 <= k < |items| ==> items[k].tree.Leaf?
    ensures CollectOf(items, i) == []
    decreases |items| - i
  {
    if i < |items| {
      NothingCollected(items, i + 1);
    }
  }

  lemma {:induction false} SomeKeyLeaf<V>(items: seq<F.Named<V>>) returns (leaf: (Path, V))
    requires items != [] && PlainItems(items, 0)
    ensures leaf in KeyLeaves(items, 0)
    decreases items
  {
    match items[0].tree
    case Leaf(v) => leaf := ([items[0].key], v);
    case Branch(nested) =>
      var inner := SomeKeyLeaf(nested);
      leaf := ([items[0].key] + inner.0, inner.1);
      UnderKeyHas(items[0].key, KeyLeaves(nested, 0), inner);
  }

  lemma {:induction false} UnderKeyHas<V>(key: string, leaves: seq<(Path, V)>, leaf: (Path, V))
    requires leaf in leaves
    ensures ([key] + leaf.0, leaf.1) in UnderKey(key, leaves)
  {
    var j :| 0 <= j < |leaves| && leaves[j] == leaf;
    assert UnderKey(key, leaves)[j] == ([key] + leaf.0, leaf.1);
  }

  /** Whatever key path a name is read as, joining its keys gives the name back. */
  lemma {:induction false} ReadingJoins<V>(items: seq<F.Named<V>>, name: string, glue: string)
    requires PlainItems(items, 0) && Upper(name) == name
    ensures var d := Destination(name, RulesOf(items, glue, None));
            d.Ok? ==> Upper(JoinKeys(d.value, glue)) == name
    decreases items
  {
    UpperLower(name);
    if glue != "" {
      var j := FirstPast(items, 0, name, glue);
      DestinationIs(items, name, glue);
      if j < |items| {
        PlainBranch(items, j);
        var (key, nested) := (items[j].key, items[j].tree.items);
        var rest := name[|key + glue|..];
        assert Upper(rest) == rest;
        ReadingJoins(nested, rest, glue);
        var below := Destination(rest, RulesOf(nested, glue, None));
        if below.Ok? {
          assert ([key] + below.value)[1..] == below.value;
          UpperConcat(key + glue, JoinKeys(below.value, glue));
          assert name == name[..|key + glue|] + rest;
        }
      }
    }
  }

  // -- the paths of a tree keep apart -----------------------------------------------------------

  lemma {:induction false} LeavesApart<V>(items: seq<F.Named<Option<V>>>, i: nat)
    requires i <= |items| && PlainItems(items, i)
    ensures Apart(KeyLeaves(items, i))
    ensures forall x :: x in KeyLeaves(items, i) ==> x.0 != [] && exists k :: i <= k < |items| && items[k].key == x.0[0]
    decreases items, |items| - i
  {
    if i < |items| {
      var here, later := ItemLeaves(items, i), KeyLeaves(items, i + 1);
      LeavesApart(items, i + 1);
      if items[i].tree.Branch? {
        LeavesApart(items[i].tree.items, 0);
        UnderKeyApart(items[i].key, KeyLeaves(items[i].tree.items, 0));
      }
      forall x: Item<V> | x in here + later
        ensures x.0 != [] && exists k :: i <= k < |items| && items[k].key == x.0[0]
      {
        if x in here {
          assert x.0[0] == items[i].key;
        }
      }
      forall x: Item<V> | x in later ensures x.0[0] != items[i].key {
        var k :| i + 1 <= k < |items| && items[k].key == x.0[0];
      }
      DifferentHeadsApart(here, later, items[i].key);
    }
  }

  lemma {:induction false} UnderKeyApart<V>(key: string, leaves: seq<Item<V>>)
    requires Apart(leaves)
    ensures Apart(UnderKey(key, leaves)) && forall x :: x in UnderKey(key, leaves) ==> x.0 != [] && x.0[0] == key
  {
    var under := UnderKey(key, leaves);
    forall i, j | 0 <= i < |under| && 0 <= j < |under| && i != j ensures !(under[i].0 <= under[j].0) {
      assert under[i].0[1..] == leaves[i].0 && under[j].0[1..] == leaves[j].0;
    }
  }

  lemma {:induction false} DifferentHeadsApart<V>(a: seq<Item<V>>, b: seq<Item<V>>, key: string)
    requires Apart(a) && Apart(b)
    requires forall x :: x in a ==> x.0 != [] && x.0[0] == key
    requires forall x :: x in b ==> x.0 != [] && x.0[0] != key
    ensures Apart(a + b)
  {
    var c := a + b;
    assert forall i :: 0 <= i < |a| ==> c[i] == a[i] && a[i] in a;
    assert forall i :: |a| <= i < |c| ==> c[i] == b[i - |a|] && b[i - |a|] in b;
  }

  // -- the workspace a tree stands for ---------------------------------------------------------

  function AsSpace<V>(t: F.Tree<Option<V>>): P.Space<V>
    decreases t
  {
    match t
    case Leaf(v) => P.Value(v)
    case Branch(items) => P.Space(AsMembers(items, 0))
  }

  function AsMembers<V>(items: seq<F.Named<Option<V>>>, i: nat): map<string, P.Space<V>>
    requires i <= |items|
    decreases items, |items| - i
  {
    if i == |items| then map[] else AsMembers(items, i + 1)[items[i].key := AsSpace(items[i].tree)]
  }

  lemma {:induction false} AsMembersKeys<V>(items: seq<F.Named<Option<V>>>, i: nat)
    requires i <= |items| && PlainItems(items, i)
    ensures forall k :: k in AsMembers(items, i) ==> exists j :: i <= j < |items| && items[j].key == k
    ensures i < |items| ==> AsMembers(items, i) != map[]
    decreases |items| - i
  {
    if i < |items| {
      AsMembersKeys(items, i + 1);
      assert items[i].key in AsMembers(items, i);
    }
  }

  lemma {:induction false} AsMembersHold<V(!new)>(items: seq<F.Named<Option<V>>>, i: nat)
    requires i <= |items| && PlainItems(items, i)
    ensures Holds(P.Space(AsMembers(items, i)), KeyLeaves(items, i))
    decreases items, |items| - i
  {
    var s := P.Space(AsMembers(items, i));
    if i < |items| {
      var key, t, later := items[i].key, items[i].tree, P.Space(AsMembers(items, i + 1));
      AsMembersHold(items, i + 1);
      AsMembersKeys(items, i + 1);
      assert key !in later.members;
      if t.Branch? {
        AsMembersHold(t.items, 0);
        AsMembersKeys(t.items, 0);
      }
      forall q: Path, v: Option<V> ensures P.Lookup(s, q) == Some(v) <==> (q, v) in KeyLeaves(items, i) {
        LeafOrLater(items, i, q, v);
      }
    }
  }

  lemma {:induction false} LeafOrLater<V(!new)>(items: seq<F.Named<Option<V>>>, i: nat, q: Path, v: Option<V>)
    requires i < |items| && PlainItems(items, i)
    requires items[i].key !in AsMembers(items, i + 1)
    requires Holds(P.Space(AsMembers(items, i + 1)), KeyLeaves(items, i + 1))
    requires items[i].tree.Branch? ==> Holds(AsSpace(items[i].tree), KeyLeaves(items[i].tree.items, 0))
    ensures P.Lookup(P.Space(AsMembers(items, i)), q) == Some(v) <==> (q, v) in KeyLeaves(items, i)
  {
    var s, later := P.Space(AsMembers(items, i)), P.Space(AsMembers(items, i + 1));
    var key, t := items[i].key, items[i].tree;
    assert KeyLeaves(items, i) == ItemLeaves(items, i) + KeyLeaves(items, i + 1);
    LeavesApart(items, i);
    if q != [] {
      assert q == [q[0]] + q[1..];
      LookupStep(s, q[0], q[1..]);
      LookupStep(later, q[0], q[1..]);
      if q[0] == key {
        assert (q, v) !in KeyLeaves(items, i + 1) by { assert P.Lookup(later, q) == None; }
        if t.Branch? {
          var inner := KeyLeaves(t.items, 0);
          if (q[1..], v) in inner {
            var j :| 0 <= j < |inner| && inner[j] == (q[1..], v);
            assert UnderKey(key, inner)[j] == (q, v);
          }
          if (q, v) in ItemLeaves(items, i) {
            var j :| 0 <= j < |inner| && UnderKey(key, inner)[j] == (q, v);
            assert q[1..] == inner[j].0;
          }
        } else {
          assert q[1..] == [] <==> q == [key];
        }
      } else {
        forall x: Item<V> | x in ItemLeaves(items, i) ensures x.0 != [] && x.0[0] == key {
        }
      }
    }
  }

  // -- rebuilding the workspace ------------------------------------------------------------------

  function UpperNames<V>(flat: seq<(string, V)>): (r: seq<string>)
    ensures |r| == |flat| && forall i :: 0 <= i < |r| ==> r[i] == Upper(flat[i].0)
  {
    seq(|flat|, i requires 0 <= i < |flat| => Upper(flat[i].0))
  }

  /** The flattened values with the key paths their upper-cased names resolve to. */
  ghost function Resolved<V>(flat: seq<(string, Option<V>)>, rules: Rules): (r: seq<Item<V>>)
    requires AllResolve(UpperNames(flat), rules)
    ensures |r| == |flat|
    ensures forall i :: 0 <= i < |r| ==> r[i] == (Paths(UpperNames(flat), rules)[i], flat[i].1)
  {
    seq(|flat|, i requires 0 <= i < |flat| => (Paths(UpperNames(flat), rules)[i], flat[i].1))
  }

  /** Flatten and upper-case: the names resolve with the branch names, do not collide, and placing
      the values in any order gives the workspace back. */
  ghost predicate Rebuilt<V(!new)>(t: F.Tree<Option<V>>, glue: string, prefix: Option<string>)
    requires t.Branch?
  {
    var flat, rules := F.LeavesOf(t, prefix, glue), RulesOf(t.items, glue, prefix);
    AllResolve(UpperNames(flat), rules) && PrefixFree(Paths(UpperNames(flat), rules))
    && forall order :: Reordered(Resolved(flat, rules), order) ==>
         Apart(order) && PlaceAll(order, |order|) == Some(AsSpace(t))
  }

  /** Reading strips the prefix that writing added: each name is read as without one. */
  lemma {:induction false} NamesRead<V>(t: F.Tree<V>, glue: string, prefix: Option<string>)
    requires t.Branch?
    ensures var flat, leaves := F.LeavesOf(t, prefix, glue), KeyLeaves(t.items, 0);
            |flat| == |leaves|
            && forall i :: 0 <= i < |flat| ==>
                 flat[i].1 == leaves[i].1
                 && Destination(Upper(flat[i].0), RulesOf(t.items, glue, prefix))
                    == Destination(Upper(JoinKeys(leaves[i].0, glue)), RulesOf(t.items, glue, None))
  {
    NamesAreJoinedKeys(t.items, 0, prefix, glue);
    if prefix.Some? {
      var leaves := KeyLeaves(t.items, 0);
      forall i | 0 <= i < |leaves|
        ensures WithoutPrefix(Upper(Prefixed(prefix, glue, JoinKeys(leaves[i].0, glue))),
                  RulesOf(t.items, glue, prefix))
             == Upper(JoinKeys(leaves[i].0, glue))
      {
        UpperConcat(prefix.value + glue, JoinKeys(leaves[i].0, glue));
      }
    }
  }

  lemma {:induction false} LeadBackResolved<V>(t: F.Tree<Option<V>>, glue: string, prefix: Option<string>)
    requires t.Branch? && AllLeadBack(t.items, glue)
    ensures var flat, rules := F.LeavesOf(t, prefix, glue), RulesOf(t.items, glue, prefix);
            AllResolve(UpperNames(flat), rules) && Resolved(flat, rules) == KeyLeaves(t.items, 0)
            && forall i :: 0 <= i < |flat| ==> Paths(UpperNames(flat), rules)[i] == KeyLeaves(t.items, 0)[i].0
  {
    var flat, rules, leaves := F.LeavesOf(t, prefix, glue), RulesOf(t.items, glue, prefix), KeyLeaves(t.items, 0);
    hide Destination, F.Leaves, KeyLeaves, JoinKeys, RulesOf;
    NamesRead(t, glue, prefix);
    forall i | 0 <= i < |flat| ensures Destination(Upper(flat[i].0), rules) == Ok(leaves[i].0) {
      assert LeadsBack(t.items, leaves[i], glue);
    }
  }

  lemma {:induction false} LegibleRebuilt<V(!new)>(t: F.Tree<Option<V>>, glue: string, prefix: Option<string>)
    requires t.Branch? && PlainItems(t.items, 0) && AllLeadBack(t.items, glue)
    ensures Rebuilt(t, glue, prefix)
  {
    hide Destination, F.Leaves, KeyLeaves, PlainItems, PlaceAll, AsSpace, Reordered, AllLeadBack;
    LeadBackResolved(t, glue, prefix);
    LeavesApart(t.items, 0);
    forall order: seq<Item<V>> | Reordered(KeyLeaves(t.items, 0), order)
      ensures Apart(order) && PlaceAll(order, |order|) == Some(AsSpace(t))
    {
      LeavesRebuild(t, order);
    }
  }

  lemma {:induction false} LeavesRebuild<V(!new)>(t: F.Tree<Option<V>>, order: seq<Item<V>>)
    requires t.Branch? && PlainItems(t.items, 0) && Reordered(KeyLeaves(t.items, 0), order)
    ensures Apart(order) && PlaceAll(order, |order|) == Some(AsSpace(t))
  {
    var leaves := KeyLeaves(t.items, 0);
    LeavesApart(t.items, 0);
    AnyOrder(leaves, order);
    PlaceAllHolds(leaves, |leaves|);
    assert leaves[..|leaves|] == leaves;
    AsMembersHold(t.items, 0);
    HoldTheSame(PlaceAll(leaves, |leaves|).value, AsSpace(t), leaves, leaves);
  }

  /** A rebuilt workspace holds the values at the paths their names were read as. */
  lemma {:induction false} RebuiltHolds<V(!new)>(t: F.Tree<Option<V>>, glue: string, prefix: Option<string>)
    requires t.Branch? && Rebuilt(t, glue, prefix)
    ensures Holds(AsSpace(t), Resolved(F.LeavesOf(t, prefix, glue), RulesOf(t.items, glue, prefix)))
  {
    hide Destination, PlaceAll, Holds, AsSpace, F.Leaves, CollectOf;
    var items := Resolved(F.LeavesOf(t, prefix, glue), RulesOf(t.items, glue, prefix));
    assert Apart(items);
    assert Reordered(items, items);
    PlaceAllHolds(items, |items|);
    assert items[..|items|] == items;
  }

  /** A name is read as the key path of some leaf. */
  lemma {:induction false} RebuiltFinds<V(!new)>(t: F.Tree<Option<V>>, glue: string, prefix: Option<string>, i: nat)
    returns (j: nat)
    requires t.Branch? && PlainItems(t.items, 0) && Rebuilt(t, glue, prefix) && i < |F.LeavesOf(t, prefix, glue)|
    ensures var flat, rules := F.LeavesOf(t, prefix, glue), RulesOf(t.items, glue, prefix);
            j < |KeyLeaves(t.items, 0)| && KeyLeaves(t.items, 0)[j].0 == Paths(UpperNames(flat), rules)[i]
  {
    var flat, rules, leaves := F.LeavesOf(t, prefix, glue), RulesOf(t.items, glue, prefix), KeyLeaves(t.items, 0);
    RebuiltHolds(t, glue, prefix);
    AsMembersHold(t.items, 0);
    hide *;
    HoldSameItems(AsSpace(t), Resolved(flat, rules), leaves);
    assert Resolved(flat, rules)[i] in leaves;
    j :| 0 <= j < |leaves| && leaves[j] == Resolved(flat, rules)[i];
  }

  lemma {:induction false} RebuiltLeadsBack<V(!new)>(t: F.Tree<Option<V>>, glue: string, prefix: Option<string>, i: nat)
    requires t.Branch? && PlainItems(t.items, 0) && Rebuilt(t, glue, prefix) && i < |KeyLeaves(t.items, 0)|
    ensures LeadsBack(t.items, KeyLeaves(t.items, 0)[i], glue)
  {
    var flat, rules := F.LeavesOf(t, prefix, glue), RulesOf(t.items, glue, prefix);
    var leaves, paths := KeyLeaves(t.items, 0), Paths(UpperNames(flat), rules);
    hide Destination, F.Leaves, CollectOf, KeyLeaves, PlainItems, JoinKeys, Rebuilt;
    NamesRead(t, glue, prefix);
    var j := RebuiltFinds(t, glue, prefix, i);
    UpperUpper(JoinKeys(leaves[i].0, glue));
    ReadingJoins(t.items, Upper(JoinKeys(leaves[i].0, glue)), glue);
    assert paths[j] == paths[i];
  }

  lemma {:induction false} HoldSameItems<V(!new)>(s: P.Space<V>, a: seq<Item<V>>, b: seq<Item<V>>)
    requires Holds(s, a) && Holds(s, b)
    ensures forall x :: x in a ==> x in b
  {
    forall x | x in a ensures x in b {
      assert P.Lookup(s, x.0) == Some(x.1);
    }
  }

  /** A workspace of plain keys survives flattening, upper-casing and rebuilding exactly when it is
      legible, for every glue and every prefix. */
  lemma {:induction false} WorkspaceRebuiltIff<V(!new)>(t: F.Tree<Option<V>>, glue: string, prefix: Option<string>)
    requires t.Branch? && PlainItems(t.items, 0)
    ensures Rebuilt(t, glue, prefix) <==> Legible(t.items, glue)
  {
    NamesLeadBackIff(t.items, glue);
    if AllLeadBack(t.items, glue) {
      LegibleRebuilt(t, glue, prefix);
    }
    if Rebuilt(t, glue, prefix) {
      forall leaf | leaf in KeyLeaves(t.items, 0) ensures LeadsBack(t.items, leaf, glue) {
        var i :| 0 <= i < |KeyLeaves(t.items, 0)| && KeyLeaves(t.items, 0)[i] == leaf;
        RebuiltLeadsBack(t, glue, prefix, i);
      }
    }
  }

  // -- keys free of the glue ---------------------------------------------------------------------

  /** The glue is in no key. */
  predicate FreeOf<V>(items: seq<F.Named<V>>, glue: char)
    decreases items
  {
    forall i :: 0 <= i < |items| ==>
      glue !in items[i].key && (items[i].tree.Branch? ==> FreeOf(items[i].tree.items, glue))
  }

  /** An upper-cased name has its first glue right after its first key. */
  lemma {:induction false} RunsPastOwnKey(key: string, path: Path, branch: string, glue: char)
    requires PlainKey(key) && PlainKey(branch) && glue !in key && glue !in branch && !('A' <= glue <= 'Z')
    requires RunsPast(JoinKeys([key] + path, [glue]), branch, [glue])
    ensures path != [] && branch == key
  {
    var name := JoinKeys([key] + path, [glue]);
    assert ([key] + path)[1..] == path;
    NoGlueUpper(key, glue);
    NoGlueUpper(branch, glue);
    assert Upper(branch + [glue])[|branch|] == UpperChar(glue);
    assert path == [] ==> name == key;
    if path != [] {
      assert name == key + [glue] + JoinKeys(path, [glue]);
      SameUpToGlue(key, branch, glue, JoinKeys(path, [glue]));
    }
  }

  lemma {:induction false} SameUpToGlue(key: string, branch: string, glue: char, rest: string)
    requires IsLower(key) && IsLower(branch)
    requires forall i :: 0 <= i < |key| ==> UpperChar(key[i]) != UpperChar(glue)
    requires forall i :: 0 <= i < |branch| ==> UpperChar(branch[i]) != UpperChar(glue)
    requires Upper(branch + [glue]) <= Upper(key + [glue] + rest)
    ensures branch == key
  {
    var start, name := Upper(branch + [glue]), Upper(key + [glue] + rest);
    assert start[|branch|] == UpperChar(glue) && name[|key|] == UpperChar(glue);
    assert forall i :: 0 <= i < |key| ==> name[i] == UpperChar(key[i]);
    assert forall i :: 0 <= i < |branch| ==> start[i] == UpperChar(branch[i]);
    assert |branch| == |key|;
    forall i | 0 <= i < |key| ensures branch[i] == key[i] {
      assert start[i] == name[i];
      assert LowerChar(UpperChar(key[i])) == key[i] && LowerChar(UpperChar(branch[i])) == branch[i];
    }
  }

  lemma {:induction false} NoGlueUpper(key: string, glue: char)
    requires IsLower(key) && glue !in key && !('A' <= glue <= 'Z')
    ensures forall i :: 0 <= i < |key| ==> UpperChar(key[i]) != UpperChar(glue)
  {
    forall i | 0 <= i < |key| ensures UpperChar(key[i]) != UpperChar(glue) {
      assert LowerChar(key[i]) == key[i] && key[i] != glue;
    }
  }

  lemma {:induction false} FreeIsLegible<V>(items: seq<F.Named<V>>, glue: char)
    requires PlainItems(items, 0) && FreeOf(items, glue) && !('A' <= glue <= 'Z')
    ensures Legible(items, [glue])
    decreases items
  {
    forall k | 0 <= k < |items| ensures ItemLegible(items, k, [glue]) {
      PlainAt(items, 0, k);
      if items[k].tree.Branch? {
        FreeIsLegible(items[k].tree.items, glue);
      }
      forall leaf, j | leaf in ItemLeaves(items, k) && 0 <= j < |items|
                       && PastItem(items, j, JoinKeys(leaf.0, [glue]), [glue])
        ensures items[k].tree.Branch? && j == k
      {
        PlainAt(items, 0, j);
        assert leaf.0 == [items[k].key] + leaf.0[1..];
        RunsPastOwnKey(items[k].key, leaf.0[1..], items[j].key, glue);
      }
    }
  }

  /** With a glue that is no upper-case letter, keys free of it always survive. */
  lemma {:induction false} WorkspaceRebuilt<V(!new)>(t: F.Tree<Option<V>>, glue: char, prefix: Option<string>)
    requires t.Branch? && PlainItems(t.items, 0) && FreeOf(t.items, glue) && !('A' <= glue <= 'Z')
    ensures Rebuilt(t, [glue], prefix)
  {
    FreeIsLegible(t.items, glue);
    WorkspaceRebuiltIff(t, [glue], prefix);
  }

  /** The branch "a" and a key that begins with "a" and the glue in lower case. */
  function Misleading(glue: char): F.Tree<Option<int>>
    requires 'A' <= glue <= 'Z'
  {
    F.Branch([F.Named("a", F.Branch([F.Named("c", F.Leaf(None))])),
              F.Named("a" + [LowerChar(glue)] + "b", F.Leaf(None))])
  }

  lemma {:induction false} MisleadingIsRefused(glue: char)
    requires 'A' <= glue <= 'Z'
    ensures var t := Misleading(glue);
            t.Branch? && PlainItems(t.items, 0) && FreeOf(t.items, glue) && !Legible(t.items, [glue])
  {
    var t := Misleading(glue);
    var items, key := t.items, "a" + [LowerChar(glue)] + "b";
    assert PlainKey("a") && PlainKey("c") && PlainKey(key);
    assert PlainItems(items[0].tree.items, 0) by { assert PlainItems(items[0].tree.items, 1); }
    assert PlainItems(items, 2) && PlainItems(items, 1);
    assert FreeOf(items[0].tree.items, glue);
    var leaf: (Path, Option<int>) := ([key], None);
    assert leaf in ItemLeaves(items, 1);
    assert JoinKeys(leaf.0, [glue]) == key;
    assert Upper("a" + [glue]) == Upper(key)[..2];
    assert PastItem(items, 0, key, [glue]);
    assert !ItemLegible(items, 1, [glue]);
  }

  /** A glue serves every workspace of plain keys free of it exactly when it is no upper-case letter. */
  lemma {:induction false} GlueServesIff(glue: char)
    ensures (forall t: F.Tree<Option<int>>, prefix ::
               t.Branch? && PlainItems(t.items, 0) && FreeOf(t.items, glue) ==> Rebuilt(t, [glue], prefix))
            <==> !('A' <= glue <= 'Z')
  {
    if 'A' <= glue <= 'Z' {
      MisleadingIsRefused(glue);
      WorkspaceRebuiltIff(Misleading(glue), [glue], None);
    } else {
      forall t: F.Tree<Option<int>>, prefix | t.Branch? && PlainItems(t.items, 0) && FreeOf(t.items, glue)
        ensures Rebuilt(t, [glue], prefix)
      {
        WorkspaceRebuilt(t, glue, prefix);
      }
    }
  }

  /** With glue "X", the key "axb" beside the branch "a" is read as the key "b" inside it. */
  lemma {:induction false} GlueInOtherCaseMisleads()
    ensures var items := [F.Named("a", F.Branch([F.Named("c", F.Leaf(1))])), F.Named("axb", F.Leaf(2))];
            'X' !in "axb" && 'X' !in "a" && 'X' !in "c"
            && Destination(Upper("axb"), RulesOf(items, "X", None)) == Ok(["a", "b"])
  {
    var items := [F.Named("a", F.Branch([F.Named("c", F.Leaf(1))])), F.Named("axb", F.Leaf(2))];
    var entry := Entry("a", CollectOf(items[0].tree.items, 0));
    assert CollectOf(items, 2) == [] && CollectOf(items, 1) == [];
    assert CollectOf(items, 0) == [entry];
    assert CollectOf(items[0].tree.items, 1) == [];
    assert Upper("axb") == "AXB" && Upper("a" + "X") == "AX" && "AXB"[2..] == "B";
    assert TryEntry("AXB", "X", LowerCase(), entry) == Ok(Some(Match("a", "B", [])));
    assert FirstMatch("AXB", "X", LowerCase(), [entry]) == Ok(Some(Match("a", "B", [])));
    assert Lower("B") == "b";
    assert Descend("B", "X", LowerCase(), []) == Ok(["b"]);
    assert ["a"] + ["b"] == ["a", "b"];
    assert Descend("AXB", "X", LowerCase(), [entry]) == Ok(["a", "b"]);
  }
}
