/** Placing values at paths that keep out of each other's way. */
module PlaceOrder {
  import opened Wrappers
  import opened Names
  import opened Resolve
  import opened Placing

  // -- placing prefix-free paths ----------------------------------------------------------

  /** No workspace below the top is empty. */
  ghost predicate NoEmptyBelow<V>(s: Space<V>) {
    s.Space? ==> forall k :: k in s.members ==>
      NoEmptyBelow(s.members[k]) && s.members[k] != Space(map[])
  }

  lemma {:induction false} SomeLeaf<V>(s: Space<V>) returns (path: Path)
    requires NoEmptyBelow(s) && s != Space(map[])
    ensures Lookup(s, path).Some?
    decreases s
  {
    if s.Value? {
      path := [];
    } else {
      var k :| k in s.members;
      var rest := SomeLeaf(s.members[k]);
      path := [k] + rest;
      assert path[1..] == rest;
    }
  }

  /** Nothing is stored at a prefix or an extension of the path. */
  ghost predicate Clear<V>(s: Space<V>, path: Path) {
    forall q: Path :: Lookup(s, q).Some? ==> !(q <= path) && !(path <= q)
  }

  lemma LookupStep<V>(s: Space<V>, key: string, q: Path)
    requires s.Space?
    ensures Lookup(s, [key] + q) == if key in s.members then Lookup(s.members[key], q) else None
  {
    assert ([key] + q)[1..] == q;
  }

  lemma LookupBelow<V>(s: Space<V>, key: string, rest: Path, n: nat)
    requires s.Space? && OnTheWay(s.members, key).Space? && 1 <= n <= |rest|
    ensures Lookup(s, ([key] + rest)[..n + 1]) == Lookup(OnTheWay(s.members, key), rest[..n])
  {
    assert ([key] + rest)[..n + 1] == [key] + rest[..n];
    LookupStep(s, key, rest[..n]);
  }

  /** A path is refused exactly when a value that is not None is stored at one of its proper prefixes. */
  lemma {:induction false} PlacedRefusedIff<V>(s: Space<V>, path: Path, v: Option<V>)
    requires s.Space? && path != []
    ensures Placed(s, path, v).None?
       <==> exists n :: 1 <= n < |path| && Lookup(s, path[..n]).Some? && Lookup(s, path[..n]).value.Some?
    decreases |path|
  {
    if |path| > 1 {
      var key, rest := path[0], path[1..];
      assert path == [key] + rest;
      var child := OnTheWay(s.members, key);
      LookupStep(s, key, []);
      assert path[..1] == [key] + [] == [key];
      if child.Space? {
        PlacedRefusedIff(child, rest, v);
        forall n | 1 <= n < |rest| ensures Lookup(s, path[..n + 1]) == Lookup(child, rest[..n]) {
          LookupBelow(s, key, rest, n);
        }
        if n :| 1 <= n < |path| && Lookup(s, path[..n]).Some? && Lookup(s, path[..n]).value.Some? {
          assert n != 1;
          assert Lookup(child, rest[..n - 1]) == Lookup(s, path[..n - 1 + 1]);
        }
        if Placed(child, rest, v).None? {
          var n :| 1 <= n < |rest| && Lookup(child, rest[..n]).Some? && Lookup(child, rest[..n]).value.Some?;
          assert Lookup(s, path[..n + 1]) == Lookup(child, rest[..n]);
        }
      }
    }
  }

  /** Placing stores the value at its path and leaves every path that is no prefix or extension of it. */
  lemma {:induction false} PlacedElsewhere<V>(s: Space<V>, path: Path, v: Option<V>, q: Path)
    requires s.Space? && path != [] && Placed(s, path, v).Some?
    ensures Lookup(Placed(s, path, v).value, path) == Some(v)
    ensures !(q <= path) && !(path <= q) ==> Lookup(Placed(s, path, v).value, q) == Lookup(s, q)
    decreases |path|
  {
    var key, rest := path[0], path[1..];
    assert path == [key] + rest;
    if |path| > 1 {
      var child := OnTheWay(s.members, key);
      PlacedElsewhere(child, rest, v, if q == [] then [] else q[1..]);
      if q != [] && q[0] == key {
        assert q == [key] + q[1..];
      }
    }
  }

  /** On a clear path the descent meets no value, and placing changes that path alone. */
  lemma {:induction false} PlacedLookup<V>(s: Space<V>, path: Path, v: Option<V>)
    requires s.Space? && path != [] && NoEmptyBelow(s) && Clear(s, path)
    ensures Placed(s, path, v).Some?
    ensures var r := Placed(s, path, v).value;
            r.Space? && r.members != map[] && NoEmptyBelow(r)
            && forall q: Path :: Lookup(r, q) == if q == path then Some(v) else Lookup(s, q)
    decreases |path|
  {
    var key, rest := path[0], path[1..];
    assert path == [key] + rest;
    if |path| == 1 {
      KeyIsFree(s, key);
      assert key in s.members[key := Space.Value(v)];
      LookupAfter(s, path, Value(v), v);
    } else {
      ClearBelow(s, key, rest);
      var child := OnTheWay(s.members, key);
      PlacedLookup(child, rest, v);
      var below := Placed(child, rest, v).value;
      LookupOnTheWay(s, key);
      assert key in s.members[key := below];
      LookupAfter(s, path, below, v);
    }
  }

  lemma KeyIsFree<V>(s: Space<V>, key: string)
    requires s.Space? && NoEmptyBelow(s) && Clear(s, [key])
    ensures key !in s.members
  {
    if key in s.members {
      var q := SomeLeaf(s.members[key]);
      LookupStep(s, key, q);
      PrefixOf([key], q);
    }
  }

  lemma PrefixOf(a: Path, b: Path)
    ensures a <= a + b
  {
  }

  lemma ClearBelow<V>(s: Space<V>, key: string, rest: Path)
    requires s.Space? && NoEmptyBelow(s) && Clear(s, [key] + rest) && rest != []
    ensures var child := OnTheWay(s.members, key);
            child.Space? && NoEmptyBelow(child) && Clear(child, rest)
            && (key in s.members ==> s.members[key] == child)
  {
    var child := OnTheWay(s.members, key);
    if key in s.members {
      LookupStep(s, key, []);
      assert [key] + [] == [key] && [key] <= [key] + rest;
      forall q: Path | Lookup(child, q).Some? ensures !(q <= rest) && !(rest <= q) {
        LookupStep(s, key, q);
        assert q <= rest ==> [key] + q <= [key] + rest;
        assert rest <= q ==> [key] + rest <= [key] + q;
      }
    }
  }

  lemma LookupOnTheWay<V>(s: Space<V>, key: string)
    requires s.Space? && (key in s.members ==> s.members[key].Space?)
    ensures forall q: Path :: Lookup(s, [key] + q) == Lookup(OnTheWay(s.members, key), q) || q == []
  {
    forall q: Path ensures Lookup(s, [key] + q) == Lookup(OnTheWay(s.members, key), q) || q == [] {
      LookupStep(s, key, q);
    }
  }

  lemma LookupAfter<V>(s: Space<V>, path: Path, below: Space<V>, v: Option<V>)
    requires s.Space? && path != []
    requires forall q: Path :: Lookup(below, q) == if q == path[1..] then Some(v) else Lookup(s, [path[0]] + q)
    ensures var r := Space(s.members[path[0] := below]);
            forall q: Path :: Lookup(r, q) == if q == path then Some(v) else Lookup(s, q)
  {
    var key := path[0];
    var r := Space(s.members[key := below]);
    forall q: Path ensures Lookup(r, q) == if q == path then Some(v) else Lookup(s, q) {
      if q != [] {
        LookupStep(r, q[0], q[1..]);
        LookupStep(s, q[0], q[1..]);
        assert q == [q[0]] + q[1..];
        assert path == [key] + path[1..];
      }
    }
  }

  type Item<V> = (Path, Option<V>)

  ghost predicate Apart<V>(items: seq<Item<V>>) {
    (forall i :: 0 <= i < |items| ==> items[i].0 != [])
    && forall i, j :: 0 <= i < |items| && 0 <= j < |items| && i != j ==> !(items[i].0 <= items[j].0)
  }

  /** A fresh workspace with the first n items placed in order. */
  function PlaceAll<V>(items: seq<Item<V>>, n: nat): (r: Option<Space<V>>)
    requires n <= |items| && forall i :: 0 <= i < |items| ==> items[i].0 != []
    ensures r.Some? ==> r.value.Space?
  {
    if n == 0 then Some(Space(map[]))
    else match PlaceAll(items, n - 1)
      case None => None
      case Some(s) => Placed(s, items[n - 1].0, items[n - 1].1)
  }

  ghost predicate Holds<V(!new)>(s: Space<V>, items: seq<Item<V>>) {
    s.Space? && NoEmptyBelow(s)
    && forall q: Path, v: Option<V> :: Lookup(s, q) == Some(v) <==> (q, v) in items
  }

  /** Every value lands on its own path: nothing is overwritten and no value is descended through. */
  lemma {:induction false} PlaceAllHolds<V(!new)>(items: seq<Item<V>>, n: nat)
    requires n <= |items| && Apart(items)
    ensures PlaceAll(items, n).Some? && Holds(PlaceAll(items, n).value, items[..n])
    ensures n < |items| ==> Clear(PlaceAll(items, n).value, items[n].0)
    decreases n
  {
    if n == 0 {
      assert Holds(Space<V>.Space(map[]), items[..0]);
    } else {
      PlaceAllHolds(items, n - 1);
      var s := PlaceAll(items, n - 1).value;
      var (path, v) := items[n - 1];
      PlacedLookup(s, path, v);
      var r := Placed(s, path, v).value;
      assert items[..n] == items[..n - 1] + [(path, v)];
      forall q: Path, w: Option<V> ensures Lookup(r, q) == Some(w) <==> (q, w) in items[..n] {
        assert (q, w) in items[..n] <==> (q, w) in items[..n - 1] || (q, w) == (path, v);
      }
    }
    HoldsIsClear(items, n);
  }

  lemma HoldsIsClear<V(!new)>(items: seq<Item<V>>, n: nat)
    requires n <= |items| && Apart(items) && PlaceAll(items, n).Some?
    requires Holds(PlaceAll(items, n).value, items[..n])
    ensures n < |items| ==> Clear(PlaceAll(items, n).value, items[n].0)
  {
    var s := PlaceAll(items, n).value;
    if n < |items| {
      forall q: Path | Lookup(s, q).Some? ensures !(q <= items[n].0) && !(items[n].0 <= q) {
        assert (q, Lookup(s, q).value) in items[..n];
        var i :| 0 <= i < n && items[i] == (q, Lookup(s, q).value);
      }
    }
  }

  /** Workspaces without empty parts are equal when they hold the same values at the same paths. */
  lemma {:induction false} SameLookups<V>(a: Space<V>, b: Space<V>)
    requires NoEmptyBelow(a) && NoEmptyBelow(b) && a.Space? == b.Space?
    requires forall q: Path :: Lookup(a, q) == Lookup(b, q)
    ensures a == b
    decreases a
  {
    if a.Value? {
      assert Lookup(a, []) == Lookup(b, []);
    } else {
      forall k ensures k in a.members <==> k in b.members {
        SameKey(a, b, k);
        SameKey(b, a, k);
      }
      forall k | k in a.members ensures a.members[k] == b.members[k] {
        forall q: Path ensures Lookup(a.members[k], q) == Lookup(b.members[k], q) {
          LookupStep(a, k, q);
          LookupStep(b, k, q);
        }
        SameShape(a.members[k], b.members[k]);
        SameLookups(a.members[k], b.members[k]);
      }
      assert a.members == b.members;
    }
  }

  lemma SameKey<V>(a: Space<V>, b: Space<V>, k: string)
    requires a.Space? && b.Space? && NoEmptyBelow(a) && forall q: Path :: Lookup(a, q) == Lookup(b, q)
    ensures k in a.members ==> k in b.members
  {
    if k in a.members {
      var q := SomeLeaf(a.members[k]);
      LookupStep(a, k, q);
      LookupStep(b, k, q);
    }
  }

  lemma SameShape<V>(a: Space<V>, b: Space<V>)
    requires forall q: Path :: Lookup(a, q) == Lookup(b, q)
    ensures a.Space? == b.Space?
  {
    assert Lookup(a, []) == Lookup(b, []);
  }

  /** The same items in another order. */
  ghost predicate Reordered<V>(items: seq<Item<V>>, order: seq<Item<V>>) {
    (forall i, j :: 0 <= i < j < |order| ==> order[i] != order[j])
    && (forall i :: 0 <= i < |items| ==> items[i] in order)
    && (forall i :: 0 <= i < |order| ==> order[i] in items)
  }

  lemma ReorderedApart<V>(items: seq<Item<V>>, order: seq<Item<V>>)
    requires Apart(items) && Reordered(items, order)
    ensures Apart(order)
  {
    forall i, j | 0 <= i < |order| && 0 <= j < |order| && i != j
      ensures !(order[i].0 <= order[j].0)
    {
      var a :| 0 <= a < |items| && items[a] == order[i];
      var b :| 0 <= b < |items| && items[b] == order[j];
      assert i < j || j < i;
    }
    forall i | 0 <= i < |order| ensures order[i].0 != [] {
      var a :| 0 <= a < |items| && items[a] == order[i];
    }
  }

  lemma HoldTheSame<V(!new)>(a: Space<V>, b: Space<V>, items: seq<Item<V>>, order: seq<Item<V>>)
    requires Holds(a, items) && Holds(b, order)
    requires forall x :: x in order <==> x in items
    ensures a == b
  {
    forall q: Path ensures Lookup(a, q) == Lookup(b, q) {
      if Lookup(a, q).Some? { assert (q, Lookup(a, q).value) in order; }
      if Lookup(b, q).Some? { assert (q, Lookup(b, q).value) in items; }
    }
    SameLookups(a, b);
  }

  /** Any order of the same items builds the same workspace. */
  lemma AnyOrder<V(!new)>(items: seq<Item<V>>, order: seq<Item<V>>)
    requires Apart(items) && Reordered(items, order)
    ensures Apart(order) && PlaceAll(order, |order|) == PlaceAll(items, |items|)
  {
    ReorderedApart(items, order);
    PlaceAllHolds(items, |items|);
    PlaceAllHolds(order, |order|);
    assert items[..|items|] == items && order[..|order|] == order;
    hide Holds;
    hide PlaceAll;
    hide Apart;
    HoldTheSame(PlaceAll(items, |items|).value, PlaceAll(order, |order|).value, items, order);
  }
}
