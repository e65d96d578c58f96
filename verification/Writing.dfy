/** Checking flattened names and writing them, replacing by default (bridge/_workspace.py, _data.py). */
module Writing {
  import opened Wrappers
  import opened Names
  import opened Flatten

  datatype FlattenError = Cycle | BadName | Collision

  /** All the containers' leaves, or None when one of them contains itself. */
  function FlattenRoots<V>(g: Graph<V>, roots: seq<Id>, prefix: Option<string>, glue: string): Option<seq<(string, V)>>
    requires ClosedGraph(g) && forall i :: 0 <= i < |roots| ==> roots[i] in g
  {
    if roots == [] then Some([])
    else match Unfold(g, roots[0], [])
      case None => None
      case Some(t) => Prepend(LeavesOf(t, prefix, glue), FlattenRoots(g, roots[1..], prefix, glue))
  }

  /** One container gives its own leaves, several give theirs one after the other, and none of them may contain
      itself. */
  lemma {:induction false} RootsInTurn<V>(g: Graph<V>, roots: seq<Id>, more: seq<Id>, prefix: Option<string>,
      glue: string)
    requires ClosedGraph(g) && forall i :: 0 <= i < |roots + more| ==> (roots + more)[i] in g
    requires forall i :: 0 <= i < |roots| ==> roots[i] in g
    requires forall i :: 0 <= i < |more| ==> more[i] in g
    ensures var a, b := FlattenRoots(g, roots, prefix, glue), FlattenRoots(g, more, prefix, glue);
            FlattenRoots(g, roots + more, prefix, glue)
            == if a.Some? && b.Some? then Some(a.value + b.value) else None
    ensures |roots| == 1 ==>
            FlattenRoots(g, roots, prefix, glue)
            == if Unfold(g, roots[0], []).None? then None
               else Some(LeavesOf(Unfold(g, roots[0], []).value, prefix, glue))
    decreases |roots|
  {
    assert roots != [] && Unfold(g, roots[0], []).Some? ==> Unfold(g, roots[0], []).value.Branch?;
    hide Unfold, LeavesOf;
    if roots == [] {
      assert roots + more == more;
      PrependNothing(FlattenRoots(g, more, prefix, glue));
    } else {
      assert (roots + more)[1..] == roots[1..] + more;
      RootsInTurn(g, roots[1..], more, prefix, glue);
      var t := Unfold(g, roots[0], []);
      if t.Some? {
        var first := LeavesOf(t.value, prefix, glue);
        PrependTwice(first, [], FlattenRoots(g, more, prefix, glue));
        assert FlattenRoots(g, [roots[0]], prefix, glue) == Some(first) by {
          assert [roots[0]][1..] == [];
          assert first + [] == first;
        }
        assert |roots| == 1 ==> roots == [roots[0]];
        var a, b := FlattenRoots(g, roots[1..], prefix, glue), FlattenRoots(g, more, prefix, glue);
        if a.Some? && b.Some? { assert first + (a.value + b.value) == first + a.value + b.value; }
      }
    }
  }

  predicate DistinctNames<V>(flat: seq<(string, V)>) {
    forall i, j :: 0 <= i < j < |flat| ==> Upper(flat[i].0) != Upper(flat[j].0)
  }

  predicate NamesValid<V>(flat: seq<(string, V)>) {
    forall i :: 0 <= i < |flat| ==> IsObjectName(flat[i].0)
  }

  method FlattenAll<V>(g: Graph<V>, roots: seq<Id>, prefix: Option<string>, glue: string)
    returns (r: Option<seq<(string, V)>>)
    requires ClosedGraph(g) && forall i :: 0 <= i < |roots| ==> roots[i] in g
    ensures r == FlattenRoots(g, roots, prefix, glue)
  {
    var state := new Flattening<V>();
    var i := 0;
    assert roots[0..] == roots;
    PrependNothing(FlattenRoots(g, roots, prefix, glue));
    while i < |roots|
      invariant 0 <= i <= |roots| && state.stack == []
      invariant FlattenRoots(g, roots, prefix, glue)
             == Prepend(state.flat, FlattenRoots(g, roots[i..], prefix, glue))
    {
      ghost var before := state.flat;
      var ok := state.FlattenInto(g, roots[i], prefix, glue);
      assert roots[i..][1..] == roots[i + 1..];
      if !ok {
        return None;
      }
      PrependTwice(before, LeavesOf(Unfold(g, roots[i], []).value, prefix, glue),
                   FlattenRoots(g, roots[i + 1..], prefix, glue));
      i := i + 1;
    }
    assert roots[i..] == [] && state.flat + [] == state.flat;
    return Some(state.flat);
  }

  /** Flatten, then accept only valid names that differ even when case is ignored. */
  method FlattenNames<V>(g: Graph<V>, roots: seq<Id>, prefix: Option<string>, glue: string)
    returns (r: Result<seq<(string, V)>, FlattenError>)
    requires ClosedGraph(g) && forall i :: 0 <= i < |roots| ==> roots[i] in g
    ensures r == Err(Cycle) <==> FlattenRoots(g, roots, prefix, glue) == None
    ensures r.Ok? <==> (var flat := FlattenRoots(g, roots, prefix, glue);
                        flat.Some? && NamesValid(flat.value) && DistinctNames(flat.value))
    ensures r.Ok? ==> FlattenRoots(g, roots, prefix, glue) == Some(r.value)
  {
    hide FlattenRoots;
    var flattened := FlattenAll(g, roots, prefix, glue);
    if flattened.None? {
      return Err(Cycle);
    }
    var flat := flattened.value;
    var seen: map<string, string> := map[];
    var k := 0;
    while k < |flat|
      invariant 0 <= k <= |flat|
      invariant forall i :: 0 <= i < k ==> IsObjectName(flat[i].0)
      invariant forall i, j :: 0 <= i < j < k ==> Upper(flat[i].0) != Upper(flat[j].0)
      invariant forall i :: 0 <= i < k ==> Upper(flat[i].0) in seen
      invariant forall u :: u in seen ==> exists j :: 0 <= j < k && Upper(flat[j].0) == u
    {
      var name := flat[k].0;
      if !IsObjectName(name) {
        return Err(BadName);
      }
      var upper := Upper(name);
      if upper in seen {
        return Err(Collision);
      }
      seen := seen[upper := name];
      k := k + 1;
    }
    return Ok(flat);
  }

  lemma PrependNothing<T>(rest: Option<seq<T>>)
    ensures Prepend([], rest) == rest
  {
    if rest.Some? {
      assert [] + rest.value == rest.value;
    }
  }

  lemma PrependTwice<T>(a: seq<T>, b: seq<T>, rest: Option<seq<T>>)
    ensures Prepend(a, Prepend(b, rest)) == Prepend(a + b, rest)
  {
    if rest.Some? {
      assert a + (b + rest.value) == a + b + rest.value;
    }
  }

  // -- writing ---------------------------------------------------------------------------

  /** What the library does with one create-or-replace: it can fail before anything, once the old object
      is gone, or with the new object created and only partly filled. */
  datatype Outcome<+V> = Succeeds | FailsFirst | FailsAfterDelete | FailsPartway(left: V)

  /** The objects after one write, and whether it succeeded; a failed replace may lose the old one and
      leave an unfinished new one. */
  function WriteOne<V>(objects: map<string, V>, name: string, value: V, replace: bool,
      outcome: Outcome<V>): (map<string, V>, bool) {
    var key := Upper(name);
    if outcome.FailsFirst? || (!replace && key in objects) then (objects, false)
    else
      var cleared := if replace then objects - {key} else objects;
      match outcome
      case FailsAfterDelete => (cleared, false)
      case FailsPartway(left) => (cleared[key := left], false)
      case _ => (cleared[key := value], true)
  }

  /** The objects after writing the first n, every object attempted. */
  function WriteAll<V>(objects: map<string, V>, flat: seq<(string, V)>, n: nat, replace: bool,
      outcomes: nat -> Outcome<V>): map<string, V>
    requires n <= |flat|
  {
    if n == 0 then objects
    else
      var (name, value) := flat[n - 1];
      WriteOne(WriteAll(objects, flat, n - 1, replace, outcomes), name, value, replace, outcomes(n - 1)).0
  }

  class Database<V> {
    var objects: map<string, V>

    constructor (objects: map<string, V>)
      ensures this.objects == objects
    {
      this.objects := objects;
    }

    method WriteRaw(name: string, value: V, replace: bool, outcome: Outcome<V>) returns (ok: bool)
      modifies this
      ensures (objects, ok) == WriteOne(old(objects), name, value, replace, outcome)
    {
      var key := Upper(name);
      if outcome.FailsFirst? {
        return false;
      }
      if replace {
        objects := objects - {key};
      }
      if key in objects || outcome.FailsAfterDelete? {
        return false;
      }
      objects := objects[key := if outcome.FailsPartway? then outcome.left else value];
      return !outcome.FailsPartway?;
    }

    /** Write every object; a strict write stops at the first failure, a report goes on. */
    method WriteFame(flat: seq<(string, V)>, replace: bool, contain: bool, outcomes: nat -> Outcome<V>)
      returns (written: set<nat>, attempted: nat)
      modifies this
      ensures attempted <= |flat| && (contain ==> attempted == |flat|)
      ensures objects == WriteAll(old(objects), flat, attempted, replace, outcomes)
      ensures forall i: nat :: i in written <==> i < attempted && Wrote(old(objects), flat, i, replace, outcomes)
      ensures !contain && attempted < |flat| ==> attempted > 0 && attempted - 1 !in written
    {
      written := {};
      attempted := 0;
      while attempted < |flat|
        invariant attempted <= |flat|
        invariant objects == WriteAll(old(objects), flat, attempted, replace, outcomes)
        invariant forall i: nat :: i in written <==> i < attempted && Wrote(old(objects), flat, i, replace, outcomes)
      {
        var ok := WriteRaw(flat[attempted].0, flat[attempted].1, replace, outcomes(attempted));
        if ok {
          written := written + {attempted};
        }
        attempted := attempted + 1;
        if !ok && !contain {
          return;
        }
      }
    }
  }

  predicate Wrote<V>(objects: map<string, V>, flat: seq<(string, V)>, i: nat, replace: bool,
      outcomes: nat -> Outcome<V>)
    requires i < |flat|
  {
    WriteOne(WriteAll(objects, flat, i, replace, outcomes), flat[i].0, flat[i].1, replace, outcomes(i)).1
  }

  /** A write succeeds exactly when the library does and nothing it may not replace is in the way; what is in
      the way of a write that may not replace stays, whatever the library does. */
  lemma OneWrite<V>(objects: map<string, V>, name: string, value: V, replace: bool, outcome: Outcome<V>)
    ensures var (after, ok) := WriteOne(objects, name, value, replace, outcome);
            (ok <==> outcome.Succeeds? && (replace || Upper(name) !in objects))
            && (ok ==> after == objects[Upper(name) := value])
            && (!replace && Upper(name) in objects ==> after == objects)
            && (outcome.FailsFirst? ==> after == objects)
            && (outcome.FailsAfterDelete? && replace ==> after == objects - {Upper(name)})
            && (outcome.FailsPartway? && (replace || Upper(name) !in objects) ==>
                after == objects[Upper(name) := outcome.left])
            && after - {Upper(name)} == objects - {Upper(name)}
  {
  }

  /** With names distinct up to case, a write of a call succeeds exactly when the library does and, unless
      it may replace, no object had its name before the call. */
  lemma WroteIff<V>(objects: map<string, V>, flat: seq<(string, V)>, i: nat, replace: bool,
      outcomes: nat -> Outcome<V>)
    requires i < |flat| && DistinctNames(flat)
    ensures Wrote(objects, flat, i, replace, outcomes)
       <==> outcomes(i).Succeeds? && (replace || Upper(flat[i].0) !in objects)
  {
    WritesKeepOthers(objects, flat, i, Upper(flat[i].0), replace, outcomes);
    OneWrite(WriteAll(objects, flat, i, replace, outcomes), flat[i].0, flat[i].1, replace, outcomes(i));
  }

  /** A call that may not replace leaves every object that was there, under any name and outcome. */
  lemma {:induction false} WithoutReplacing<V>(objects: map<string, V>, flat: seq<(string, V)>, n: nat,
      outcomes: nat -> Outcome<V>)
    requires n <= |flat|
    ensures var final := WriteAll(objects, flat, n, false, outcomes);
            forall key :: key in objects ==> key in final && final[key] == objects[key]
    decreases n
  {
    if n > 0 {
      WithoutReplacing(objects, flat, n - 1, outcomes);
    }
  }

  /** With names distinct up to case, no write touches an object another write of the call made. */
  lemma {:induction false} WritesKeepEarlier<V>(
    objects: map<string, V>, flat: seq<(string, V)>, n: nat, i: nat, replace: bool, outcomes: nat -> Outcome<V>)
    requires i < n <= |flat| && DistinctNames(flat)
    requires Wrote(objects, flat, i, replace, outcomes)
    ensures var final := WriteAll(objects, flat, n, replace, outcomes);
            Upper(flat[i].0) in final && final[Upper(flat[i].0)] == flat[i].1
    decreases n
  {
    if i < n - 1 {
      WritesKeepEarlier(objects, flat, n - 1, i, replace, outcomes);
      assert Upper(flat[i].0) != Upper(flat[n - 1].0);
    }
  }

  /** Objects under other names are untouched, whatever succeeds or fails. */
  lemma {:induction false} WritesKeepOthers<V>(
    objects: map<string, V>, flat: seq<(string, V)>, n: nat, key: string, replace: bool, outcomes: nat -> Outcome<V>)
    requires n <= |flat| && forall i :: 0 <= i < n ==> Upper(flat[i].0) != key
    ensures var final := WriteAll(objects, flat, n, replace, outcomes);
            (key in final <==> key in objects) && (key in objects ==> final[key] == objects[key])
    decreases n
  {
    if n > 0 {
      WritesKeepOthers(objects, flat, n - 1, key, replace, outcomes);
    }
  }

  /** Two names that differ only in case would make a replacing write lose the first object. */
  lemma CollisionLosesObject<V>(objects: map<string, V>, a: string, b: string, x: V, y: V)
    requires Upper(a) == Upper(b) && x != y
    ensures var final := WriteAll(objects, [(a, x), (b, y)], 2, true, _ => Succeeds);
            final[Upper(a)] == y != x
  {
    var flat: seq<(string, V)> := [(a, x), (b, y)];
    var outcomes: nat -> Outcome<V> := _ => Succeeds;
    assert WriteAll(objects, flat, 1, true, outcomes) == WriteOne(objects, a, x, true, Succeeds).0;
  }
}
