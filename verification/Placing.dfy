/** Placing values at key paths: nested workspaces as dictionaries (bridge/_workspace.py). */
module Placing {
  import opened Wrappers
  import opened Resolve

  /** A workspace as a value; a stored None is a value too. */
  datatype Space<V> = Value(value: Option<V>) | Space(members: map<string, Space<V>>)

  /** The value at a path, if the path ends at one. */
  function Lookup<V>(s: Space<V>, path: Path): Option<Option<V>>
    decreases |path|
  {
    if path == [] then (if s.Value? then Some(s.value) else None)
    else if s.Space? && path[0] in s.members then Lookup(s.members[path[0]], path[1..])
    else None
  }

  /** The workspace below a key on the way to a value: created when the key is absent or None. */
  function OnTheWay<V>(members: map<string, Space<V>>, key: string): Space<V> {
    if key !in members || members[key] == Value(None) then Space(map[]) else members[key]
  }

  /** The workspace after placing a value; None when the way leads through another value. */
  function Placed<V>(s: Space<V>, path: Path, v: Option<V>): (r: Option<Space<V>>)
    requires s.Space? && path != []
    ensures r.Some? ==> r.value.Space?
    decreases |path|
  {
    if |path| == 1 then Some(Space(s.members[path[0] := Value(v)]))
    else
      var child := OnTheWay(s.members, path[0]);
      if child.Value? then None
      else match Placed(child, path[1..], v)
        case None => None
        case Some(below) => Some(Space(s.members[path[0] := below]))
  }

  /** A value on the way refuses the whole path; a missing workspace never does. */
  lemma PlacedStep<V>(s: Space<V>, path: Path, v: Option<V>)
    requires s.Space? && path != []
    ensures |path| == 1 ==> Placed(s, path, v) == Some(Space(s.members[path[0] := Value(v)]))
    ensures |path| > 1 ==>
              var child := OnTheWay(s.members, path[0]);
              (child.Space? <== Placed(s, path, v).Some?)
              && (child.Space? ==>
                    var below := Placed(child, path[1..], v);
                    (below.Some? <==> Placed(s, path, v).Some?)
                    && (below.Some? ==> Placed(s, path, v).value == Space(s.members[path[0] := below.value]))
                    && (below.None? ==> Space(s.members[path[0] := child]) == s))
  {
    if |path| > 1 {
      PlacedFresh(path[1..], v);
      assert path[0] in s.members ==> s.members[path[0] := s.members[path[0]]] == s.members;
    }
  }

  lemma {:induction false} PlacedFresh<V>(path: Path, v: Option<V>)
    requires path != []
    ensures Placed(Space(map[]), path, v).Some?
    decreases |path|
  {
    if |path| > 1 {
      PlacedFresh(path[1..], v);
    }
  }

  // -- the mutable workspace -----------------------------------------------------------

  datatype Member<V> = Val(value: Option<V>) | Sub(space: Workspace<V>)

  class Workspace<V> {
    var members: map<string, Member<V>>
    ghost var Repr: set<Workspace<V>>

    ghost predicate Valid()
      reads this, Repr
      ensures Valid() ==> this in Repr
      decreases Repr
    {
      this in Repr
      && (forall k :: k in members && members[k].Sub? ==>
            var w := members[k].space;
            w in Repr && w.Repr < Repr && this !in w.Repr && w.Valid())
      && (forall j, k :: j in members && k in members && j != k && members[j].Sub? && members[k].Sub? ==>
            members[j].space.Repr !! members[k].space.Repr)
    }

    ghost function Contents(): (s: Space<V>)
      requires Valid()
      reads this, Repr
      ensures s.Space?
      decreases Repr
    {
      Space(map k | k in members :: if members[k].Sub? then members[k].space.Contents() else Value(members[k].value))
    }

    constructor ()
      ensures Valid() && fresh(Repr) && Contents() == Space(map[])
    {
      members := map[];
      Repr := {this};
    }

    method SetValue(key: string, v: Option<V>)
      requires Valid()
      modifies this`members
      ensures Valid()
      ensures Contents() == Space(old(Contents()).members[key := Value(v)])
    {
      members := members[key := Val(v)];
    }

    lemma ValueOnTheWay(key: string)
      requires Valid()
      ensures OnTheWay(Contents().members, key).Value?
         <==> key in members && members[key].Val? && members[key].value.Some?
    {
      assert forall k :: k in members <==> k in Contents().members;
    }

    /** The workspace under a key, created when there is none. */
    method Child(key: string) returns (child: Workspace<V>)
      requires Valid() && OnTheWay(Contents().members, key).Space?
      modifies this
      ensures Valid() && fresh(Repr - old(Repr))
      ensures key in members && members[key] == Sub(child)
      ensures child.Contents() == OnTheWay(old(Contents()).members, key)
      ensures Contents() == Space(old(Contents()).members[key := child.Contents()])
    {
      ValueOnTheWay(key);
      assert forall k :: k in members <==> k in Contents().members;
      if key in members && members[key].Sub? {
        child := members[key].space;
      } else {
        child := NewChild(key);
      }
    }

    method NewChild(key: string) returns (child: Workspace<V>)
      requires Valid()
      modifies this
      ensures Valid() && fresh(Repr - old(Repr))
      ensures key in members && members[key] == Sub(child)
      ensures child.Contents() == Space(map[])
      ensures Contents() == Space(old(Contents()).members[key := child.Contents()])
    {
      child := new Workspace<V>();
      members := members[key := Sub(child)];
      Repr := Repr + child.Repr;
    }

    /** Put a value at a path, creating the workspaces on the way; refused when the way leads
        through another value, and then nothing of the contents has changed. */
    method Place(path: Path, v: Option<V>) returns (ok: bool)
      requires Valid() && path != []
      modifies Repr
      ensures Valid() && fresh(Repr - old(Repr))
      ensures ok <==> Placed(old(Contents()), path, v).Some?
      ensures Contents() == if ok then Placed(old(Contents()), path, v).value else old(Contents())
      decreases |path|, 0
    {
      PlacedStep(Contents(), path, v);
      ValueOnTheWay(path[0]);
      hide Placed, OnTheWay, Contents;
      if |path| == 1 {
        SetValue(path[0], v);
        return true;
      }
      if path[0] in members && members[path[0]].Val? && members[path[0]].value.Some? {
        return false;
      }
      var child := Child(path[0]);
      ok := PlaceBelow(path[0], child, path[1..], v);
    }

    method PlaceBelow(key: string, child: Workspace<V>, path: Path, v: Option<V>) returns (ok: bool)
      requires Valid() && key in members && members[key] == Sub(child) && path != []
      modifies Repr
      ensures Valid() && fresh(Repr - old(Repr))
      ensures ok <==> Placed(old(child.Contents()), path, v).Some?
      ensures var below := Placed(old(child.Contents()), path, v);
              Contents() == if ok then Space(old(Contents()).members[key := below.value]) else old(Contents())
      decreases |path|, 1
    {
      hide Placed;
      ghost var before := Contents().members;
      ok := child.Place(path, v);
      Repr := Repr + child.Repr;
      assert Contents() == Space(before[key := child.Contents()]);
      assert before[key := before[key]] == before;
    }
  }
}
