/** From library names to key paths: prefix, collect entries, collisions (bridge/_workspace.py). */
module Resolve {
  import opened Wrappers
  import opened Names

  type Path = seq<string>

  datatype Entry = Entry(name: string, nested: seq<Entry>)

  function JoinKeys(path: Path, glue: string): string {
    if path == [] then "" else if |path| == 1 then path[0] else path[0] + glue + JoinKeys(path[1..], glue)
  }

  datatype NameError = EmptyGlue | BadCase | Collision

  /** How names become paths; namecase yields None when the callable gives no usable key. */
  datatype Rules = Rules(glue: string, namecase: string -> Option<string>, prefix: Option<string>, collect: seq<Entry>)

  predicate IsWildcard(name: string) {
    name == "?" || name == "*"
  }

  /** The part of a name before the first glue, if there is a glue and the part is not empty. */
  function FirstPart(name: string, glue: string, i: nat): Option<string>
    requires i <= |name|
    decreases |name| - i
  {
    if glue <= name[i..] then (if i == 0 then None else Some(name[..i]))
    else if i == |name| then None
    else FirstPart(name, glue, i + 1)
  }

  /** The key a matching entry gives, and what is left of the name below it. */
  datatype Match = Match(key: string, rest: string, nested: seq<Entry>)

  function TryEntry(name: string, glue: string, namecase: string -> Option<string>,
      e: Entry): (r: Result<Option<Match>, NameError>)
    requires glue != ""
    ensures r.Ok? && r.value.Some? ==> |r.value.value.rest| < |name|
  {
    if IsWildcard(e.name) then
      match FirstPart(name, glue, 0)
      case None => Ok(None)
      case Some(first) =>
        match namecase(first)
        case None => Err(BadCase)
        case Some(key) => Ok(Under(name, first + glue, key, e.nested))
    else Ok(Under(name, e.name + glue, e.name, e.nested))
  }

  function Under(name: string, start: string, key: string, nested: seq<Entry>): (r: Option<Match>)
    requires start != ""
    ensures r.Some? ==> |r.value.rest| < |name|
  {
    if Upper(start) <= name && |name| > |start| then Some(Match(key, name[|start|..], nested)) else None
  }

  function FirstMatch(name: string, glue: string, namecase: string -> Option<string>,
      pending: seq<Entry>): (r: Result<Option<Match>, NameError>)
    requires glue != ""
    ensures r.Ok? && r.value.Some? ==> |r.value.value.rest| < |name|
  {
    if pending == [] then Ok(None)
    else
      var m :- TryEntry(name, glue, namecase, pending[0]);
      if m.Some? then Ok(m) else FirstMatch(name, glue, namecase, pending[1..])
  }

  function Descend(name: string, glue: string, namecase: string -> Option<string>,
      pending: seq<Entry>): (r: Result<Path, NameError>)
    requires glue != "" || pending == []
    ensures r.Ok? ==> r.value != []
    decreases |name|
  {
    var m :- if pending == [] then Ok(None) else FirstMatch(name, glue, namecase, pending);
    match m
    case None =>
      (match namecase(name)
       case None => Err(BadCase)
       case Some(key) => Ok([key]))
    case Some(hit) =>
      var below :- Descend(hit.rest, glue, namecase, hit.nested);
      Ok([hit.key] + below)
  }

  function WithoutPrefix(name: string, rules: Rules): string {
    if rules.prefix.Some? && Upper(rules.prefix.value + rules.glue) <= name
    then name[|rules.prefix.value + rules.glue|..]
    else name
  }

  function Destination(name: string, rules: Rules): (r: Result<Path, NameError>)
    ensures r.Ok? ==> r.value != []
  {
    if rules.collect != [] && rules.glue == "" then Err(EmptyGlue)
    else Descend(WithoutPrefix(name, rules), rules.glue, rules.namecase, rules.collect)
  }

  /** The source's loops: strip entry after entry until none of the pending ones matches. */
  method FindDestination(name: string, rules: Rules) returns (r: Result<Path, NameError>)
    ensures r == Destination(name, rules)
  {
    var left := WithoutPrefix(name, rules);
    if rules.collect != [] && rules.glue == "" {
      return Err(EmptyGlue);
    }
    var path: Path := [];
    var pending := rules.collect;
    ghost var all := Descend(left, rules.glue, rules.namecase, rules.collect);
    BelowNothing(all);
    while pending != []
      invariant rules.glue != "" || pending == []
      invariant all == Below(path, Descend(left, rules.glue, rules.namecase, pending))
      decreases |left|, |pending|
    {
      var i := 0;
      var found: Option<Match> := None;
      while i < |pending| && found.None?
        invariant 0 <= i <= |pending|
        invariant found.None? ==> FirstMatch(left, rules.glue, rules.namecase, pending)
                                  == FirstMatch(left, rules.glue, rules.namecase, pending[i..])
        invariant found.Some? ==> FirstMatch(left, rules.glue, rules.namecase, pending) == Ok(found)
        decreases |pending| - i, found.None?
      {
        var m := TryEntry(left, rules.glue, rules.namecase, pending[i]);
        assert pending[i..][0] == pending[i] && pending[i..][1..] == pending[i + 1..];
        if m.Err? {
          return Err(m.error);
        }
        found := m.value;
        i := i + 1;
      }
      if found.None? {
        assert pending[i..] == [];
        break;
      }
      var hit := found.value;
      BelowStep(path, hit.key, Descend(hit.rest, rules.glue, rules.namecase, hit.nested));
      path := path + [hit.key];
      left := hit.rest;
      pending := hit.nested;
    }
    var key := rules.namecase(left);
    if key.None? {
      return Err(BadCase);
    }
    return Ok(path + [key.value]);
  }

  function Below(path: Path, rest: Result<Path, NameError>): Result<Path, NameError> {
    match rest
    case Err(e) => Err(e)
    case Ok(more) => Ok(path + more)
  }

  lemma BelowNothing(rest: Result<Path, NameError>)
    ensures Below([], rest) == rest
  {
    if rest.Ok? {
      assert [] + rest.value == rest.value;
    }
  }

  lemma BelowStep(path: Path, key: string, rest: Result<Path, NameError>)
    ensures Below(path + [key], rest) == match rest case Err(e) => Err(e) case Ok(more) => Ok(path + ([key] + more))
  {
    if rest.Ok? {
      assert path + [key] + rest.value == path + ([key] + rest.value);
    }
  }

  // -- resolving a whole list ----------------------------------------------------------

  /** No path is another one or leads through it. */
  predicate PrefixFree(paths: seq<Path>) {
    forall i, j :: 0 <= i < |paths| && 0 <= j < |paths| && i != j ==> !(paths[i] <= paths[j])
  }

  ghost predicate AllResolve(names: seq<string>, rules: Rules) {
    forall i :: 0 <= i < |names| ==> Destination(names[i], rules).Ok?
  }

  ghost function Paths(names: seq<string>, rules: Rules): (r: seq<Path>)
    requires AllResolve(names, rules)
    ensures |r| == |names| && forall i :: 0 <= i < |r| ==> r[i] == Destination(names[i], rules).value
  {
    seq(|names|, i requires 0 <= i < |names| => Destination(names[i], rules).value)
  }

  method AddBranches(branches: set<Path>, key: Path) returns (r: set<Path>)
    ensures forall b :: b in r <==> b in branches || (1 <= |b| < |key| && b <= key)
  {
    r := branches;
    var depth := 1;
    while depth < |key|
      invariant 1 <= depth
      invariant forall b :: b in r <==> b in branches || (1 <= |b| < depth && |b| < |key| && b <= key)
    {
      assert forall b: Path :: b <= key && |b| == depth ==> b == key[..depth];
      r := r + {key[..depth]};
      depth := depth + 1;
    }
  }

  method AnyIsLeaf(branches: set<Path>, leaves: map<Path, string>) returns (hit: bool)
    ensures hit <==> exists b :: b in branches && b in leaves
  {
    var pending := branches;
    while pending != {}
      invariant pending <= branches
      invariant forall b :: b in branches && b !in pending ==> b !in leaves
      decreases |pending|
    {
      var branch :| branch in pending;
      if branch in leaves {
        return true;
      }
      pending := pending - {branch};
    }
    return false;
  }

  /** Every name gets its path, and a list is accepted exactly when no two paths get in each
      other's way. */
  method ResolveNames(names: seq<string>, rules: Rules) returns (r: Result<seq<Path>, NameError>)
    ensures r.Ok? <==> AllResolve(names, rules) && PrefixFree(Paths(names, rules))
    ensures r.Ok? ==> r.value == Paths(names, rules)
  {
    hide Destination;
    hide PrefixFree;
    hide ProperPrefixOfOne;
    hide AllDifferent;
    var resolved: seq<Path> := [];
    var leaves: map<Path, string> := map[];
    var branches: set<Path> := {};
    var k := 0;
    NoPrefixes();
    while k < |names|
      invariant 0 <= k <= |names| && |resolved| == k
      invariant forall i :: 0 <= i < k ==> resolved[i] != []
      invariant forall i :: 0 <= i < k ==> Destination(names[i], rules) == Ok(resolved[i])
      invariant forall p :: p in leaves <==> p in resolved
      invariant AllDifferent(resolved)
      invariant forall b :: b in branches <==> ProperPrefixOfOne(b, resolved)
    {
      var d := FindDestination(names[k], rules);
      if d.Err? {
        return Err(d.error);
      }
      var key := d.value;
      if key in leaves {
        SamePathTwice(names, rules, resolved, k);
        return Err(Collision);
      }
      branches := AddBranches(branches, key);
      leaves := leaves[key := names[k]];
      PrefixesGrow(resolved, key);
      DifferentGrow(resolved, key);
      resolved := resolved + [key];
      k := k + 1;
    }
    assert Paths(names, rules) == resolved;
    var hit := AnyIsLeaf(branches, leaves);
    BranchesAgainstLeaves(resolved, branches);
    return if hit then Err(Collision) else Ok(resolved);
  }

  ghost predicate AllDifferent(paths: seq<Path>) {
    forall i, j :: 0 <= i < j < |paths| ==> paths[i] != paths[j]
  }

  lemma DifferentGrow(paths: seq<Path>, key: Path)
    requires AllDifferent(paths) && key !in paths
    ensures AllDifferent(paths + [key])
  {
  }

  lemma NoPrefixes()
    ensures AllDifferent([]) && forall b :: !ProperPrefixOfOne(b, [])
  {
  }

  lemma SamePathTwice(names: seq<string>, rules: Rules, resolved: seq<Path>, k: nat)
    requires k < |names| && |resolved| == k && Destination(names[k], rules).Ok?
    requires forall i :: 0 <= i < k ==> Destination(names[i], rules) == Ok(resolved[i])
    requires Destination(names[k], rules).value in resolved
    ensures AllResolve(names, rules) ==> !PrefixFree(Paths(names, rules))
  {
    var i :| 0 <= i < k && resolved[i] == Destination(names[k], rules).value;
    if AllResolve(names, rules) {
      assert Paths(names, rules)[i] <= Paths(names, rules)[k];
    }
  }

  ghost predicate ProperPrefixOfOne(b: Path, paths: seq<Path>) {
    b != [] && exists i :: 0 <= i < |paths| && b <= paths[i] && |b| < |paths[i]|
  }

  lemma PrefixesGrow(paths: seq<Path>, key: Path)
    ensures forall b :: ProperPrefixOfOne(b, paths + [key])
                   <==> ProperPrefixOfOne(b, paths) || (1 <= |b| < |key| && b <= key)
  {
    var all := paths + [key];
    forall b
      ensures ProperPrefixOfOne(b, all) <==> ProperPrefixOfOne(b, paths) || (1 <= |b| < |key| && b <= key)
    {
      if ProperPrefixOfOne(b, paths) {
        var i :| 0 <= i < |paths| && b <= paths[i] && |b| < |paths[i]|;
        assert all[i] == paths[i];
      }
      if 1 <= |b| < |key| && b <= key {
        assert all[|paths|] == key;
      }
    }
  }

  lemma PrefixOfSameLength(a: Path, b: Path)
    ensures a <= b && |a| == |b| ==> a == b
  {
  }

  /** Distinct paths are prefix-free exactly when no proper prefix of one is another. */
  lemma BranchesAgainstLeaves(paths: seq<Path>, branches: set<Path>)
    requires AllDifferent(paths)
    requires forall b :: b in branches <==> ProperPrefixOfOne(b, paths)
    requires forall i :: 0 <= i < |paths| ==> paths[i] != []
    ensures PrefixFree(paths) <==> !exists b :: b in branches && b in paths
  {
    if b :| b in branches && b in paths {
      var i :| 0 <= i < |paths| && paths[i] == b;
      var j :| 0 <= j < |paths| && b <= paths[j] && |b| < |paths[j]|;
      assert paths[i] <= paths[j] && i != j;
    }
    forall i, j | 0 <= i < |paths| && 0 <= j < |paths| && i != j
      ensures paths[i] <= paths[j] ==> paths[i] in branches
    {
      PrefixOfSameLength(paths[i], paths[j]);
      assert paths[i] <= paths[j] ==> ProperPrefixOfOne(paths[i], paths);
    }
  }
}
