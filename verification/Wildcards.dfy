/** What the entries of a collect specification, wildcards among them, make of a library name
    (bridge/_workspace.py). */
module Wildcards {
  import opened Wrappers
  import opened Names
  import opened Resolve

  /** A part of the name, not empty, up to the first glue in it. */
  predicate FirstCut(name: string, glue: string, part: string) {
    part != "" && part + glue <= name && forall i :: 0 <= i < |part| ==> !(glue <= name[i..])
  }

  lemma {:induction false} FirstPartIs(name: string, glue: string, i: nat, part: string)
    requires i <= |name| && glue != ""
    requires forall k :: 0 <= k < i ==> !(glue <= name[k..])
    ensures FirstPart(name, glue, i) == Some(part) <==> FirstCut(name, glue, part)
    decreases |name| - i
  {
    assert part + glue <= name ==> glue <= name[|part|..];
    if glue <= name[i..] {
      assert name == name[..i] + name[i..];
      assert name[i..] == glue + name[i..][|glue|..];
      assert name[..i] + glue <= name;
      if FirstCut(name, glue, part) {
        assert name[|part|..][..|glue|] == glue;
        assert |part| == i;
        assert part == name[..i];
      }
    } else if i < |name| {
      FirstPartIs(name, glue, i + 1, part);
    }
  }

  /** "?" and "*" take the name apart at its first glue: the key is what namecase makes of the part before it,
      which must not be empty, and what follows it, which must not be empty either, is left. */
  lemma WildcardTakesIff(name: string, glue: string, namecase: string -> Option<string>, e: Entry, key: string,
      rest: string)
    requires (e.name == "?" || e.name == "*") && glue != "" && Upper(name) == name
    ensures TryEntry(name, glue, namecase, e) == Ok(Some(Match(key, rest, e.nested)))
       <==> rest != "" && exists part :: FirstCut(name, glue, part) && namecase(part) == Some(key)
                                         && name == part + glue + rest
  {
    forall part ensures FirstPart(name, glue, 0) == Some(part) <==> FirstCut(name, glue, part) {
      FirstPartIs(name, glue, 0, part);
    }
    if FirstPart(name, glue, 0).Some? {
      var first := FirstPart(name, glue, 0).value;
      assert FirstCut(name, glue, first);
      PrefixIsUpper(first + glue, name);
      assert name == first + glue + name[|first + glue|..];
    }
    hide FirstPart;
  }

  lemma PrefixIsUpper(start: string, name: string)
    requires start <= name && Upper(name) == name
    ensures Upper(start) == start
  {
    forall i | 0 <= i < |start| ensures UpperChar(start[i]) == start[i] {
      assert Upper(name)[i] == name[i];
    }
  }

  /** A wildcard entry refuses exactly the names whose first part namecase gives no key, and passes exactly
      those without a first part or with nothing after it. */
  lemma WildcardRefusesIff(name: string, glue: string, namecase: string -> Option<string>, e: Entry)
    requires (e.name == "?" || e.name == "*") && glue != "" && Upper(name) == name
    ensures TryEntry(name, glue, namecase, e).Err?
       <==> exists part :: FirstCut(name, glue, part) && namecase(part) == None
    ensures TryEntry(name, glue, namecase, e) == Ok(None)
       <==> forall part :: FirstCut(name, glue, part) ==> namecase(part).Some? && name == part + glue
  {
    forall part ensures FirstPart(name, glue, 0) == Some(part) <==> FirstCut(name, glue, part) {
      FirstPartIs(name, glue, 0, part);
    }
    if FirstPart(name, glue, 0).Some? {
      var first := FirstPart(name, glue, 0).value;
      assert FirstCut(name, glue, first);
      PrefixIsUpper(first + glue, name);
    }
    hide FirstPart;
  }

  /** Any other entry takes its own name and the glue, upper-cased, off a longer name, and gives its own name
      as the key. */
  lemma NamedTakesIff(name: string, glue: string, namecase: string -> Option<string>, e: Entry, m: Match)
    requires e.name != "?" && e.name != "*" && glue != ""
    ensures TryEntry(name, glue, namecase, e) == Ok(Some(m))
       <==> m.key == e.name && m.nested == e.nested && m.rest != "" && name == Upper(e.name + glue) + m.rest
    ensures TryEntry(name, glue, namecase, e).Ok?
  {
    var start := Upper(e.name + glue);
    if start <= name {
      assert name == start + name[|start|..];
    }
  }

  /** The first entry that takes or refuses the name decides. */
  lemma {:induction false} FirstMatchDecides(name: string, glue: string, namecase: string -> Option<string>,
      pending: seq<Entry>, r: Result<Option<Match>, NameError>)
    requires glue != "" && r != Ok(None)
    ensures FirstMatch(name, glue, namecase, pending) == r
       <==> exists k :: 0 <= k < |pending| && TryEntry(name, glue, namecase, pending[k]) == r
                        && forall j :: 0 <= j < k ==> TryEntry(name, glue, namecase, pending[j]) == Ok(None)
    decreases |pending|
  {
    hide TryEntry;
    if pending != [] {
      FirstMatchDecides(name, glue, namecase, pending[1..], r);
      assert forall j :: 0 < j < |pending| ==> pending[j] == pending[1..][j - 1];
      var first := TryEntry(name, glue, namecase, pending[0]);
      if first == Ok(None) {
        if k :| 0 <= k < |pending| - 1 && TryEntry(name, glue, namecase, pending[1..][k]) == r
                && forall j :: 0 <= j < k ==> TryEntry(name, glue, namecase, pending[1..][j]) == Ok(None) {
          assert TryEntry(name, glue, namecase, pending[k + 1]) == r;
        }
        if k :| 0 <= k < |pending| && TryEntry(name, glue, namecase, pending[k]) == r
                && forall j :: 0 <= j < k ==> TryEntry(name, glue, namecase, pending[j]) == Ok(None) {
          assert TryEntry(name, glue, namecase, pending[1..][k - 1]) == r;
        }
      }
    }
  }

  /** What a path says about its name: keys are the parts the glue joins, given by entries, the last one by
      namecase. */
  ghost predicate KeysOf(parts: Path, path: Path, namecase: string -> Option<string>) {
    |parts| == |path| && path != []
    && namecase(parts[|parts| - 1]) == Some(path[|path| - 1])
    && forall i :: 0 <= i < |path| - 1 ==>
         parts[i] != "" && (namecase(parts[i]) == Some(path[i]) || parts[i] == Upper(path[i]))
  }

  /** Every path takes its name apart: upper-cased glue joins the parts its keys come from. */
  lemma {:induction false} PathTakesApart(name: string, glue: string, namecase: string -> Option<string>,
      pending: seq<Entry>) returns (parts: Path)
    requires glue != "" && Upper(name) == name && Descend(name, glue, namecase, pending).Ok?
    requires AllNamed(pending)
    ensures KeysOf(parts, Descend(name, glue, namecase, pending).value, namecase)
    ensures JoinKeys(parts, Upper(glue)) == name
    decreases |name|
  {
    var m := FirstMatch(name, glue, namecase, pending);
    if pending == [] || m == Ok(None) {
      parts := [name];
    } else {
      var hit := m.value.value;
      var part := MatchTakes(name, glue, namecase, pending, hit);
      var below := PathTakesApart(hit.rest, glue, namecase, hit.nested);
      parts := [part] + below;
      assert parts[1..] == below;
      assert forall i :: 0 < i < |parts| ==> parts[i] == below[i - 1];
    }
  }

  ghost predicate AllNamed(entries: seq<Entry>) {
    forall e :: e in entries ==> e.name != "" && AllNamed(e.nested)
  }

  lemma MatchTakes(name: string, glue: string, namecase: string -> Option<string>, pending: seq<Entry>, m: Match)
    returns (part: string)
    requires glue != "" && Upper(name) == name && AllNamed(pending)
    requires FirstMatch(name, glue, namecase, pending) == Ok(Some(m))
    ensures part != "" && name == part + Upper(glue) + m.rest && Upper(m.rest) == m.rest && AllNamed(m.nested)
    ensures namecase(part) == Some(m.key) || part == Upper(m.key)
  {
    FirstMatchDecides(name, glue, namecase, pending, Ok(Some(m)));
    var k :| 0 <= k < |pending| && TryEntry(name, glue, namecase, pending[k]) == Ok(Some(m));
    var e := pending[k];
    if e.name == "?" || e.name == "*" {
      WildcardTakesIff(name, glue, namecase, e, m.key, m.rest);
      part :| FirstCut(name, glue, part) && namecase(part) == Some(m.key) && name == part + glue + m.rest;
      SplitIsUpper(part, glue, m.rest);
    } else {
      NamedTakesIff(name, glue, namecase, e, m);
      UpperConcat(e.name, glue);
      part := Upper(e.name);
      SplitIsUpper(part, Upper(glue), m.rest);
    }
  }

  lemma SplitIsUpper(part: string, glue: string, rest: string)
    requires Upper(part + glue + rest) == part + glue + rest
    ensures Upper(part) == part && Upper(glue) == glue && Upper(rest) == rest
  {
    var all := part + glue + rest;
    assert forall i :: 0 <= i < |part| ==> all[i] == part[i];
    assert forall i :: 0 <= i < |glue| ==> all[|part| + i] == glue[i];
    assert forall i :: 0 <= i < |rest| ==> all[|part| + |glue| + i] == rest[i];
    forall k | 0 <= k < |all| ensures UpperChar(all[k]) == all[k] {
      assert Upper(all)[k] == all[k];
    }
  }

  /** Only a specification with entries needs glue, and that is the only way to be refused for it. */
  lemma GlueNeededIff(name: string, rules: Rules)
    ensures Destination(name, rules) == Err(EmptyGlue) <==> rules.collect != [] && rules.glue == ""
  {
    if rules.collect == [] || rules.glue != "" {
      NeverEmptyGlue(WithoutPrefix(name, rules), rules.glue, rules.namecase, rules.collect);
    }
  }

  lemma {:induction false} NeverEmptyGlue(name: string, glue: string, namecase: string -> Option<string>,
      pending: seq<Entry>)
    requires glue != "" || pending == []
    ensures Descend(name, glue, namecase, pending) != Err(EmptyGlue)
    decreases |name|
  {
    if pending != [] {
      MatchErrors(name, glue, namecase, pending);
      var m := FirstMatch(name, glue, namecase, pending);
      if m.Ok? && m.value.Some? {
        NeverEmptyGlue(m.value.value.rest, glue, namecase, m.value.value.nested);
      }
    }
  }

  lemma {:induction false} MatchErrors(name: string, glue: string, namecase: string -> Option<string>,
      pending: seq<Entry>)
    requires glue != ""
    ensures FirstMatch(name, glue, namecase, pending).Err? ==>
            FirstMatch(name, glue, namecase, pending) == Err(BadCase)
    decreases |pending|
  {
    if pending != [] {
      MatchErrors(name, glue, namecase, pending[1..]);
    }
  }

  /** The prefix and the glue after it, upper-cased, are taken off the names that start with them; other names
      are left as they are. */
  lemma PrefixTakenIff(name: string, rules: Rules, rest: string)
    ensures rules.prefix.Some? && name == Upper(rules.prefix.value + rules.glue) + rest ==>
            WithoutPrefix(name, rules) == rest
    ensures rules.prefix.None? || !(Upper(rules.prefix.value + rules.glue) <= name) ==>
            WithoutPrefix(name, rules) == name
  {
    if rules.prefix.Some? {
      var start := Upper(rules.prefix.value + rules.glue);
      assert start <= start + rest && (start + rest)[|start|..] == rest;
    }
  }
}
