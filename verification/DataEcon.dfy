/** The DataEcon file as migrations use it: objects by path, each with a payload and text attributes. */
module DataEcon {
  import opened Wrappers
  import opened Frequencies

  datatype Dtype = Float64 | Float32 | Bool8 | Int64 | Int8 | OtherType

  datatype ObjectClass = ScalarClass | ArrayClass | SeriesClass | CatalogClass

  /** What an object stores; floats are bit patterns, Booleans 0 or not, dates moment codes. */
  datatype Payload =
    | WordScalar(dtype: Dtype, word: int)
    | MomentScalar(moment: Moment)
    | TextScalar(text: string)
    | TextArray(texts: seq<string>)
    | WordArray(dtype: Dtype, words: seq<int>)
    | WordSeries(first: Moment, dtype: Dtype, words: seq<int>)
    | DateSeries(first: Moment, elements: Frequency, words: seq<int>)
    | OtherSeries(first: Moment)
    | Catalog
  {
    function Class(): ObjectClass {
      if WordScalar? || MomentScalar? || TextScalar? then ScalarClass
      else if TextArray? || WordArray? then ArrayClass
      else if Catalog? then CatalogClass
      else SeriesClass
    }
  }

  /** The attribute names of the layout; any other name after the layout's prefix is undefined. */
  datatype Key =
    | LayoutKey | StatusKey | PlannedKey | WrittenKey
    | KindKey | MissingKey | ValueFrequencyKey | RepresentationKey | FrequencyKey | MaskKey | FirstdateKey | EmptyKey
    | UndefinedKey(name: string)

  type Attributes = map<Key, string>

  datatype Node = Node(payload: Payload, attributes: Attributes)

  type Store = map<string, Node>

  // -- primitive calls -----------------------------------------------------------------------------

  datatype Call = Create(path: string, payload: Payload) | Describe(path: string, key: Key, text: string)

  /** Nothing is ever replaced, and only a stored object can be described. */
  predicate Allowed(store: Store, call: Call) {
    match call
    case Create(path, _) => path !in store
    case Describe(path, _, _) => path in store
  }

  function Done(store: Store, call: Call): Store
    requires Allowed(store, call)
  {
    match call
    case Create(path, payload) => store[path := Node(payload, map[])]
    case Describe(path, key, text) => store[path := store[path].(attributes := store[path].attributes[key := text])]
  }

  /** Calls run until one is refused or, after `limit` calls, the file fails. */
  function Run(store: Store, calls: seq<Call>, limit: nat): (Store, bool)
    decreases |calls|
  {
    if calls == [] then (store, true)
    else if limit == 0 || !Allowed(store, calls[0]) then (store, false)
    else Run(Done(store, calls[0]), calls[1..], limit - 1)
  }

  predicate Within(calls: seq<Call>, paths: set<string>) {
    forall i :: 0 <= i < |calls| ==> calls[i].path in paths
  }

  predicate SameAt(a: Store, b: Store, path: string) {
    (path in a <==> path in b) && (path in a ==> a[path] == b[path])
  }

  /** However far they got, calls leave every other path as it was. */
  lemma {:induction false} RunLeavesOthers(store: Store, calls: seq<Call>, limit: nat, paths: set<string>, path: string)
    requires Within(calls, paths) && path !in paths
    ensures SameAt(store, Run(store, calls, limit).0, path)
    decreases |calls|
  {
    if calls != [] && limit > 0 && Allowed(store, calls[0]) {
      RunLeavesOthers(Done(store, calls[0]), calls[1..], limit - 1, paths, path);
    }
  }

  lemma {:induction false} RunFirst(store: Store, call: Call, rest: seq<Call>, limit: nat)
    ensures Run(store, [call] + rest, limit)
         == if limit == 0 || !Allowed(store, call) then (store, false) else Run(Done(store, call), rest, limit - 1)
  {
    assert ([call] + rest)[1..] == rest;
  }

  // -- attributes of one object --------------------------------------------------------------------

  datatype Note = Note(key: Key, text: string)

  function Notes(path: string, notes: seq<Note>): (r: seq<Call>)
    ensures |r| == |notes| && forall i :: 0 <= i < |r| ==> r[i] == Describe(path, notes[i].key, notes[i].text)
  {
    seq(|notes|, i requires 0 <= i < |notes| => Describe(path, notes[i].key, notes[i].text))
  }

  /** The attributes after notes are added one by one; a later note of one key replaces an earlier one. */
  function Annotated(attributes: Attributes, notes: seq<Note>): Attributes
    decreases |notes|
  {
    if notes == [] then attributes else Annotated(attributes[notes[0].key := notes[0].text], notes[1..])
  }

  lemma {:induction false} NotesAnnotate(store: Store, path: string, notes: seq<Note>, limit: nat)
    requires path in store
    ensures var (after, ok) := Run(store, Notes(path, notes), limit);
            ok ==> after == store[path := store[path].(attributes := Annotated(store[path].attributes, notes))]
    ensures Run(store, Notes(path, notes), limit).1 <==> limit >= |notes|
    decreases |notes|
  {
    if notes == [] {
      assert store == store[path := store[path]];
    } else {
      var call := Describe(path, notes[0].key, notes[0].text);
      assert Notes(path, notes) == [call] + Notes(path, notes[1..]);
      RunFirst(store, call, Notes(path, notes[1..]), limit);
      if limit > 0 {
        NotesAnnotate(Done(store, call), path, notes[1..], limit - 1);
      }
    }
  }

  // -- the open file -------------------------------------------------------------------------------

  class File {
    var nodes: Store
    /** How many more calls succeed before the file fails. */
    var credit: nat

    method Perform(call: Call) returns (ok: bool)
      modifies this
      ensures ok == (old(credit) > 0 && Allowed(old(nodes), call))
      ensures if ok then nodes == Done(old(nodes), call) && credit == old(credit) - 1
              else nodes == old(nodes) && credit == old(credit)
    {
      ok := credit > 0 && Allowed(nodes, call);
      if ok {
        nodes := Done(nodes, call);
        credit := credit - 1;
      }
    }

    method SetAttributes(path: string, notes: seq<Note>) returns (ok: bool)
      modifies this
      ensures (nodes, ok) == Run(old(nodes), Notes(path, notes), old(credit))
    {
      ok := true;
      for i := 0 to |notes|
        invariant ok && Run(nodes, Notes(path, notes[i..]), credit) == Run(old(nodes), Notes(path, notes), old(credit))
      {
        var call := Describe(path, notes[i].key, notes[i].text);
        assert Notes(path, notes[i..]) == [call] + Notes(path, notes[i + 1..]);
        RunFirst(nodes, call, Notes(path, notes[i + 1..]), credit);
        ok := Perform(call);
        if !ok {
          return;
        }
      }
      assert notes[|notes|..] == [];
    }
  }
}
