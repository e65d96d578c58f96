/** Listing filters: the ITEM options, the native narrowing and the metadata filter (_wildcard.py). */
module Selection {
  import opened Wrappers
  import opened Carriers

  const SERIES := 1
  const SCALAR := 2
  const DATE := 6

  /** One listed object's metadata; class and type are the library's codes. */
  datatype Object = Object(name: string, classCode: int, typeCode: int, frequency: int, first: int, last: int)

  datatype Family =
    | Annual | Bimonthly | Biweekly | Business | Daily | Hourly | Millisecondly | Minutely | Monthly | Ppy | Quarterly
    | Secondly | Semiannual | Tenday | Twicemonthly | Userdefined | Weekly | Ypp

  /** The families in the order of their names. */
  const FAMILIES: seq<Family> :=
    [Annual, Bimonthly, Biweekly, Business, Daily, Hourly, Millisecondly, Minutely, Monthly, Ppy, Quarterly,
     Secondly, Semiannual, Tenday, Twicemonthly, Userdefined, Weekly, Ypp]

  /** The family that selects a date-indexed frequency; case series and scalars have none. */
  function FamilyOf(code: int): Option<Family> {
    if code == 8 then Some(Daily)
    else if code == 9 then Some(Business)
    else if 16 <= code <= 22 then Some(Weekly)
    else if code == 32 then Some(Tenday)
    else if 64 <= code <= 77 then Some(Biweekly)
    else if code == 128 then Some(Twicemonthly)
    else if code == 129 then Some(Monthly)
    else if 144 <= code <= 145 then Some(Bimonthly)
    else if 160 <= code <= 162 then Some(Quarterly)
    else if 192 <= code <= 203 then Some(Annual)
    else if 204 <= code <= 209 then Some(Semiannual)
    else if code == 224 then Some(Ypp)
    else if code == 225 then Some(Ppy)
    else if code == 226 then Some(Secondly)
    else if code == 227 then Some(Minutely)
    else if code == 228 then Some(Hourly)
    else if code == 229 then Some(Millisecondly)
    else if code == 233 then Some(Userdefined)
    else None
  }

  // -- the library's options -----------------------------------------------------------------------

  datatype Item = ItemClass | ItemType | ItemFrequency | ItemIndex | ItemAlias

  datatype Word = ClassWord(code: int) | TypeWord(code: int) | FamilyWord(family: Family) | CaseIndex | DateIndex

  datatype OptionName = Whole(item: Item) | Part(item: Item, word: Word)

  type Options = map<OptionName, bool>

  /** Setting an option itself clears its per-value selections. */
  function SetOption(o: Options, name: OptionName, on: bool): Options {
    (match name
     case Whole(item) => map n | n in o && !(n.Part? && n.item == item) :: o[n]
     case Part(_, _) => o)[name := on]
  }

  predicate IsOn(o: Options, name: OptionName, default: bool) {
    if name in o then o[name] else default
  }

  predicate Allows(o: Options, item: Item, word: Word) {
    IsOn(o, Whole(item), true) || IsOn(o, Part(item, word), false)
  }

  function TypeLabel(typeCode: int): Word {
    TypeWord(if typeCode >= 8 then DATE else typeCode)
  }

  /** The library's own selection: by class and type, and for series by index and family. */
  predicate Selects(o: Options, obj: Object) {
    Allows(o, ItemClass, ClassWord(obj.classCode)) && Allows(o, ItemType, TypeLabel(obj.typeCode))
    && if obj.classCode != SERIES then true
       else if obj.frequency == CASE_CODE then Allows(o, ItemIndex, CaseIndex)
       else Allows(o, ItemIndex, DateIndex)
            && (FamilyOf(obj.frequency).None? || Allows(o, ItemFrequency, FamilyWord(FamilyOf(obj.frequency).value)))
  }

  // -- the filters of one listing --------------------------------------------------------------------

  datatype Filters = Filters(classes: seq<Word>, types: seq<Word>, families: seq<Word>, indexes: seq<Word>)

  /** Exact codes for the metadata filter; an empty request is no filter, an unknown value is refused. */
  method FrequencyFilter(parts: Option<seq<Option<int>>>) returns (r: Option<Option<set<int>>>)
    ensures parts.None? ==> r == Some(None)
    ensures parts.Some? ==> (r.None? <==> exists i :: 0 <= i < |parts.value| && parts.value[i].None?)
    ensures parts.Some? && r.Some? ==> (r.value.None? <==> parts.value == [])
    ensures parts.Some? && r.Some? && r.value.Some? ==>
              forall code :: code in r.value.value <==> Some(code) in parts.value
  {
    if parts.None? {
      return Some(None);
    }
    var codes: set<int> := {};
    for i := 0 to |parts.value|
      invariant forall code :: code in codes <==> Some(code) in parts.value[..i]
      invariant forall j :: 0 <= j < i ==> parts.value[j].Some?
      invariant codes == {} <==> i == 0
    {
      if parts.value[i].None? {
        return None;
      }
      codes := codes + {parts.value[i].value};
      assert parts.value[..i + 1] == parts.value[..i] + [parts.value[i]];
    }
    assert parts.value[..|parts.value|] == parts.value;
    r := Some(if codes == {} then None else Some(codes));
  }

  predicate Wants(codes: set<int>, family: Family) {
    exists code :: code in codes && FamilyOf(code) == Some(family)
  }

  function FamilyWords(codes: set<int>, families: seq<Family>): (r: seq<Word>)
    ensures forall w :: w in r <==> w.FamilyWord? && w.family in families && Wants(codes, w.family)
  {
    if families == [] then []
    else (if Wants(codes, families[0]) then [FamilyWord(families[0])] else []) + FamilyWords(codes, families[1..])
  }

  predicate AllDateIndexed(codes: set<int>) {
    forall code :: code in codes ==> FamilyOf(code).Some?
  }

  /** The words that narrow the native selection for a code set: family words when every code has a
      family, the case word for case alone, nothing otherwise. */
  function NativeSelectors(wanted: Option<set<int>>): (seq<Word>, seq<Word>) {
    if wanted.None? || wanted.value == {} then ([], [])
    else if AllDateIndexed(wanted.value) then (FamilyWords(wanted.value, FAMILIES), [])
    else if wanted.value == {CASE_CODE} then ([], [CaseIndex])
    else ([], [])
  }

  function FiltersFor(classes: seq<Word>, types: seq<Word>, wanted: Option<set<int>>): Filters {
    var selectors := NativeSelectors(wanted);
    Filters(classes, types, selectors.0, selectors.1)
  }

  // -- setting the options ---------------------------------------------------------------------------

  function TurnOn(o: Options, item: Item, words: seq<Word>): Options
    decreases |words|
  {
    if words == [] then o else TurnOn(SetOption(o, Part(item, words[0]), true), item, words[1..])
  }

  function Choose(o: Options, item: Item, words: seq<Word>): Options {
    if words == [] then SetOption(o, Whole(item), true) else TurnOn(SetOption(o, Whole(item), false), item, words)
  }

  /** The options after a listing has set its filters, from any prior state. */
  function Chosen(o: Options, alias: bool, f: Filters): Options {
    var aliased := SetOption(o, Whole(ItemAlias), alias);
    var classed := Choose(aliased, ItemClass, f.classes);
    var typed := Choose(classed, ItemType, f.types);
    var familied := Choose(typed, ItemFrequency, f.families);
    Choose(familied, ItemIndex, f.indexes)
  }

  lemma {:induction false} TurnedOn(o: Options, item: Item, words: seq<Word>, other: Item, word: Word)
    ensures var after := TurnOn(o, item, words);
            IsOn(after, Whole(other), true) == IsOn(o, Whole(other), true)
            && IsOn(after, Part(other, word), false)
               == (IsOn(o, Part(other, word), false) || (other == item && word in words))
    decreases |words|
  {
    if words != [] {
      TurnedOn(SetOption(o, Part(item, words[0]), true), item, words[1..], other, word);
    }
  }

  lemma ChoiceAllows(o: Options, item: Item, words: seq<Word>, other: Item, word: Word)
    ensures Allows(Choose(o, item, words), other, word)
         == if other == item then words == [] || word in words else Allows(o, other, word)
  {
    if words != [] {
      TurnedOn(SetOption(o, Whole(item), false), item, words, other, word);
    }
  }

  predicate Permits(words: seq<Word>, word: Word) {
    words == [] || word in words
  }

  /** What a filter set selects, whatever the options were before. */
  predicate Admits(f: Filters, obj: Object) {
    Permits(f.classes, ClassWord(obj.classCode)) && Permits(f.types, TypeLabel(obj.typeCode))
    && if obj.classCode != SERIES then true
       else if obj.frequency == CASE_CODE then Permits(f.indexes, CaseIndex)
       else Permits(f.indexes, DateIndex)
            && (FamilyOf(obj.frequency).None? || Permits(f.families, FamilyWord(FamilyOf(obj.frequency).value)))
  }

  lemma ChosenAllows(o: Options, alias: bool, f: Filters, item: Item, word: Word)
    requires item != ItemAlias
    ensures Allows(Chosen(o, alias, f), item, word)
         == Permits(match item
                    case ItemClass => f.classes
                    case ItemType => f.types
                    case ItemFrequency => f.families
                    case _ => f.indexes,
                    word)
  {
    hide Choose, Allows;
    var aliased := SetOption(o, Whole(ItemAlias), alias);
    var classed := Choose(aliased, ItemClass, f.classes);
    var typed := Choose(classed, ItemType, f.types);
    var familied := Choose(typed, ItemFrequency, f.families);
    ChoiceAllows(aliased, ItemClass, f.classes, item, word);
    ChoiceAllows(classed, ItemType, f.types, item, word);
    ChoiceAllows(typed, ItemFrequency, f.families, item, word);
    ChoiceAllows(familied, ItemIndex, f.indexes, item, word);
  }

  /** The prior option state never matters. */
  lemma PriorStateIrrelevant(o: Options, alias: bool, f: Filters, obj: Object)
    ensures Selects(Chosen(o, alias, f), obj) == Admits(f, obj)
  {
    hide Chosen, Allows, Permits, FamilyOf;
    ChosenAllows(o, alias, f, ItemClass, ClassWord(obj.classCode));
    ChosenAllows(o, alias, f, ItemType, TypeLabel(obj.typeCode));
    ChosenAllows(o, alias, f, ItemIndex, CaseIndex);
    ChosenAllows(o, alias, f, ItemIndex, DateIndex);
    if FamilyOf(obj.frequency).Some? {
      ChosenAllows(o, alias, f, ItemFrequency, FamilyWord(FamilyOf(obj.frequency).value));
    }
  }

  // -- the narrowing refines the metadata filter -------------------------------------------------------

  predicate Requested(wanted: Option<set<int>>, obj: Object) {
    wanted.None? || obj.frequency in wanted.value
  }

  /** Narrowing only removes objects, and never a requested one. */
  lemma NarrowingIsSafe(classes: seq<Word>, types: seq<Word>, wanted: Option<set<int>>, obj: Object)
    ensures Admits(FiltersFor(classes, types, wanted), obj) ==> Admits(FiltersFor(classes, types, None), obj)
    ensures Admits(FiltersFor(classes, types, None), obj) && Requested(wanted, obj) ==>
            Admits(FiltersFor(classes, types, wanted), obj)
  {
    if wanted.Some? && wanted.value != {} && Requested(wanted, obj) && FamilyOf(obj.frequency).Some? {
      var family := FamilyOf(obj.frequency).value;
      assert Wants(wanted.value, family);
      AllListed(family);
    }
    hide FamilyOf;
  }

  lemma AllListed(family: Family)
    ensures family in FAMILIES
  {
    var at := match family
      case Annual => 0 case Bimonthly => 1 case Biweekly => 2 case Business => 3 case Daily => 4 case Hourly => 5
      case Millisecondly => 6 case Minutely => 7 case Monthly => 8 case Ppy => 9 case Quarterly => 10
      case Secondly => 11 case Semiannual => 12 case Tenday => 13 case Twicemonthly => 14 case Userdefined => 15
      case Weekly => 16 case Ypp => 17;
    assert FAMILIES[at] == family;
  }

  /** The cursor loop over the natively selected objects: too long a name stops it. */
  function Listing(objects: seq<Object>, f: Filters, wanted: Option<set<int>>, capacity: nat): Result<seq<Object>, nat>
    decreases |objects|
  {
    if objects == [] then Ok([])
    else if !Admits(f, objects[0]) then Listing(objects[1..], f, wanted, capacity)
    else if |objects[0].name| > capacity then Err(|objects[0].name|)
    else
      var rest :- Listing(objects[1..], f, wanted, capacity);
      Ok((if Requested(wanted, objects[0]) then [objects[0]] else []) + rest)
  }

  function OnlyRequested(objects: seq<Object>, wanted: Option<set<int>>): seq<Object>
    decreases |objects|
  {
    if objects == [] then []
    else (if Requested(wanted, objects[0]) then [objects[0]] else []) + OnlyRequested(objects[1..], wanted)
  }

  predicate NamesFit(objects: seq<Object>, f: Filters, capacity: nat) {
    forall i :: 0 <= i < |objects| && Admits(f, objects[i]) ==> |objects[i].name| <= capacity
  }

  lemma {:induction false} SucceedsWhenNamesFit(objects: seq<Object>, f: Filters, wanted: Option<set<int>>,
      capacity: nat)
    ensures Listing(objects, f, wanted, capacity).Ok? <==> NamesFit(objects, f, capacity)
    decreases |objects|
  {
    hide Admits;
    if objects != [] {
      SucceedsWhenNamesFit(objects[1..], f, wanted, capacity);
      assert forall i :: 1 <= i < |objects| ==> objects[i] == objects[1..][i - 1];
    }
  }

  /** When the un-narrowed listing succeeds, the narrowed one returns exactly its requested objects. */
  lemma {:induction false} NarrowedIsFiltered(objects: seq<Object>, classes: seq<Word>, types: seq<Word>,
      wanted: Option<set<int>>, capacity: nat)
    requires Listing(objects, FiltersFor(classes, types, None), None, capacity).Ok?
    ensures var broad := Listing(objects, FiltersFor(classes, types, None), None, capacity);
            Listing(objects, FiltersFor(classes, types, wanted), wanted, capacity)
                == Ok(OnlyRequested(broad.value, wanted))
    decreases |objects|
  {
    hide Admits, FiltersFor;
    if objects != [] {
      NarrowedIsFiltered(objects[1..], classes, types, wanted, capacity);
      NarrowingIsSafe(classes, types, wanted, objects[0]);
      var rest := Listing(objects[1..], FiltersFor(classes, types, None), None, capacity).value;
      assert ([objects[0]] + rest)[1..] == rest;
      assert [] + OnlyRequested(rest, wanted) == OnlyRequested(rest, wanted);
    }
  }

  /** The object is of a requested class and type and has a requested frequency. */
  predicate Matches(obj: Object, classes: seq<Word>, types: seq<Word>, wanted: Option<set<int>>) {
    (classes == [] || ClassWord(obj.classCode) in classes)
    && (types == [] || TypeWord(if obj.typeCode >= 8 then DATE else obj.typeCode) in types)
    && (wanted.Some? ==> obj.frequency in wanted.value)
  }

  /** From position `from` on, the result holds exactly the objects at the ascending positions where one
      matches. */
  ghost predicate HoldsMatches(objects: seq<Object>, from: nat, classes: seq<Word>, types: seq<Word>,
      wanted: Option<set<int>>, result: seq<Object>, picks: seq<nat>)
  {
    |picks| == |result|
    && (forall i, j :: 0 <= i < j < |picks| ==> picks[i] < picks[j])
    && (forall i :: 0 <= i < |picks| ==> from <= picks[i] < |objects| && result[i] == objects[picks[i]])
    && forall k: nat :: from <= k < |objects| ==> (k in picks <==> Matches(objects[k], classes, types, wanted))
  }

  lemma MatchesIff(obj: Object, classes: seq<Word>, types: seq<Word>, wanted: Option<set<int>>)
    ensures Matches(obj, classes, types, wanted)
       <==> Admits(FiltersFor(classes, types, wanted), obj) && Requested(wanted, obj)
  {
    NarrowingIsSafe(classes, types, wanted, obj);
    hide FamilyOf, FamilyWords;
    assert NativeSelectors(None) == ([], []);
  }

  lemma HoldsOneMore(objects: seq<Object>, from: nat, classes: seq<Word>, types: seq<Word>, wanted: Option<set<int>>,
      result: seq<Object>, picks: seq<nat>)
    requires from < |objects| && HoldsMatches(objects, from + 1, classes, types, wanted, result, picks)
    ensures if Matches(objects[from], classes, types, wanted)
            then HoldsMatches(objects, from, classes, types, wanted, [objects[from]] + result, [from] + picks)
            else HoldsMatches(objects, from, classes, types, wanted, result, picks)
  {
    hide Matches;
    assert from !in picks;
  }

  /** A successful listing holds exactly the matching objects, in order. */
  lemma {:induction false} ListingHoldsMatches(objects: seq<Object>, from: nat, classes: seq<Word>, types: seq<Word>,
      wanted: Option<set<int>>, capacity: nat) returns (picks: seq<nat>)
    requires from <= |objects| && Listing(objects[from..], FiltersFor(classes, types, wanted), wanted, capacity).Ok?
    ensures var result := Listing(objects[from..], FiltersFor(classes, types, wanted), wanted, capacity).value;
            HoldsMatches(objects, from, classes, types, wanted, result, picks)
    decreases |objects| - from
  {
    hide Admits, FiltersFor, Requested, Matches;
    picks := [];
    if from < |objects| {
      MatchesIff(objects[from], classes, types, wanted);
      assert objects[from..][1..] == objects[from + 1..];
      picks := ListingHoldsMatches(objects, from + 1, classes, types, wanted, capacity);
      var rest := Listing(objects[from + 1..], FiltersFor(classes, types, wanted), wanted, capacity).value;
      HoldsOneMore(objects, from, classes, types, wanted, rest, picks);
      hide HoldsMatches;
      assert [] + rest == rest;
      if Matches(objects[from], classes, types, wanted) {
        picks := [from] + picks;
      }
    }
  }

  /** A listing fails with the length of the first selected name that does not fit. */
  lemma {:induction false} FailsAtFirstLongName(objects: seq<Object>, f: Filters, wanted: Option<set<int>>,
      capacity: nat, n: nat)
    ensures Listing(objects, f, wanted, capacity) == Err(n)
       <==> exists k: nat :: LongAt(objects, f, capacity, k, n)
    decreases |objects|
  {
    hide Admits;
    if objects != [] {
      var rest := objects[1..];
      var long := Admits(f, objects[0]) && |objects[0].name| > capacity;
      FailsAtFirstLongName(rest, f, wanted, capacity, n);
      forall k: nat | 0 < k < |objects|
        ensures LongAt(objects, f, capacity, k, n) <==> LongAt(rest, f, capacity, k - 1, n) && !long
      {
        LongLater(objects, f, capacity, k, n);
      }
      assert LongAt(objects, f, capacity, 0, n) <==> long && n == |objects[0].name|;
      hide LongAt;
      if !long {
        if k: nat :| LongAt(rest, f, capacity, k, n) {
          LongWithin(rest, f, capacity, k, n);
          assert LongAt(objects, f, capacity, k + 1, n);
        }
        if k: nat :| LongAt(objects, f, capacity, k, n) {
          LongWithin(objects, f, capacity, k, n);
          assert LongAt(rest, f, capacity, k - 1, n);
        }
      } else if k: nat :| LongAt(objects, f, capacity, k, n) {
        LongWithin(objects, f, capacity, k, n);
      }
    }
  }

  lemma LongWithin(objects: seq<Object>, f: Filters, capacity: nat, k: nat, n: nat)
    requires LongAt(objects, f, capacity, k, n)
    ensures k < |objects|
  {
  }

  lemma LongLater(objects: seq<Object>, f: Filters, capacity: nat, k: nat, n: nat)
    requires 0 < k < |objects|
    ensures LongAt(objects, f, capacity, k, n)
       <==> LongAt(objects[1..], f, capacity, k - 1, n) && !(Admits(f, objects[0]) && |objects[0].name| > capacity)
  {
    hide Admits;
    assert forall j :: 0 < j <= k ==> objects[j] == objects[1..][j - 1];
    assert forall j :: 0 <= j < k ==> objects[1..][j] == objects[j + 1];
  }

  /** The object at k is selected and its name of length n is the first selected one not to fit. */
  predicate LongAt(objects: seq<Object>, f: Filters, capacity: nat, k: nat, n: nat) {
    k < |objects| && Admits(f, objects[k]) && |objects[k].name| == n > capacity
    && forall j :: 0 <= j < k && Admits(f, objects[j]) ==> |objects[j].name| <= capacity
  }

  /** What narrowing keeps: scalars and, of series, those of a family of a requested code when every code
      has one, case series alone for the case code alone, and everything for any other request. */
  lemma NarrowingKeeps(classes: seq<Word>, types: seq<Word>, codes: set<int>, obj: Object)
    ensures Admits(FiltersFor(classes, types, Some(codes)), obj)
       <==> Admits(FiltersFor(classes, types, None), obj)
            && (obj.classCode != SERIES || codes == {}
                || (if forall code :: code in codes ==> FamilyOf(code).Some? then
                      FamilyOf(obj.frequency).None?
                      || exists code :: code in codes && FamilyOf(code) == FamilyOf(obj.frequency)
                    else codes == {CASE_CODE} ==> obj.frequency == CASE_CODE))
  {
    if FamilyOf(obj.frequency).Some? {
      var family := FamilyOf(obj.frequency).value;
      AllListed(family);
      assert Wants(codes, family) <==> exists code :: code in codes && FamilyOf(code) == FamilyOf(obj.frequency);
    }
    assert FamilyOf(CASE_CODE).None?;
    hide FamilyOf, FamilyWords;
    if AllDateIndexed(codes) && codes != {} {
      var code := SomeElement(codes);
      SomeFamily(codes, code);
    }
  }

  lemma SomeElement<T>(elements: set<T>) returns (element: T)
    requires elements != {}
    ensures element in elements
  {
    element :| element in elements;
  }

  lemma SomeFamily(codes: set<int>, code: int)
    requires AllDateIndexed(codes) && code in codes
    ensures FamilyWords(codes, FAMILIES) != []
  {
    AllListed(FamilyOf(code).value);
    assert Wants(codes, FamilyOf(code).value);
    assert FamilyWord(FamilyOf(code).value) in FamilyWords(codes, FAMILIES);
    hide FamilyWords;
  }

  /** The listings differ exactly when every object with too long a name is one the narrowing left out. */
  lemma DiffersOnLongNames(objects: seq<Object>, classes: seq<Word>, types: seq<Word>, wanted: Option<set<int>>,
      capacity: nat)
    ensures var broad := Listing(objects, FiltersFor(classes, types, None), None, capacity);
            var narrow := Listing(objects, FiltersFor(classes, types, wanted), wanted, capacity);
            (broad.Ok? != narrow.Ok?)
            <==> (!NamesFit(objects, FiltersFor(classes, types, None), capacity)
                  && NamesFit(objects, FiltersFor(classes, types, wanted), capacity))
  {
    SucceedsWhenNamesFit(objects, FiltersFor(classes, types, None), None, capacity);
    SucceedsWhenNamesFit(objects, FiltersFor(classes, types, wanted), wanted, capacity);
    forall i | 0 <= i < |objects| && Admits(FiltersFor(classes, types, wanted), objects[i])
      ensures Admits(FiltersFor(classes, types, None), objects[i])
    {
      NarrowingIsSafe(classes, types, wanted, objects[i]);
    }
    hide Admits, FiltersFor, Listing;
  }

  lemma DailyWords()
    ensures FamilyWords({8}, FAMILIES) != [] && FamilyWord(Monthly) !in FamilyWords({8}, FAMILIES)
  {
    hide FamilyWords;
    AllListed(Daily);
    assert 8 in {8} && Wants({8}, Daily);
    assert FamilyWord(Daily) in FamilyWords({8}, FAMILIES);
    assert !Wants({8}, Monthly);
  }

  /** A long-named monthly series stops the un-narrowed listing, not the one narrowed to daily series. */
  lemma LongNameExample()
    ensures var objects := [Object("LONGNAME", SERIES, 5, 129, 1, 2)];
            Listing(objects, FiltersFor([], [], None), None, 4) == Err(8)
            && Listing(objects, FiltersFor([], [], Some({8})), Some({8}), 4) == Ok([])
  {
    var obj := Object("LONGNAME", SERIES, 5, 129, 1, 2);
    hide FamilyWords;
    var words := FamilyWords({8}, FAMILIES);
    DailyWords();
    assert AllDateIndexed({8});
    assert FiltersFor([], [], Some({8})) == Filters([], [], words, [])
           && FiltersFor([], [], None) == Filters([], [], [], []);
    assert FamilyOf(129) == Some(Monthly);
    hide FiltersFor, FamilyOf;
    assert !Admits(Filters([], [], words, []), obj) && Admits(Filters([], [], [], []), obj);
    hide Admits;
    assert [obj][1..] == [] && |obj.name| == 8;
  }
}
