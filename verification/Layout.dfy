/** The layout of migrated objects: paths, writers, placeholders and masks (migration/_layout.py). */
module Layout {
  import opened Wrappers
  import opened Frequencies
  import opened Carriers
  import opened DataEcon
  import opened Labels

  const MASK_CATALOG := "famepy_migration_masks"
  const VERSION := "1"
  const STARTED := "started"
  const COMPLETE := "complete"
  const INCOMPLETE := "incomplete"

  datatype LayoutError =
    | NotStored | BadAttributes | BadVersion | BadStatus | BadCounts | BadKind | BadLabel | BadMode | BadRepresentation
    | WrongClass | WrongType | WrongLength | WrongFrequency | WrongPlaceholder | BadMask | UndeclaredMask
    | BadFirstdate | BadMembers | CaseDates | NoRepresentation | NoValueFrequency

  // -- paths ---------------------------------------------------------------------------------------

  function Trimmed(catalog: string): string {
    if catalog != [] && catalog[|catalog| - 1] == '/' then Trimmed(catalog[..|catalog| - 1]) else catalog
  }

  function CatalogPath(catalog: string, name: string): string {
    Trimmed(catalog) + "/" + name
  }

  function MaskPath(catalog: string, name: string): string {
    CatalogPath(CatalogPath(catalog, MASK_CATALOG), name)
  }

  /** What the paths of a catalog need of a name: not empty, no separator, not the reserved one. */
  predicate PlainName(name: string) {
    name != [] && '/' !in name && name != MASK_CATALOG
  }

  /** The root, or a path without a trailing separator. */
  predicate GoodCatalog(catalog: string) {
    catalog == "/" || (catalog != [] && catalog[|catalog| - 1] != '/')
  }

  // -- kinds and categories ------------------------------------------------------------------------

  function KindName(kind: Kind): string {
    match kind
    case Precision => "precision"
    case Numeric => "numeric"
    case Boolean => "boolean"
    case Date => "date"
    case String => "string"
    case Namelist => "namelist"
  }

  function KindNamed(name: string): (r: Option<Kind>)
    ensures r.Some? ==> KindName(r.value) == name
  {
    if name == "precision" then Some(Precision)
    else if name == "numeric" then Some(Numeric)
    else if name == "boolean" then Some(Boolean)
    else if name == "date" then Some(Date)
    else if name == "string" then Some(String)
    else if name == "namelist" then Some(Namelist)
    else None
  }

  lemma KindNames(kind: Kind)
    ensures KindNamed(KindName(kind)) == Some(kind)
  {
    assert kind.Namelist? ==> KindName(kind)[1] == 'a';
    assert |KindName(kind)| == match kind
      case Precision => 9 case Numeric => 7 case Boolean => 7 case Date => 4 case String => 6 case Namelist => 8;
    assert kind.Numeric? ==> KindName(kind)[0] == 'n';
    assert kind.Boolean? ==> KindName(kind)[0] == 'b';
  }

  function CategoryName(category: int): string {
    if category == NC then "NC" else if category == NA then "NA" else "ND"
  }

  function CategoryNamed(tag: string): (r: Option<int>)
    ensures r.Some? ==> NC <= r.value <= ND && CategoryName(r.value) == tag
  {
    if tag == "NC" then Some(NC) else if tag == "NA" then Some(NA) else if tag == "ND" then Some(ND) else None
  }

  lemma CategoryNames(category: int)
    requires NC <= category <= ND
    ensures CategoryNamed(CategoryName(category)) == Some(category)
  {
    assert "NC"[1] != "NA"[1] && "NC"[1] != "ND"[1] && "NA"[1] != "ND"[1];
  }

  function KindDtype(kind: Kind): Dtype {
    match kind
    case Precision => Float64
    case Numeric => Float32
    case Boolean => Bool8
    case Date => Int64
    case _ => OtherType
  }

  // -- bridge values -------------------------------------------------------------------------------

  /** A scalar in bridge terms. */
  datatype Item =
    | Number(bits: int)
    | Truth(b: bool)
    | Instant(moment: Moment)
    | Line(text: string)
    | Members(names: seq<string>)

  /** The observations of a series in bridge terms; dates are moment codes of one value frequency. */
  datatype Column =
    | Numbers(double: bool, bits: seq<int>)
    | Truths(flags: seq<bool>)
    | Dates(elements: Frequency, codes: seq<Option<int>>)
    | Lines(texts: seq<Option<string>>)
  {
    function Kind(): Kind {
      match this
      case Numbers(double, _) => if double then Precision else Numeric
      case Truths(_) => Boolean
      case Dates(_, _) => Date
      case Lines(_) => String
    }

    function Length(): nat {
      match this
      case Numbers(_, bits) => |bits|
      case Truths(flags) => |flags|
      case Dates(_, codes) => |codes|
      case Lines(texts) => |texts|
    }

    function ElementsOr(other: Frequency): Frequency {
      if Dates? then elements else other
    }
  }

  // -- placeholders --------------------------------------------------------------------------------

  /** Positions with a missing category hold the placeholder. */
  function Placed(words: seq<int>, codes: seq<int>, placeholder: int): (r: seq<int>)
    requires |codes| == |words|
    ensures |r| == |words|
    ensures forall i :: 0 <= i < |r| ==> r[i] == if codes[i] != NORMAL then placeholder else words[i]
  {
    seq(|words|, i requires 0 <= i < |words| => if codes[i] != NORMAL then placeholder else words[i])
  }

  method PlaceInPlace(data: array<int>, codes: seq<int>, placeholder: int)
    requires |codes| == data.Length
    modifies data
    ensures data[..] == Placed(old(data[..]), codes, placeholder)
  {
    for i := 0 to data.Length
      invariant forall j :: 0 <= j < i ==> data[j] == if codes[j] != NORMAL then placeholder else old(data[j])
      invariant forall j :: i <= j < data.Length ==> data[j] == old(data[j])
    {
      if codes[i] != NORMAL {
        data[i] := placeholder;
      }
    }
  }

  function FlagWords(flags: seq<bool>): (r: seq<int>)
    ensures |r| == |flags| && forall i :: 0 <= i < |r| ==> r[i] == if flags[i] then 1 else 0
  {
    seq(|flags|, i requires 0 <= i < |flags| => if flags[i] then 1 else 0)
  }

  function CodeWords(codes: seq<Option<int>>): (r: seq<int>)
    ensures |r| == |codes| && forall i :: 0 <= i < |r| ==> r[i] == codes[i].GetOr(0)
  {
    seq(|codes|, i requires 0 <= i < |codes| => codes[i].GetOr(0))
  }

  function TextOf(texts: seq<Option<string>>): (r: seq<string>)
    ensures |r| == |texts| && forall i :: 0 <= i < |r| ==> r[i] == texts[i].GetOr("")
  {
    seq(|texts|, i requires 0 <= i < |texts| => texts[i].GetOr(""))
  }

  predicate AnyMarked(codes: seq<int>) {
    exists i :: 0 <= i < |codes| && codes[i] != NORMAL
  }

  predicate AllPresent(codes: seq<Option<int>>) {
    forall i :: 0 <= i < |codes| ==> codes[i].Some?
  }

  predicate AllFit(codes: seq<Option<int>>) {
    forall i :: 0 <= i < |codes| && codes[i].Some? ==> FitsInt64(codes[i].value)
  }

  // -- writers: the native calls of one object -----------------------------------------------------

  function ScalarPayload(kind: Kind, item: Option<Item>, missing: bool): Result<Payload, LayoutError> {
    match kind
    case Precision =>
      if missing then Ok(WordScalar(Float64, DOUBLE_NAN))
      else if item.Some? && item.value.Number? then Ok(WordScalar(Float64, item.value.bits)) else Err(NoRepresentation)
    case Numeric =>
      if missing then Ok(WordScalar(Float32, SINGLE_NAN))
      else if item.Some? && item.value.Number? then Ok(WordScalar(Float32, item.value.bits)) else Err(NoRepresentation)
    case Boolean =>
      if missing then Ok(WordScalar(Int8, 0))
      else if item.Some? && item.value.Truth? then Ok(WordScalar(Int8, if item.value.b then 1 else 0))
      else Err(NoRepresentation)
    case String =>
      if missing then Ok(TextScalar(""))
      else if item.Some? && item.value.Line? then Ok(TextScalar(item.value.text)) else Err(NoRepresentation)
    case Date =>
      if missing then Ok(WordScalar(Int64, 0))
      else if item.Some? && item.value.Instant? then Ok(MomentScalar(item.value.moment)) else Err(NoRepresentation)
    case Namelist =>
      if item.Some? && item.value.Members? then Ok(TextArray(item.value.names)) else Err(NoRepresentation)
  }

  function ScalarNotes(kind: Kind, category: int, valueFrequency: Option<Frequency>): seq<Note> {
    [Note(KindKey, KindName(kind))]
    + (if category == NORMAL then [] else [Note(MissingKey, CategoryName(category))])
    + (if kind.Namelist? then [Note(RepresentationKey, "members")]
       else if kind.Date? && valueFrequency.Some? then [Note(ValueFrequencyKey, Label(valueFrequency.value))]
       else [])
  }

  function ScalarCalls(path: string, kind: Kind, item: Option<Item>, category: int, valueFrequency: Option<Frequency>):
    Result<seq<Call>, LayoutError>
  {
    if category != NORMAL && !(NC <= category <= ND) then Err(NoRepresentation)
    else if kind.Date? && valueFrequency.None? then Err(NoValueFrequency)
    else
      var payload :- ScalarPayload(kind, item, category != NORMAL);
      Ok([Create(path, payload)] + Notes(path, ScalarNotes(kind, category, valueFrequency)))
  }

  function SeriesPayload(first: Moment, c: Column, codes: seq<int>): Result<Payload, LayoutError>
    requires |codes| == c.Length()
  {
    match c
    case Numbers(double, bits) =>
      var kind := c.Kind();
      Ok(WordSeries(first, KindDtype(kind), Placed(bits, codes, CanonicalNaN(kind))))
    case Truths(flags) => Ok(WordSeries(first, Bool8, Placed(FlagWords(flags), codes, 0)))
    case Dates(elements, moments) =>
      if !AllFit(moments) then Err(NoRepresentation)
      else if AnyMarked(codes) then Ok(WordSeries(first, Int64, CodeWords(moments)))
      else if AllPresent(moments) then Ok(DateSeries(first, elements, CodeWords(moments)))
      else Err(NoRepresentation)
    case Lines(texts) => Ok(TextArray(TextOf(texts)))
  }

  function Representation(c: Column, codes: seq<int>): string {
    if c.Lines? then "text" else if c.Dates? && AnyMarked(codes) then "codes" else "native"
  }

  function SeriesNotes(first: Moment, c: Column, codes: seq<int>, mask: bool): seq<Note> {
    [Note(KindKey, KindName(c.Kind())), Note(FrequencyKey, Label(first.frequency))]
    + (if c.Dates? then [Note(ValueFrequencyKey, Label(c.elements))]
       else if c.Lines? then [Note(FirstdateKey, Decimal(first.value))]
       else [])
    + [Note(RepresentationKey, Representation(c, codes))]
    + (if AnyMarked(codes) && mask then [Note(MaskKey, "1")] else [])
  }

  function SeriesCalls(catalog: string, name: string, first: Moment, c: Column, codes: seq<int>, mask: bool):
    Result<seq<Call>, LayoutError>
  {
    var path := CatalogPath(catalog, name);
    if |codes| != c.Length() then Err(WrongLength)
    else if AnyMarked(codes) && !mask && !IsFloat(c.Kind()) then Err(NoRepresentation)
    else
      var payload :- SeriesPayload(first, c, codes);
      var sidecar :=
        if AnyMarked(codes) && mask then [Create(MaskPath(catalog, name), WordSeries(first, Int8, codes))] else [];
      Ok([Create(path, payload)] + sidecar + Notes(path, SeriesNotes(first, c, codes, mask)))
  }

  function EmptyPayload(kind: Kind, valueFrequency: Option<Frequency>, first: Option<Moment>): Payload {
    if kind.String? then TextArray([])
    else if first.None? then WordArray(KindDtype(kind), [])
    else if kind.Date? && valueFrequency.Some? then DateSeries(first.value, valueFrequency.value, [])
    else WordSeries(first.value, KindDtype(kind), [])
  }

  function EmptyNotes(kind: Kind, frequency: Frequency, valueFrequency: Option<Frequency>,
      first: Option<Moment>): seq<Note> {
    [Note(KindKey, KindName(kind)), Note(FrequencyKey, Label(frequency))]
    + (if kind.Date? && valueFrequency.Some? then [Note(ValueFrequencyKey, Label(valueFrequency.value))] else [])
    + [Note(EmptyKey, if first.Some? then "explicit_firstdate" else "unknown_firstdate")]
    + (if first.Some? && kind.String? then [Note(FirstdateKey, Decimal(first.value.value))] else [])
  }

  function EmptyCalls(path: string, kind: Kind, frequency: Frequency, valueFrequency: Option<Frequency>,
      first: Option<Moment>):
    Result<seq<Call>, LayoutError>
  {
    if kind.Namelist? then Err(NoRepresentation)
    else if kind.Date? && valueFrequency.None? then Err(NoValueFrequency)
    else if first.Some? && first.value.frequency != frequency then Err(WrongFrequency)
    else
      Ok([Create(path, EmptyPayload(kind, valueFrequency, first))]
         + Notes(path, EmptyNotes(kind, frequency, valueFrequency, first)))
  }

  // -- writers, call by call -----------------------------------------------------------------------

  /** The state a writer's calls lead to; nothing is called when there is no representation. */
  function Written(store: Store, calls: Result<seq<Call>, LayoutError>, limit: nat): (Store, bool) {
    if calls.Err? then (store, false) else Run(store, calls.value, limit)
  }

  method WriteScalar(db: File, catalog: string, name: string, kind: Kind, item: Option<Item>, category: int,
                     valueFrequency: Option<Frequency>) returns (ok: bool)
    modifies db
    ensures (db.nodes, ok)
         == Written(old(db.nodes), ScalarCalls(CatalogPath(catalog, name), kind, item, category, valueFrequency),
                    old(db.credit))
  {
    hide ScalarNotes, ScalarPayload, Done, Allowed, Notes;
    var path := CatalogPath(catalog, name);
    if category != NORMAL && !(NC <= category <= ND) {
      return false;
    }
    if kind.Date? && valueFrequency.None? {
      return false;
    }
    var payload := ScalarPayload(kind, item, category != NORMAL);
    if payload.Err? {
      return false;
    }
    var notes := ScalarNotes(kind, category, valueFrequency);
    RunFirst(db.nodes, Create(path, payload.value), Notes(path, notes), db.credit);
    ok := db.Perform(Create(path, payload.value));
    if ok {
      ok := db.SetAttributes(path, notes);
    }
  }

  /** The mask is written between the object and its attributes. */
  method WriteSeries(db: File, catalog: string, name: string, first: Moment, c: Column, codes: seq<int>, mask: bool)
    returns (ok: bool)
    modifies db
    ensures (db.nodes, ok)
         == Written(old(db.nodes), SeriesCalls(catalog, name, first, c, codes, mask), old(db.credit))
  {
    hide SeriesNotes, Done, Allowed, Notes, AnyMarked, MaskPath, CatalogPath, SeriesPayload;
    var path := CatalogPath(catalog, name);
    if |codes| != c.Length() || (AnyMarked(codes) && !mask && !IsFloat(c.Kind())) {
      return false;
    }
    var payload := StoredForm(first, c, codes);
    if payload.Err? {
      return false;
    }
    var notes := SeriesNotes(first, c, codes, mask);
    var create := Create(path, payload.value);
    if AnyMarked(codes) && mask {
      var sidecar := Create(MaskPath(catalog, name), WordSeries(first, Int8, codes));
      assert [create] + [sidecar] + Notes(path, notes) == [create] + ([sidecar] + Notes(path, notes));
      RunFirst(db.nodes, create, [sidecar] + Notes(path, notes), db.credit);
      ok := db.Perform(create);
      if !ok {
        return;
      }
      RunFirst(db.nodes, sidecar, Notes(path, notes), db.credit);
      ok := db.Perform(sidecar);
    } else {
      assert [create] + [] + Notes(path, notes) == [create] + Notes(path, notes);
      RunFirst(db.nodes, create, Notes(path, notes), db.credit);
      ok := db.Perform(create);
    }
    if ok {
      ok := db.SetAttributes(path, notes);
    }
  }

  /** The buffer a series is stored from, with its missing positions overwritten in place. */
  method StoredForm(first: Moment, c: Column, codes: seq<int>) returns (r: Result<Payload, LayoutError>)
    requires |codes| == c.Length()
    ensures r == SeriesPayload(first, c, codes)
  {
    if c.Numbers? {
      var data := new int[|c.bits|](i requires 0 <= i < |c.bits| => c.bits[i]);
      assert data[..] == c.bits;
      PlaceInPlace(data, codes, CanonicalNaN(c.Kind()));
      r := Ok(WordSeries(first, KindDtype(c.Kind()), data[..]));
    } else if c.Truths? {
      var words := FlagWords(c.flags);
      var data := new int[|words|](i requires 0 <= i < |words| => words[i]);
      assert data[..] == words;
      PlaceInPlace(data, codes, 0);
      r := Ok(WordSeries(first, Bool8, data[..]));
    } else {
      r := SeriesPayload(first, c, codes);
    }
  }

  method WriteEmptySeries(db: File, catalog: string, name: string, kind: Kind, frequency: Frequency,
                          valueFrequency: Option<Frequency>, first: Option<Moment>) returns (ok: bool)
    modifies db
    ensures (db.nodes, ok)
         == Written(old(db.nodes), EmptyCalls(CatalogPath(catalog, name), kind, frequency, valueFrequency, first),
                    old(db.credit))
  {
    hide EmptyNotes, EmptyPayload, Done, Allowed, Notes;
    var path := CatalogPath(catalog, name);
    if kind.Namelist? || (kind.Date? && valueFrequency.None?) || (first.Some? && first.value.frequency != frequency) {
      return false;
    }
    var create := Create(path, EmptyPayload(kind, valueFrequency, first));
    var notes := EmptyNotes(kind, frequency, valueFrequency, first);
    RunFirst(db.nodes, create, Notes(path, notes), db.credit);
    ok := db.Perform(create);
    if ok {
      ok := db.SetAttributes(path, notes);
    }
  }
}
