/** The strict reader of migrated objects (migration/_layout.py). */
module Reader {
  import opened Wrappers
  import opened Bytes
  import opened Frequencies
  import opened Carriers
  import opened DataEcon
  import opened Labels
  import opened Layout
  import Values
  import NameLists

  /** One object as read back, in bridge terms. */
  datatype Migrated =
    | MigratedScalar(name: string, kind: Kind, value: Option<Item>, category: int, valueLabel: Option<string>)
    | MigratedSeries(name: string, kind: Kind, carrier: Option<Carrier>, categories: seq<int>, indexLabel: string,
                     valueLabel: Option<string>, representation: string)

  datatype Carrier = Carrier(first: Moment, column: Column)

  type Read<T> = Result<T, LayoutError>

  function Check(condition: bool, error: LayoutError): Read<bool> {
    if condition then Ok(true) else Err(error)
  }

  // -- catalog -------------------------------------------------------------------------------------

  /** Exactly the declared attributes. */
  predicate Exactly(found: Attributes, required: set<Key>, optional: set<Key>) {
    required <= found.Keys <= required + optional
  }

  predicate Counts(found: Attributes) {
    (PlannedKey in found ==> AllDigits(found[PlannedKey])) && (WrittenKey in found ==> AllDigits(found[WrittenKey]))
  }

  /** The written count is within the plan, and equals it when the run is complete. */
  predicate CountsAgree(found: Attributes)
    requires StatusKey in found && Counts(found)
  {
    if PlannedKey in found && WrittenKey in found then
      var planned, written := DigitsValue(found[PlannedKey]), DigitsValue(found[WrittenKey]);
      written <= planned && (found[StatusKey] == COMPLETE ==> written == planned)
    else true
  }

  function CheckLayout(store: Store, catalog: string): Read<Attributes> {
    if catalog !in store then Err(NotStored)
    else
      var found := store[catalog].attributes;
      if !Exactly(found, {LayoutKey, StatusKey}, {PlannedKey, WrittenKey}) then Err(BadAttributes)
      else if found[LayoutKey] != VERSION then Err(BadVersion)
      else if found[StatusKey] != STARTED && found[StatusKey] != COMPLETE && found[StatusKey] != INCOMPLETE then
        Err(BadStatus)
      else if !Counts(found) then Err(BadCounts)
      else if found[StatusKey] != STARTED && !({PlannedKey, WrittenKey} <= found.Keys) then Err(BadCounts)
      else if !CountsAgree(found) then Err(BadCounts)
      else Ok(found)
  }

  // -- masks and first dates -------------------------------------------------------------------------

  predicate MaskCodes(codes: seq<int>) {
    forall i :: 0 <= i < |codes| ==> NORMAL <= codes[i] <= ND
  }

  function ReadMask(store: Store, catalog: string, name: string, first: Moment, length: nat): (r: Read<seq<int>>)
    ensures r.Ok? ==> |r.value| == length
  {
    var path := MaskPath(catalog, name);
    if path !in store then Err(NotStored)
    else
      var mask := store[path].payload;
      if !mask.WordSeries? || mask.dtype != Int8 then Err(BadMask)
      else if mask.first != first then Err(BadMask)
      else if |mask.words| != length || !MaskCodes(mask.words) then Err(BadMask)
      else if !AnyMarked(mask.words) then Err(BadMask)
      else Ok(mask.words)
  }

  function Zeros(length: nat): (r: seq<int>)
    ensures |r| == length && forall i :: 0 <= i < length ==> r[i] == NORMAL
  {
    seq(length, _ => NORMAL)
  }

  /** The declared mask, or all normal when none is declared and none exists. */
  function ReadCodes(store: Store, catalog: string, name: string, found: Attributes, first: Moment,
      length: nat): (r: Read<seq<int>>)
    ensures r.Ok? ==> |r.value| == length
  {
    if MaskKey !in found then
      if MaskPath(catalog, name) in store then Err(UndeclaredMask) else Ok(Zeros(length))
    else if found[MaskKey] != "1" then Err(BadMask)
    else ReadMask(store, catalog, name, first, length)
  }

  function ReadFirstdate(found: Attributes, f: Frequency): Read<Moment>
    requires FirstdateKey in found
  {
    match ParseDecimal(found[FirstdateKey])
    case Some(n) => Ok(Moment(f, n))
    case None => Err(BadFirstdate)
  }

  // -- one reader per kind ---------------------------------------------------------------------------

  /** The placeholder a missing scalar of a kind must hold. */
  predicate ScalarPlaceholder(kind: Kind, payload: Payload) {
    match kind
    case Precision => payload.WordScalar? && IsNaN(Precision, payload.word)
    case Numeric => payload.WordScalar? && IsNaN(Numeric, payload.word)
    case String => payload == TextScalar("")
    case _ => payload.WordScalar? && payload.word == 0
  }

  /** The value of a stored scalar of the right type. */
  function ScalarItem(kind: Kind, payload: Payload, category: int, valueLabel: Option<string>): Read<Item> {
    match kind
    case Precision =>
      if payload.WordScalar? && payload.dtype == Float64 then Ok(Number(payload.word)) else Err(WrongType)
    case Numeric =>
      if payload.WordScalar? && payload.dtype == Float32 then Ok(Number(payload.word)) else Err(WrongType)
    case Boolean =>
      if payload.WordScalar? && payload.dtype == Int8 && 0 <= payload.word <= 1 then Ok(Truth(payload.word == 1))
      else Err(WrongType)
    case String =>
      if payload.TextScalar? then Ok(Line(payload.text)) else Err(WrongType)
    case _ =>
      if valueLabel.None? || LabelFrequency(valueLabel.value).None? then Err(BadLabel)
      else if category == NORMAL then
        if !payload.MomentScalar? then Err(WrongType)
        else if Label(payload.moment.frequency) != valueLabel.value then Err(WrongFrequency)
        else Ok(Instant(payload.moment))
      else if payload.WordScalar? && (payload.dtype == Int64 || payload.dtype == Int8) then Ok(Number(payload.word))
      else Err(WrongType)
  }

  function Tag(found: Attributes): Read<int> {
    if MissingKey !in found then Ok(NORMAL)
    else match CategoryNamed(found[MissingKey])
      case Some(c) => Ok(c)
      case None => Err(BadMode)
  }

  function Lookup(found: Attributes, key: Key): Option<string> {
    if key in found then Some(found[key]) else None
  }

  function ReadScalar(name: string, kind: Kind, found: Attributes, payload: Payload): Read<Migrated> {
    var required := if kind.Date? then {KindKey, ValueFrequencyKey} else {KindKey};
    var _ :- Check(Exactly(found, required, {MissingKey}), BadAttributes);
    var category :- Tag(found);
    var valueLabel := Lookup(found, ValueFrequencyKey);
    var item :- ScalarItem(kind, payload, category, valueLabel);
    if category == NORMAL then Ok(MigratedScalar(name, kind, Some(item), NORMAL, valueLabel))
    else if !ScalarPlaceholder(kind, payload) then Err(WrongPlaceholder)
    else Ok(MigratedScalar(name, kind, None, category, valueLabel))
  }

  /** The first date an empty carrier stores, if any, once the carrier is verified. */
  function EmptyFirst(kind: Kind, found: Attributes, f: Frequency, payload: Payload): Read<Option<Moment>>
    requires EmptyKey in found && (kind.Date? ==> ValueFrequencyKey in found)
    requires kind.String? && found[EmptyKey] == "explicit_firstdate" ==> FirstdateKey in found
  {
    var mode := found[EmptyKey];
    if mode != "unknown_firstdate" && mode != "explicit_firstdate" then Err(BadMode)
    else if kind.String? then
      if payload.Class() != ArrayClass then Err(WrongClass)
      else if !payload.TextArray? then Err(WrongType)
      else if payload.texts != [] then Err(WrongLength)
      else if mode == "explicit_firstdate" then var first :- ReadFirstdate(found, f); Ok(Some(first))
      else Ok(None)
    else if mode == "unknown_firstdate" then
      if payload.Class() != ArrayClass then Err(WrongClass)
      else if !payload.WordArray? || payload.dtype != KindDtype(kind) then Err(WrongType)
      else if payload.words != [] then Err(WrongLength)
      else Ok(None)
    else if payload.Class() != SeriesClass then Err(WrongClass)
    else if kind.Date? then
      if !payload.DateSeries? then Err(WrongType)
      else if Label(payload.elements) != found[ValueFrequencyKey] then Err(WrongFrequency)
      else if payload.words != [] then Err(WrongLength)
      else if payload.first.frequency != f then Err(WrongFrequency)
      else Ok(Some(payload.first))
    else if !payload.WordSeries? || payload.dtype != KindDtype(kind) then Err(WrongType)
    else if payload.words != [] then Err(WrongLength)
    else if payload.first.frequency != f then Err(WrongFrequency)
    else Ok(Some(payload.first))
  }

  function EmptyColumn(kind: Kind, elements: Frequency): Column {
    match kind
    case Precision => Numbers(true, [])
    case Numeric => Numbers(false, [])
    case Boolean => Truths([])
    case Date => Column.Dates(elements, [])
    case _ => Lines([])
  }

  function ReadEmpty(name: string, kind: Kind, found: Attributes, f: Frequency, payload: Payload): Read<Migrated>
    requires EmptyKey in found && FrequencyKey in found
  {
    var required := {KindKey, FrequencyKey, EmptyKey}
      + (if kind.Date? then {ValueFrequencyKey} else {})
      + (if kind.String? && found[EmptyKey] == "explicit_firstdate" then {FirstdateKey} else {});
    var _ :- Check(Exactly(found, required, {}), BadAttributes);
    var valueLabel := Lookup(found, ValueFrequencyKey);
    var first :- EmptyFirst(kind, found, f, payload);
    if first.None? then Ok(MigratedSeries(name, kind, None, [], found[FrequencyKey], valueLabel, "empty"))
    else if kind.Date? then
      match LabelFrequency(found[ValueFrequencyKey])
      case None => Err(BadLabel)
      case Some(elements) =>
        if elements.Unit? then Err(CaseDates)
        else
          var carrier := Carrier(first.value, EmptyColumn(kind, elements));
          Ok(MigratedSeries(name, kind, Some(carrier), [], found[FrequencyKey], valueLabel, "empty"))
    else
      var carrier := Carrier(first.value, EmptyColumn(kind, Unit));
      Ok(MigratedSeries(name, kind, Some(carrier), [], found[FrequencyKey], valueLabel, "empty"))
  }

  predicate BlankTexts(texts: seq<string>, codes: seq<int>)
    requires |codes| == |texts|
  {
    forall i :: 0 <= i < |texts| && codes[i] != NORMAL ==> texts[i] == ""
  }

  /** The values at normal positions, nothing at missing ones. */
  function Present<T>(values: seq<T>, codes: seq<int>): (r: seq<Option<T>>)
    requires |codes| == |values|
    ensures |r| == |values| && forall i :: 0 <= i < |r| ==> r[i] == if codes[i] != NORMAL then None else Some(values[i])
  {
    seq(|values|, i requires 0 <= i < |values| => if codes[i] != NORMAL then None else Some(values[i]))
  }

  function ReadStrings(store: Store, catalog: string, name: string, found: Attributes, f: Frequency,
      payload: Payload): Read<Migrated>
    requires FrequencyKey in found
  {
    var _ :- Check(Exactly(found, {KindKey, FrequencyKey, RepresentationKey, FirstdateKey}, {MaskKey}), BadAttributes);
    if found[RepresentationKey] != "text" then Err(BadRepresentation)
    else if payload.Class() != ArrayClass then Err(WrongClass)
    else if !payload.TextArray? then Err(WrongType)
    else
      var first :- ReadFirstdate(found, f);
      var codes :- ReadCodes(store, catalog, name, found, first, |payload.texts|);
      if !BlankTexts(payload.texts, codes) then Err(WrongPlaceholder)
      else
        var carrier := Carrier(first, Lines(Present(payload.texts, codes)));
        Ok(MigratedSeries(name, String, Some(carrier), codes, found[FrequencyKey], None, "text"))
  }

  predicate HoldsAt(words: seq<int>, codes: seq<int>, placeholder: int)
    requires |codes| == |words|
  {
    forall i :: 0 <= i < |words| && codes[i] != NORMAL ==> words[i] == placeholder
  }

  function SeriesWords(payload: Payload): seq<int> {
    if payload.WordSeries? || payload.DateSeries? then payload.words else []
  }

  function SeriesFirst(payload: Payload): Moment
    requires payload.Class() == SeriesClass
  {
    payload.first
  }

  function ReadDates(store: Store, catalog: string, name: string, found: Attributes, payload: Payload): Read<Migrated>
    requires FrequencyKey in found && payload.Class() == SeriesClass
  {
    var _ :- Check(Exactly(found, {KindKey, FrequencyKey, RepresentationKey, ValueFrequencyKey}, {MaskKey}),
                   BadAttributes);
    match LabelFrequency(found[ValueFrequencyKey])
    case None => Err(BadLabel)
    case Some(elements) =>
      var words, first, valueLabel := SeriesWords(payload), SeriesFirst(payload), Some(found[ValueFrequencyKey]);
      var codes :- ReadCodes(store, catalog, name, found, first, |words|);
      if found[RepresentationKey] == "native" then
        if !payload.DateSeries? then Err(WrongType)
        else if MaskKey in found then Err(BadMask)
        else if words != [] && payload.elements != elements then Err(WrongFrequency)
        else if elements.Unit? then Err(CaseDates)
        else
          var carrier := Carrier(first, Column.Dates(elements, Present(words, codes)));
          Ok(MigratedSeries(name, Date, Some(carrier), codes, found[FrequencyKey], valueLabel, "native"))
      else if found[RepresentationKey] == "codes" then
        if !payload.WordSeries? || payload.dtype != Int64 then Err(WrongType)
        else if MaskKey !in found then Err(BadMask)
        else if !HoldsAt(words, codes, 0) then Err(WrongPlaceholder)
        else if elements.Unit? then Err(CaseDates)
        else
          var carrier := Carrier(first, Column.Dates(elements, Present(words, codes)));
          Ok(MigratedSeries(name, Date, Some(carrier), codes, found[FrequencyKey], valueLabel, "codes"))
      else Err(BadRepresentation)
  }

  predicate NaNAt(kind: Kind, words: seq<int>, codes: seq<int>)
    requires |codes| == |words|
  {
    forall i :: 0 <= i < |words| && codes[i] != NORMAL ==> IsNaN(kind, words[i])
  }

  function WordFlags(words: seq<int>): (r: seq<bool>)
    ensures |r| == |words| && forall i :: 0 <= i < |r| ==> r[i] == (words[i] != 0)
  {
    seq(|words|, i requires 0 <= i < |words| => words[i] != 0)
  }

  function PlainColumn(kind: Kind, words: seq<int>): Column {
    if kind.Boolean? then Truths(WordFlags(words)) else Numbers(kind.Precision?, words)
  }

  function ReadPlain(store: Store, catalog: string, name: string, kind: Kind, found: Attributes,
      payload: Payload): Read<Migrated>
    requires FrequencyKey in found
  {
    var _ :- Check(Exactly(found, {KindKey, FrequencyKey, RepresentationKey}, {MaskKey}), BadAttributes);
    if found[RepresentationKey] != "native" then Err(BadRepresentation)
    else if !payload.WordSeries? || payload.dtype != KindDtype(kind) then Err(WrongType)
    else
      var codes :- ReadCodes(store, catalog, name, found, payload.first, |payload.words|);
      if kind.Boolean? && !HoldsAt(payload.words, codes, 0) then Err(WrongPlaceholder)
      else if !kind.Boolean? && !NaNAt(kind, payload.words, codes) then Err(WrongPlaceholder)
      else
        var carrier := Carrier(payload.first, PlainColumn(kind, payload.words));
        Ok(MigratedSeries(name, kind, Some(carrier), codes, found[FrequencyKey], None, "native"))
  }

  /** A stored member must be one NameList accepts. */
  predicate GoodMembers(names: seq<string>) {
    forall i :: 0 <= i < |names| ==> GoodMember(names[i])
  }

  predicate GoodMember(name: string) {
    match Values.EncodeAscii(name)
    case Some(t) => NameLists.ValidMember(t)
    case None => false
  }

  function ReadNames(name: string, found: Attributes, payload: Payload): Read<Migrated> {
    var _ :- Check(Exactly(found, {KindKey, RepresentationKey}, {}), BadAttributes);
    if found[RepresentationKey] != "members" then Err(BadRepresentation)
    else if payload.Class() != ArrayClass then Err(WrongClass)
    else if !payload.TextArray? then Err(WrongType)
    else if !GoodMembers(payload.texts) then Err(BadMembers)
    else Ok(MigratedScalar(name, Namelist, Some(Members(payload.texts)), NORMAL, None))
  }

  // -- read_migrated ---------------------------------------------------------------------------------

  function ReadObject(store: Store, catalog: string, name: string, kind: Kind, found: Attributes,
      payload: Payload): Read<Migrated> {
    if kind.Namelist? then ReadNames(name, found, payload)
    else if FrequencyKey !in found then
      if payload.Class() != ScalarClass then Err(WrongClass) else ReadScalar(name, kind, found, payload)
    else match LabelFrequency(found[FrequencyKey])
      case None => Err(BadLabel)
      case Some(f) =>
        if EmptyKey in found then ReadEmpty(name, kind, found, f, payload)
        else if kind.String? then ReadStrings(store, catalog, name, found, f, payload)
        else if payload.Class() != SeriesClass then Err(WrongClass)
        else if SeriesFirst(payload).frequency != f then Err(WrongFrequency)
        else if kind.Date? then ReadDates(store, catalog, name, found, payload)
        else ReadPlain(store, catalog, name, kind, found, payload)
  }

  function ReadMigrated(store: Store, catalog: string, name: string): Read<Migrated> {
    var _ :- CheckLayout(store, catalog);
    var path := CatalogPath(catalog, name);
    if path !in store then Err(NotStored)
    else
      var found := store[path].attributes;
      match (if KindKey in found then KindNamed(found[KindKey]) else None)
      case None => Err(BadKind)
      case Some(kind) => ReadObject(store, catalog, name, kind, found, store[path].payload)
  }
}
