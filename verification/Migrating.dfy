/** Converting and storing source objects, and what an exact migration must leave behind
    (migration/_migrate.py, migration/__init__.py). */
module Migrating {
  import opened Wrappers
  import opened Bytes
  import opened Frequencies
  import opened Carriers
  import opened DataEcon
  import opened Labels
  import opened Layout
  import opened Reader
  import Values

  datatype MigrationError = Loss | Bridge(reason: ValueError) | Unstorable(why: LayoutError)

  datatype Converted =
    | OneValue(kind: Kind, item: Option<Item>, category: int, valueFrequency: Option<Frequency>)
    | NoValues(kind: Kind, frequency: Frequency, valueFrequency: Option<Frequency>)
    | ManyValues(first: Moment, column: Column, codes: seq<int>)

  // -- bridge values as the layout takes them --------------------------------------------------------

  function MemberTexts(members: seq<Text>): (r: seq<string>)
    ensures |r| == |members| && forall i :: 0 <= i < |r| ==> r[i] == Values.DecodeAscii(members[i]).GetOr("")
  {
    seq(|members|, i requires 0 <= i < |members| => Values.DecodeAscii(members[i]).GetOr(""))
  }

  function ItemOf(v: Values.Value): Option<Item> {
    match v
    case Double(bits) => Some(Number(bits))
    case Single(bits) => Some(Number(bits))
    case Bool(b) => Some(Truth(b))
    case Instant(m) => Some(Item.Instant(m))
    case Phrase(w) => if w.Str? then Some(Line(w.s)) else None
    case Names(members) => Some(Members(MemberTexts(members)))
    case _ => None
  }

  function MomentCodes(items: seq<Option<Moment>>): (r: seq<Option<int>>)
    ensures |r| == |items|
    ensures forall i :: 0 <= i < |r| ==> r[i] == if items[i].None? then None else Some(items[i].value.value)
  {
    seq(|items|, i requires 0 <= i < |items| => if items[i].None? then None else Some(items[i].value.value))
  }

  function PlainTexts(texts: seq<Option<Values.Words>>): (r: seq<Option<string>>)
    ensures |r| == |texts|
    ensures forall i :: 0 <= i < |r| ==>
            r[i] == if texts[i].Some? && texts[i].value.Str? then Some(texts[i].value.s) else None
  {
    seq(|texts|, i requires 0 <= i < |texts| =>
        if texts[i].Some? && texts[i].value.Str? then Some(texts[i].value.s) else None)
  }

  function CarrierOf(v: Values.Value): Option<Carrier> {
    match v
    case Series(first, data) =>
      (match data
       case Doubles(bits) => Some(Carrier(first, Numbers(true, bits)))
       case Singles(bits) => Some(Carrier(first, Numbers(false, bits)))
       case Bools(flags) => Some(Carrier(first, Truths(flags)))
       case _ => None)
    case Dates(first, items, f) => Some(Carrier(first, Column.Dates(f, MomentCodes(items))))
    case Strings(first, texts) => Some(Carrier(first, Lines(PlainTexts(texts))))
    case _ => None
  }

  // -- _convert ----------------------------------------------------------------------------------------

  datatype Missing = Mask | Nan

  function OptionalFrequency(code: Option<int>): Result<Option<Frequency>, MigrationError> {
    if code.None? then Ok(None)
    else match TseconFrequency(code.value)
      case Some(f) => Ok(Some(f))
      case None => Err(Bridge(UnsupportedFrequency))
  }

  function Bridged(sess: Values.Session, raw: RawObject,
      missing: Values.MissingPolicy): Result<Values.Value, MigrationError> {
    match Values.FromFame(sess, raw, missing, Values.Preserve, None, Values.Ascii)
    case Ok(v) => Ok(v)
    case Err(e) => Err(Bridge(e))
  }

  function ConvertScalar(sess: Values.Session, raw: RawObject, missing: Missing): Result<Converted, MigrationError>
    requires raw.RawScalar?
  {
    if raw.kind.Namelist? then
      var v :- Bridged(sess, raw, Values.ToNan); Ok(OneValue(Namelist, ItemOf(v), NORMAL, None))
    else
      var category := Code(raw.kind, raw.value, sess.sentinels.Of(raw.kind));
      var valueFrequency :- OptionalFrequency(raw.dateFrequency);
      if category != NORMAL then
        if missing.Mask? then Ok(OneValue(raw.kind, None, category, valueFrequency))
        else if !IsFloat(raw.kind) then Err(Loss)
        else Ok(OneValue(raw.kind, Some(Number(CanonicalNaN(raw.kind))), NORMAL, valueFrequency))
      else
        var v :- Bridged(sess, raw, Values.Strict);
        Ok(OneValue(raw.kind, ItemOf(v), NORMAL, valueFrequency))
  }

  /** Missing Booleans become False before the bridge sees them. */
  function Replaced(values: seq<Datum>, codes: seq<int>): (r: seq<Datum>)
    requires |codes| == |values|
    ensures |r| == |values| && forall i :: 0 <= i < |r| ==> r[i] == if codes[i] != NORMAL then Word(0) else values[i]
  {
    seq(|values|, i requires 0 <= i < |values| => if codes[i] != NORMAL then Word(0) else values[i])
  }

  method ReplaceInPlace(values: array<Datum>, codes: seq<int>)
    requires |codes| == values.Length
    modifies values
    ensures values[..] == Replaced(old(values[..]), codes)
  {
    for i := 0 to values.Length
      invariant forall j :: 0 <= j < i ==> values[j] == if codes[j] != NORMAL then Word(0) else old(values[j])
      invariant forall j :: i <= j < values.Length ==> values[j] == old(values[j])
    {
      if codes[i] != NORMAL {
        values[i] := Word(0);
      }
    }
  }

  function Source(sess: Values.Session, raw: RawObject): RawObject
    requires raw.RawSeries?
  {
    if raw.kind.Boolean? then raw.(values := Replaced(raw.values, Codes(Boolean, raw.values, sess.sentinels.boolean)))
    else raw
  }

  function ConvertSeries(sess: Values.Session, raw: RawObject, missing: Missing): Result<Converted, MigrationError>
    requires raw.RawSeries?
  {
    if raw.values == [] then
      var valueFrequency :- OptionalFrequency(raw.dateFrequency);
      match TseconFrequency(raw.frequency)
      case Some(f) => Ok(NoValues(raw.kind, f, valueFrequency))
      case None => Err(Bridge(UnsupportedFrequency))
    else
      var codes := Codes(raw.kind, raw.values, sess.sentinels.Of(raw.kind));
      if AnyMarked(codes) && missing.Nan? && !IsFloat(raw.kind) then Err(Loss)
      else
        var v :- Bridged(sess, Source(sess, raw), Values.ToNan);
        match CarrierOf(v)
        case Some(carrier) => Ok(ManyValues(carrier.first, carrier.column, codes))
        case None => Err(Bridge(Invalid))
  }

  function Convert(sess: Values.Session, raw: RawObject, missing: Missing): Result<Converted, MigrationError> {
    if raw.RawScalar? then ConvertScalar(sess, raw, missing) else ConvertSeries(sess, raw, missing)
  }

  /** The Boolean branch works on an owned copy that it overwrites in place. */
  method ConvertBooleans(sess: Values.Session, raw: RawObject) returns (source: RawObject)
    requires raw.RawSeries? && raw.kind.Boolean?
    ensures source == Source(sess, raw)
  {
    var codes := ClassifyBySentinel(Boolean, raw.values, sess.sentinels.boolean);
    var replaced := new Datum[|raw.values|](i requires 0 <= i < |raw.values| => raw.values[i]);
    assert replaced[..] == raw.values;
    ReplaceInPlace(replaced, codes[..]);
    source := raw.(values := replaced[..]);
  }

  // -- _store ------------------------------------------------------------------------------------------

  function StoreCalls(catalog: string, name: string, c: Converted, missing: Missing, supplied: Option<Moment>):
    Result<seq<Call>, LayoutError>
  {
    match c
    case OneValue(kind, item, category, valueFrequency) =>
      ScalarCalls(CatalogPath(catalog, name), kind, item, category, valueFrequency)
    case NoValues(kind, frequency, valueFrequency) =>
      EmptyCalls(CatalogPath(catalog, name), kind, frequency, valueFrequency, supplied)
    case ManyValues(first, column, codes) => SeriesCalls(catalog, name, first, column, codes, missing.Mask?)
  }

  method Store(db: File, catalog: string, name: string, c: Converted, missing: Missing,
      supplied: Option<Moment>) returns (ok: bool)
    modifies db
    ensures (db.nodes, ok) == Written(old(db.nodes), StoreCalls(catalog, name, c, missing, supplied), old(db.credit))
  {
    hide ScalarCalls, EmptyCalls, SeriesCalls, Run;
    match c
    case OneValue(kind, item, category, valueFrequency) =>
      ok := WriteScalar(db, catalog, name, kind, item, category, valueFrequency);
    case NoValues(kind, frequency, valueFrequency) =>
      ok := WriteEmptySeries(db, catalog, name, kind, frequency, valueFrequency, supplied);
    case ManyValues(first, column, codes) =>
      ok := WriteSeries(db, catalog, name, first, column, codes, missing.Mask?);
  }

  // -- expected_object: the independent description of an exact migration ------------------------------

  function ExpectedNumbers(name: string, first: Moment, double: bool, bits: seq<int>, codes: seq<int>,
      missing: Missing): Migrated {
    var kind := if double then Precision else Numeric;
    MigratedSeries(name, kind, Some(Carrier(first, Numbers(double, bits))),
                   if missing.Nan? then Zeros(|bits|) else codes,
                   Label(first.frequency), None, if bits == [] then "empty" else "native")
  }

  function FalseAt(flags: seq<bool>, codes: seq<int>): (r: seq<bool>)
    requires |codes| == |flags|
    ensures |r| == |flags| && forall i :: 0 <= i < |r| ==> r[i] == (flags[i] && codes[i] == NORMAL)
  {
    seq(|flags|, i requires 0 <= i < |flags| => flags[i] && codes[i] == NORMAL)
  }

  /** The object an exact migration of a series makes, from its bridge value and missing codes. */
  function ExpectedSeries(name: string, v: Values.Value, codes: seq<int>, missing: Missing): Option<Migrated> {
    match v
    case Series(first, data) =>
      (match data
       case Doubles(bits) => Some(ExpectedNumbers(name, first, true, bits, codes, missing))
       case Singles(bits) => Some(ExpectedNumbers(name, first, false, bits, codes, missing))
       case Bools(flags) =>
         if |codes| != |flags| then None
         else Some(MigratedSeries(name, Boolean, Some(Carrier(first, Truths(FalseAt(flags, codes)))), codes,
                                  Label(first.frequency), None, if flags == [] then "empty" else "native"))
       case _ => None)
    case Dates(first, items, f) =>
      Some(MigratedSeries(name, Date, Some(Carrier(first, Column.Dates(f, MomentCodes(items)))), codes,
                          Label(first.frequency), Some(Label(f)),
                          if items == [] then "empty" else if AnyMarked(codes) then "codes" else "native"))
    case Strings(first, texts) =>
      Some(MigratedSeries(name, String, Some(Carrier(first, Lines(PlainTexts(texts)))), codes,
                          Label(first.frequency), None, if texts == [] then "empty" else "text"))
    case _ => None
  }

  function ExpectedScalar(name: string, kind: Kind, v: Values.Value): Migrated {
    MigratedScalar(name, kind, ItemOf(v), NORMAL, if v.Instant? then Some(Label(v.moment.frequency)) else None)
  }

  function ExpectedMissing(name: string, kind: Kind, category: int, valueFrequency: Option<Frequency>): Migrated {
    MigratedScalar(name, kind, None, category, if valueFrequency.Some? then Some(Label(valueFrequency.value)) else None)
  }

  function ExpectedEmpty(name: string, kind: Kind, frequency: Frequency, valueFrequency: Option<Frequency>): Migrated {
    MigratedSeries(name, kind, None, [], Label(frequency),
                   if valueFrequency.Some? then Some(Label(valueFrequency.value)) else None, "empty")
  }

  /** The bridge value whose description a raw series must get. */
  function BridgeValue(sess: Values.Session, raw: RawObject): Option<Values.Value>
    requires raw.RawSeries?
  {
    match TseconFrequency(raw.frequency)
    case None => None
    case Some(f) =>
      match IndexToMit(sess.native, f, raw.firstIndex)
      case Err(_) => None
      case Ok(first) =>
        if raw.kind.Boolean? then Some(Values.Series(first, Values.Bools(Values.Flags(raw.values))))
        else match Bridged(sess, raw, Values.ToNan)
          case Ok(v) => Some(v)
          case Err(_) => None
  }

  /** What a migrated raw object must read back as. */
  function Expected(sess: Values.Session, raw: RawObject, name: string, missing: Missing,
      supplied: Option<Moment>): Option<Migrated> {
    match raw
    case RawScalar(kind, d, dateFrequency) =>
      var category := Code(kind, d, sess.sentinels.Of(kind));
      if !kind.Namelist? && category != NORMAL then
        if missing.Mask? then
          Some(ExpectedMissing(name, kind, category,
                               if dateFrequency.None? then None else TseconFrequency(dateFrequency.value)))
        else
          Some(ExpectedScalar(name, kind,
                              if kind.Precision? then Values.Double(DOUBLE_NAN) else Values.Single(SINGLE_NAN)))
      else
        (match Values.FromFame(sess, raw, Values.Strict, Values.Preserve, None, Values.Ascii)
         case Ok(v) => Some(ExpectedScalar(name, kind, v))
         case Err(_) => None)
    case RawSeries(kind, frequency, _, values, dateFrequency) =>
      if values != [] then
        (match BridgeValue(sess, raw)
         case Some(v) => ExpectedSeries(name, v, Codes(kind, values, sess.sentinels.Of(kind)), missing)
         case None => None)
      else
        match TseconFrequency(frequency)
        case None => None
        case Some(f) =>
          var valueFrequency := if dateFrequency.None? then None else TseconFrequency(dateFrequency.value);
          if supplied.None? then Some(ExpectedEmpty(name, kind, f, valueFrequency))
          else ExpectedSeries(name, Values.Empty(kind, supplied.value, valueFrequency.GetOr(Unit)), [], missing)
  }
}
