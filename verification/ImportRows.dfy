/** From the cells of an uploaded row to a normalised item, or to the reasons why not. */
module ImportRows {
  import opened Options
  import opened ImportModel
  import ImportMerge

  datatype Cell = Blank | Str(s: string) | Num(n: int) | Bool(b: bool)

  type Row = map<string, Cell>

  /** Field to column; an empty column name counts as unmapped. */
  type Mapping = map<Field, string>

  /** Python's int(), str(), str.strip() and the set of truthy words, and what the makerspace owns. */
  datatype Reader = Reader(
    intOf: string -> Option<int>,
    show: Cell -> string,
    strip: string -> string,
    yes: string -> bool,
    boxes: map<string, BoxId>,
    imagePrefix: string)

  datatype Problem =
    | Required | NotAnInteger | Negative | BucketsExceedTotal | BadTrackingMode | BadAvailabilityMode
    | UnknownBox | ForeignImage

  /** `name` is the cell as uploaded; `item.name` is the text that the database stores and looks up. */
  datatype Normalized = Normalized(item: Item, name: Cell, errors: map<Field, Problem>, warnings: set<Field>)

  const REQUIRED: set<Field> := {"name", "total_quantity", "available_quantity"}
  const QUANTITIES: seq<Field> := ["total_quantity", "available_quantity", "reserved_quantity", "issued_quantity",
    "damaged_quantity", "lost_quantity"]
  const DETAILS: set<Field> := {"description", "storage_location", "category", "image_key"}
  const TRACKING_MODES: set<string> := {"quantity", "individual"}
  const AVAILABILITY_MODES: set<string> := {"exact_count", "status_only", "hidden"}

  predicate Mapped(mapping: Mapping, field: Field) {
    field in mapping && mapping[field] != ""
  }

  /** The cell under the mapped column; a column the row lacks reads as blank. */
  function CellFor(row: Row, mapping: Mapping, field: Field): Cell {
    if Mapped(mapping, field) && mapping[field] in row then row[mapping[field]] else Blank
  }

  predicate Empty(cell: Cell) {
    cell == Blank || cell == Str("")
  }

  predicate Truthy(cell: Cell) {
    match cell case Blank => false case Str(s) => s != "" case Num(n) => n != 0 case Bool(b) => b
  }

  /** `_int_value`: what int() makes of the cell, if anything. */
  function IntOf(reader: Reader, cell: Cell): Option<int> {
    match cell
    case Blank => None
    case Str(s) => reader.intOf(s)
    case Num(n) => Some(n)
    case Bool(b) => Some(if b then 1 else 0)
  }

  function Quantity(reader: Reader, row: Row, mapping: Mapping, field: Field): int {
    if !Mapped(mapping, field) then 0
    else
      var parsed := IntOf(reader, CellFor(row, mapping, field));
      if parsed.Some? then parsed.value else 0
  }

  function QuantityProblem(reader: Reader, row: Row, mapping: Mapping, field: Field): Option<Problem> {
    if !Mapped(mapping, field) then None
    else
      var parsed := IntOf(reader, CellFor(row, mapping, field));
      if parsed.None? then Some(NotAnInteger) else if parsed.value < 0 then Some(Negative) else None
  }

  function Note(errors: map<Field, Problem>, field: Field, problem: Option<Problem>): map<Field, Problem> {
    if problem.Some? then errors[field := problem.value] else errors
  }

  function Problems(
    reader: Reader, row: Row, mapping: Mapping, fields: seq<Field>, errors: map<Field, Problem>): map<Field, Problem>
  {
    if fields == [] then errors
    else Problems(reader, row, mapping, fields[1..],
                  Note(errors, fields[0], QuantityProblem(reader, row, mapping, fields[0])))
  }

  function BucketsOf(reader: Reader, row: Row, mapping: Mapping): Buckets {
    Buckets(
      Quantity(reader, row, mapping, "total_quantity"),
      Quantity(reader, row, mapping, "available_quantity"),
      Quantity(reader, row, mapping, "reserved_quantity"),
      Quantity(reader, row, mapping, "issued_quantity"),
      Quantity(reader, row, mapping, "damaged_quantity"),
      Quantity(reader, row, mapping, "lost_quantity"),
      0)
  }

  function Used(b: Buckets): int {
    b.available + b.reserved + b.issued + b.damaged + b.lost
  }

  function ToValue(cell: Cell): Value {
    match cell case Blank => Null case Str(s) => Text(s) case Num(n) => Number(n) case Bool(b) => Flag(b)
  }

  function FlagOf(reader: Reader, row: Row, mapping: Mapping, field: Field, default: bool): bool {
    if !Mapped(mapping, field) then default
    else
      var cell := CellFor(row, mapping, field);
      if cell.Bool? then cell.b else reader.yes(reader.show(cell))
  }

  /** A choice column: the default when unmapped, otherwise the cell, whatever it holds. */
  function ChoiceOf(row: Row, mapping: Mapping, field: Field, default: string): Cell {
    if Mapped(mapping, field) then CellFor(row, mapping, field) else Str(default)
  }

  predicate IsChoice(cell: Cell, choices: set<string>) {
    cell.Str? && cell.s in choices
  }

  /** `str(value or "").strip()` */
  function TrimmedText(reader: Reader, cell: Cell): string {
    reader.strip(if Truthy(cell) then reader.show(cell) else "")
  }

  function FieldsOf(reader: Reader, row: Row, mapping: Mapping): map<Field, Value> {
    AlwaysSet(reader, row, mapping) + DetailsOf(row, mapping)
  }

  /** The columns that a row sets only if the mapping has them. */
  function DetailsOf(row: Row, mapping: Mapping): map<Field, Value> {
    map f | f in {"description", "storage_location"} && Mapped(mapping, f) :: ToValue(CellFor(row, mapping, f))
  }

  function AlwaysSet(reader: Reader, row: Row, mapping: Mapping): map<Field, Value> {
    map[
      "image_key" := Text(TrimmedText(reader, CellFor(row, mapping, "image_key"))),
      "is_public" := Flag(FlagOf(reader, row, mapping, "is_public", true)),
      "public_self_checkout_enabled" := Flag(FlagOf(reader, row, mapping, "public_self_checkout_enabled", false)),
      "show_public_count" := Flag(FlagOf(reader, row, mapping, "show_public_count", false)),
      "tracking_mode" := ToValue(ChoiceOf(row, mapping, "tracking_mode", "quantity")),
      "public_availability_mode" := ToValue(ChoiceOf(row, mapping, "public_availability_mode", "status_only"))]
  }

  function TrackingProblem(row: Row, mapping: Mapping): Option<Problem> {
    if IsChoice(ChoiceOf(row, mapping, "tracking_mode", "quantity"), TRACKING_MODES) then None
    else Some(BadTrackingMode)
  }

  function AvailabilityProblem(row: Row, mapping: Mapping): Option<Problem> {
    if IsChoice(ChoiceOf(row, mapping, "public_availability_mode", "status_only"), AVAILABILITY_MODES) then None
    else Some(BadAvailabilityMode)
  }

  function StockProblem(reader: Reader, row: Row, mapping: Mapping): Option<Problem> {
    var buckets := BucketsOf(reader, row, mapping);
    if Mapped(mapping, "total_quantity") && Used(buckets) > buckets.total then Some(BucketsExceedTotal) else None
  }

  function BoxProblem(reader: Reader, row: Row, mapping: Mapping): Option<Problem> {
    var cell := CellFor(row, mapping, "box_code");
    if Truthy(cell) && reader.show(cell) !in reader.boxes then Some(UnknownBox) else None
  }

  function ImageProblem(reader: Reader, row: Row, mapping: Mapping): Option<Problem> {
    var image := TrimmedText(reader, CellFor(row, mapping, "image_key"));
    if image != "" && !(reader.imagePrefix <= image) then Some(ForeignImage) else None
  }

  /** The checks after the quantities, in their order. */
  function Checks(reader: Reader, row: Row, mapping: Mapping, e0: map<Field, Problem>): map<Field, Problem> {
    var e1 := Note(e0, "tracking_mode", TrackingProblem(row, mapping));
    var e2 := Note(e1, "public_availability_mode", AvailabilityProblem(row, mapping));
    var e3 := Note(e2, "total_quantity", StockProblem(reader, row, mapping));
    var e4 := Note(e3, "box_code", BoxProblem(reader, row, mapping));
    Note(e4, "image_key", ImageProblem(reader, row, mapping))
  }

  function NameText(reader: Reader, name: Cell): string {
    match name case Blank => "" case Str(s) => s case Num(_) => reader.show(name) case Bool(_) => reader.show(name)
  }

  /** `_normalize_row`; it reads the available quantity whether or not the mapping has it. */
  function Normalize(reader: Reader, row: Row, mapping: Mapping): (r: Normalized)
    requires Mapped(mapping, "available_quantity")
  {
    var required := map f | f in REQUIRED && Empty(CellFor(row, mapping, f)) :: Required;
    var warnings := set f | f in DETAILS && Mapped(mapping, f) && Empty(CellFor(row, mapping, f));
    var buckets := BucketsOf(reader, row, mapping);
    var boxCell := CellFor(row, mapping, "box_code");
    var box := if Truthy(boxCell) then Lookup(reader.boxes, reader.show(boxCell)) else None;
    var category := TrimmedText(reader, CellFor(row, mapping, "category"));
    var errors := Checks(reader, row, mapping, Problems(reader, row, mapping, QUANTITIES, required));
    var name := CellFor(row, mapping, "name");
    Normalized(
      Item(NameText(reader, name), buckets, FieldsOf(reader, row, mapping), box,
           if category == "" then None else Some(category)),
      name, errors, warnings)
  }

  // ---------------------------------------------------------------- which rows pass

  /** A non-negative whole number, or no such column at all. */
  predicate GoodQuantity(reader: Reader, row: Row, mapping: Mapping, field: Field) {
    Mapped(mapping, field) ==>
      var parsed := IntOf(reader, CellFor(row, mapping, field));
      parsed.Some? && parsed.value >= 0
  }

  predicate PassesChecks(reader: Reader, row: Row, mapping: Mapping) {
    && (Mapped(mapping, "total_quantity") ==>
          Used(BucketsOf(reader, row, mapping)) <= BucketsOf(reader, row, mapping).total)
    && IsChoice(ChoiceOf(row, mapping, "tracking_mode", "quantity"), TRACKING_MODES)
    && IsChoice(ChoiceOf(row, mapping, "public_availability_mode", "status_only"), AVAILABILITY_MODES)
    && (Truthy(CellFor(row, mapping, "box_code")) ==> reader.show(CellFor(row, mapping, "box_code")) in reader.boxes)
    && var image := TrimmedText(reader, CellFor(row, mapping, "image_key"));
       image != "" ==> reader.imagePrefix <= image
  }

  /** The row is fit to be applied, stated without the error bookkeeping. */
  ghost predicate Acceptable(reader: Reader, row: Row, mapping: Mapping) {
    && (forall f :: f in REQUIRED ==> !Empty(CellFor(row, mapping, f)))
    && (forall k :: 0 <= k < |QUANTITIES| ==> GoodQuantity(reader, row, mapping, QUANTITIES[k]))
    && PassesChecks(reader, row, mapping)
  }

  lemma {:induction false} ProblemsEmptyIff(
    reader: Reader, row: Row, mapping: Mapping, fields: seq<Field>, errors: map<Field, Problem>)
    ensures Problems(reader, row, mapping, fields, errors) == map[]
      <==> errors == map[] && forall k :: 0 <= k < |fields| ==> GoodQuantity(reader, row, mapping, fields[k])
  {
    if fields != [] {
      var noted := Note(errors, fields[0], QuantityProblem(reader, row, mapping, fields[0]));
      ProblemsEmptyIff(reader, row, mapping, fields[1..], noted);
      NoteEmptyIff(errors, fields[0], QuantityProblem(reader, row, mapping, fields[0]));
      forall k | 0 <= k < |fields|
        && forall j :: 0 <= j < |fields[1..]| ==> GoodQuantity(reader, row, mapping, fields[1..][j])
        ensures k > 0 ==> GoodQuantity(reader, row, mapping, fields[k])
      {
        if k > 0 { assert fields[k] == fields[1..][k - 1]; }
      }
    }
  }

  lemma NoteEmptyIff(errors: map<Field, Problem>, field: Field, problem: Option<Problem>)
    ensures Note(errors, field, problem) == map[] <==> errors == map[] && problem.None?
  {
    if problem.Some? { assert field in Note(errors, field, problem); }
  }

  lemma NoteKeepsErrors()
    ensures forall errors, field, problem ::
      Note(errors, field, problem) == map[] <==> errors == map[] && problem.None?
  {
    forall errors: map<Field, Problem>, field, problem
      ensures Note(errors, field, problem) == map[] <==> errors == map[] && problem.None?
    {
      NoteEmptyIff(errors, field, problem);
    }
  }

  /** Normalisation reports no error exactly for the acceptable rows. */
  lemma NoErrorsIffAcceptable(reader: Reader, row: Row, mapping: Mapping)
    requires Mapped(mapping, "available_quantity")
    ensures Normalize(reader, row, mapping).errors == map[] <==> Acceptable(reader, row, mapping)
  {
    var required := map f | f in REQUIRED && Empty(CellFor(row, mapping, f)) :: Required;
    assert required == map[] <==> forall f :: f in REQUIRED ==> !Empty(CellFor(row, mapping, f)) by {
      if required == map[] {
        forall f | f in REQUIRED ensures !Empty(CellFor(row, mapping, f)) { assert f !in required; }
      }
    }
    ProblemsEmptyIff(reader, row, mapping, QUANTITIES, required);
    var e0 := Problems(reader, row, mapping, QUANTITIES, required);
    ChecksEmptyIff(reader, row, mapping, e0);
  }

  lemma ChecksEmptyIff(reader: Reader, row: Row, mapping: Mapping, e0: map<Field, Problem>)
    ensures Checks(reader, row, mapping, e0) == map[] <==> e0 == map[] && PassesChecks(reader, row, mapping)
  {
    FiveNotesEmptyIff(e0, TrackingProblem(row, mapping), AvailabilityProblem(row, mapping),
      StockProblem(reader, row, mapping), BoxProblem(reader, row, mapping), ImageProblem(reader, row, mapping));
  }

  lemma FiveNotesEmptyIff(
    e0: map<Field, Problem>,
    tracking: Option<Problem>, availability: Option<Problem>, stock: Option<Problem>, box: Option<Problem>,
    image: Option<Problem>)
    ensures Note(Note(Note(Note(Note(e0, "tracking_mode", tracking), "public_availability_mode", availability),
                           "total_quantity", stock), "box_code", box), "image_key", image) == map[]
      <==> e0 == map[] && tracking.None? && availability.None? && stock.None? && box.None? && image.None?
  {
    NoteKeepsErrors();
  }

  /** A column that the mapping leaves out has its default value in a new product. */
  lemma UnmappedColumnsTakeDefaults(reader: Reader, row: Row, mapping: Mapping, field: Field)
    requires reader.strip("") == "" && !Mapped(mapping, field)
    requires field in COLUMN_DEFAULTS
    ensures (COLUMN_DEFAULTS + FieldsOf(reader, row, mapping))[field] == COLUMN_DEFAULTS[field]
  {
    var always := AlwaysSet(reader, row, mapping);
    assert field in FieldsOf(reader, row, mapping) <==> field in always;
    if field in always { UnmappedTakesDefault(reader, row, mapping, field); }
  }

  lemma UnmappedTakesDefault(reader: Reader, row: Row, mapping: Mapping, field: Field)
    requires reader.strip("") == "" && !Mapped(mapping, field)
    requires field in AlwaysSet(reader, row, mapping)
    ensures field in COLUMN_DEFAULTS && AlwaysSet(reader, row, mapping)[field] == COLUMN_DEFAULTS[field]
  {
  }

  /** A product created from an acceptable row satisfies the stock constraints. */
  lemma AcceptableRowsHoldStock(reader: Reader, row: Row, mapping: Mapping)
    requires Mapped(mapping, "available_quantity") && Normalize(reader, row, mapping).errors == map[]
    ensures ImportMerge.StockHolds(Normalize(reader, row, mapping).item.buckets)
    ensures CellFor(row, mapping, "name").Str? ==> Normalize(reader, row, mapping).item.name != ""
  {
    NoErrorsIffAcceptable(reader, row, mapping);
    assert forall k :: 0 <= k < |QUANTITIES| ==> Quantity(reader, row, mapping, QUANTITIES[k]) >= 0;
    assert QUANTITIES[0] == "total_quantity" && QUANTITIES[1] == "available_quantity"
      && QUANTITIES[2] == "reserved_quantity" && QUANTITIES[3] == "issued_quantity"
      && QUANTITIES[4] == "damaged_quantity" && QUANTITIES[5] == "lost_quantity";
  }
}
