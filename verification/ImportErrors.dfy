/** Which errors and warnings the normalisation of a row lists, read off its cells. */
module ImportErrors {
  import opened Options
  import opened ImportModel
  import opened ImportRows
  import opened ImportColumns
  import opened ImportMerge

  predicate IsBlank(cell: Option<Cell>) {
    cell in {None, Some(Blank), Some(Str(""))}
  }

  /** A required field without a cell. */
  function Missing(row: Row, mapping: Mapping, field: Field): Option<Problem> {
    if IsBlank(Raw(row, mapping, field)) then Some(Required) else None
  }

  /** `problem` is what is wrong with the number in the cell of a mapped quantity. */
  ghost predicate Faulty(reader: Reader, row: Row, mapping: Mapping, field: Field, problem: Option<Problem>) {
    var cell := Raw(row, mapping, field);
    && (problem == Some(NotAnInteger) <==> cell.Some? && forall n :: !Counts(reader, cell, n))
    && (problem == Some(Negative) <==> exists n :: n < 0 && Counts(reader, cell, n))
    && problem in {None, Some(NotAnInteger), Some(Negative)}
  }

  lemma QuantityProblemIsFault(reader: Reader, row: Row, mapping: Mapping, field: Field)
    ensures Faulty(reader, row, mapping, field, QuantityProblem(reader, row, mapping, field))
  {
    RawIs(row, mapping, field);
    var cell := Raw(row, mapping, field);
    if cell.Some? {
      var parsed := IntOf(reader, cell.value);
      if parsed.Some? { assert Counts(reader, cell, parsed.value); }
    }
  }

  lemma {:induction false} ProblemsAt(
    reader: Reader, row: Row, mapping: Mapping, fields: seq<Field>, errors: map<Field, Problem>, f: Field)
    ensures Lookup(Problems(reader, row, mapping, fields, errors), f) ==
      FirstSome(if f in fields then QuantityProblem(reader, row, mapping, f) else None, Lookup(errors, f))
  {
    if fields != [] {
      var noted := Note(errors, fields[0], QuantityProblem(reader, row, mapping, fields[0]));
      ProblemsAt(reader, row, mapping, fields[1..], noted, f);
      assert f in fields <==> f == fields[0] || f in fields[1..];
    }
  }

  lemma NoteAt(errors: map<Field, Problem>, field: Field, problem: Option<Problem>, f: Field)
    ensures Lookup(Note(errors, field, problem), f)
      == FirstSome(if f == field then problem else None, Lookup(errors, f))
  {
  }

  // ---------------------------------------------------------------- the checks after the quantities

  predicate WrongChoice(row: Row, mapping: Mapping, field: Field, choices: set<string>) {
    match Raw(row, mapping, field)
    case None => false
    case Some(Str(s)) => s !in choices
    case Some(_) => true
  }

  predicate UnknownCode(reader: Reader, row: Row, mapping: Mapping) {
    match Raw(row, mapping, "box_code")
    case None => false
    case Some(c) => c !in {Blank, Str(""), Num(0), Bool(false)} && reader.show(c) !in reader.boxes
  }

  predicate StrayImage(reader: Reader, row: Row, mapping: Mapping) {
    var key := Stripped(reader, Raw(row, mapping, "image_key"));
    key != "" && !(reader.imagePrefix <= key)
  }

  /** The quantities in use exceed the total. */
  predicate TooMany(b: Buckets) {
    b.available + b.reserved + b.issued + b.damaged + b.lost > b.total
  }

  function If(condition: bool, problem: Problem): Option<Problem> {
    if condition then Some(problem) else None
  }

  lemma ChoiceProblems(row: Row, mapping: Mapping)
    ensures TrackingProblem(row, mapping)
      == If(WrongChoice(row, mapping, "tracking_mode", {"quantity", "individual"}), BadTrackingMode)
    ensures AvailabilityProblem(row, mapping)
      == If(WrongChoice(row, mapping, "public_availability_mode", {"exact_count", "status_only", "hidden"}),
            BadAvailabilityMode)
  {
    RawIs(row, mapping, "tracking_mode");
    RawIs(row, mapping, "public_availability_mode");
  }

  lemma StockProblemIs(reader: Reader, row: Row, mapping: Mapping)
    ensures StockProblem(reader, row, mapping)
      == If(Raw(row, mapping, "total_quantity").Some? && TooMany(BucketsOf(reader, row, mapping)), BucketsExceedTotal)
  {
    RawIs(row, mapping, "total_quantity");
  }

  lemma BoxProblemIs(reader: Reader, row: Row, mapping: Mapping)
    ensures BoxProblem(reader, row, mapping) == If(UnknownCode(reader, row, mapping), UnknownBox)
  {
    RawIs(row, mapping, "box_code");
  }

  lemma ImageProblemIs(reader: Reader, row: Row, mapping: Mapping)
    ensures ImageProblem(reader, row, mapping) == If(StrayImage(reader, row, mapping), ForeignImage)
  {
    StrippedIs(reader, row, mapping, "image_key");
  }

  /** What a check after the quantities finds wrong with the field. */
  function Late(reader: Reader, row: Row, mapping: Mapping, f: Field): Option<Problem> {
    if f == "tracking_mode" then If(WrongChoice(row, mapping, f, {"quantity", "individual"}), BadTrackingMode)
    else if f == "public_availability_mode" then
      If(WrongChoice(row, mapping, f, {"exact_count", "status_only", "hidden"}), BadAvailabilityMode)
    else if f == "total_quantity" then
      If(Raw(row, mapping, f).Some? && TooMany(BucketsOf(reader, row, mapping)), BucketsExceedTotal)
    else if f == "box_code" then If(UnknownCode(reader, row, mapping), UnknownBox)
    else if f == "image_key" then If(StrayImage(reader, row, mapping), ForeignImage)
    else None
  }

  lemma ChecksAt(reader: Reader, row: Row, mapping: Mapping, e0: map<Field, Problem>, f: Field)
    ensures Lookup(Checks(reader, row, mapping, e0), f) == FirstSome(Late(reader, row, mapping, f), Lookup(e0, f))
  {
    ChoiceProblems(row, mapping);
    StockProblemIs(reader, row, mapping);
    BoxProblemIs(reader, row, mapping);
    ImageProblemIs(reader, row, mapping);
    FiveNotesAt(e0, TrackingProblem(row, mapping), AvailabilityProblem(row, mapping),
      StockProblem(reader, row, mapping), BoxProblem(reader, row, mapping), ImageProblem(reader, row, mapping), f);
  }

  lemma FiveNotesAt(
    e0: map<Field, Problem>, tracking: Option<Problem>, availability: Option<Problem>, stock: Option<Problem>,
    box: Option<Problem>, image: Option<Problem>, f: Field)
    ensures Lookup(Note(Note(Note(Note(Note(e0, "tracking_mode", tracking), "public_availability_mode", availability),
                                  "total_quantity", stock), "box_code", box), "image_key", image), f)
      == FirstSome(if f == "tracking_mode" then tracking else if f == "public_availability_mode" then availability
                   else if f == "total_quantity" then stock else if f == "box_code" then box
                   else if f == "image_key" then image else None, Lookup(e0, f))
  {
    var e1 := Note(e0, "tracking_mode", tracking);
    var e2 := Note(e1, "public_availability_mode", availability);
    var e3 := Note(e2, "total_quantity", stock);
    NoteAt(e0, "tracking_mode", tracking, f);
    NoteAt(e1, "public_availability_mode", availability, f);
    NoteAt(e2, "total_quantity", stock, f);
    NoteAt(e3, "box_code", box, f);
    NoteAt(Note(e3, "box_code", box), "image_key", image, f);
  }

  // ---------------------------------------------------------------- all errors of a row

  predicate IsQuantity(f: Field) {
    f in ["total_quantity", "available_quantity", "reserved_quantity", "issued_quantity", "damaged_quantity",
          "lost_quantity"]
  }

  function FirstChecked(row: Row, mapping: Mapping, f: Field): Option<Problem> {
    if f in {"name", "total_quantity", "available_quantity"} then Missing(row, mapping, f) else None
  }

  lemma RequiredAt(row: Row, mapping: Mapping, f: Field)
    ensures Lookup(map g | g in REQUIRED && Empty(CellFor(row, mapping, g)) :: Required, f)
      == FirstChecked(row, mapping, f)
  {
    RawIs(row, mapping, f);
  }

  /**
   The error listed for a field is what the checks after the quantities say, failing that what is wrong with the
   number in it, and failing that that a required cell is blank.
   */
  lemma ErrorIs(reader: Reader, row: Row, mapping: Mapping, f: Field)
    requires Mapped(mapping, "available_quantity")
    ensures var fault := if IsQuantity(f) then QuantityProblem(reader, row, mapping, f) else None;
      && (IsQuantity(f) ==> Faulty(reader, row, mapping, f, fault))
      && Lookup(Normalize(reader, row, mapping).errors, f) ==
           FirstSome(Late(reader, row, mapping, f), FirstSome(fault, FirstChecked(row, mapping, f)))
  {
    var required := map g | g in REQUIRED && Empty(CellFor(row, mapping, g)) :: Required;
    RequiredAt(row, mapping, f);
    ProblemsAt(reader, row, mapping, QUANTITIES, required, f);
    QuantityProblemIsFault(reader, row, mapping, f);
    ChecksAt(reader, row, mapping, Problems(reader, row, mapping, QUANTITIES, required), f);
  }

  /** A warning is listed for the optional details whose mapped cell is blank. */
  lemma WarnedIff(reader: Reader, row: Row, mapping: Mapping, f: Field)
    requires Mapped(mapping, "available_quantity")
    ensures f in Normalize(reader, row, mapping).warnings <==>
      && f in {"description", "storage_location", "category", "image_key"}
      && Raw(row, mapping, f).Some? && IsBlank(Raw(row, mapping, f))
  {
    RawIs(row, mapping, f);
  }
}
