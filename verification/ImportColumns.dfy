/** Where each cell of an upload ends up: in which column of the product, in which error, in which warning. */
module ImportColumns {
  import opened Options
  import opened ImportModel
  import opened ImportRows
  import ImportMerge

  /** The cell of the field: None if the mapping names no column, and blank if the row lacks the column. */
  function Raw(row: Row, mapping: Mapping, field: Field): Option<Cell> {
    if field !in mapping || mapping[field] == "" then None
    else if mapping[field] in row then Some(row[mapping[field]])
    else Some(Blank)
  }

  lemma RawIs(row: Row, mapping: Mapping, field: Field)
    ensures Mapped(mapping, field) <==> Raw(row, mapping, field).Some?
    ensures CellFor(row, mapping, field) == match Raw(row, mapping, field) case None => Blank case Some(c) => c
  {
  }

  // ---------------------------------------------------------------- quantities

  /** The number that the cell reads as. */
  predicate Counts(reader: Reader, cell: Option<Cell>, n: int) {
    match cell
    case None => n == 0
    case Some(Blank) => false
    case Some(Num(m)) => n == m
    case Some(Bool(b)) => n == if b then 1 else 0
    case Some(Str(s)) => reader.intOf(s) == Some(n)
  }

  /** The quantity is the number in the cell of its field, or 0 if there is none. */
  ghost predicate Stores(reader: Reader, row: Row, mapping: Mapping, field: Field, stored: int) {
    Counts(reader, Raw(row, mapping, field), stored)
    || (stored == 0 && forall n :: !Counts(reader, Raw(row, mapping, field), n))
  }

  lemma QuantityIsStored(reader: Reader, row: Row, mapping: Mapping, field: Field)
    ensures Stores(reader, row, mapping, field, Quantity(reader, row, mapping, field))
  {
    RawIs(row, mapping, field);
  }

  ghost predicate StoresBuckets(reader: Reader, row: Row, mapping: Mapping, b: Buckets) {
    && Stores(reader, row, mapping, "total_quantity", b.total)
    && Stores(reader, row, mapping, "available_quantity", b.available)
    && Stores(reader, row, mapping, "reserved_quantity", b.reserved)
    && Stores(reader, row, mapping, "issued_quantity", b.issued)
    && Stores(reader, row, mapping, "damaged_quantity", b.damaged)
    && Stores(reader, row, mapping, "lost_quantity", b.lost)
    && b.needsFix == 0
  }

  lemma BucketsAreStored(reader: Reader, row: Row, mapping: Mapping)
    ensures StoresBuckets(reader, row, mapping, BucketsOf(reader, row, mapping))
  {
    QuantityIsStored(reader, row, mapping, "total_quantity");
    QuantityIsStored(reader, row, mapping, "available_quantity");
    QuantityIsStored(reader, row, mapping, "reserved_quantity");
    QuantityIsStored(reader, row, mapping, "issued_quantity");
    QuantityIsStored(reader, row, mapping, "damaged_quantity");
    QuantityIsStored(reader, row, mapping, "lost_quantity");
  }

  // ---------------------------------------------------------------- the other columns

  /** A cell as the database stores it in a column of any kind. */
  function AsStored(cell: Cell): Value {
    match cell case Blank => Null case Str(s) => Text(s) case Num(n) => Number(n) case Bool(b) => Flag(b)
  }

  /** `str(value or "").strip()` of the field's cell. */
  function Stripped(reader: Reader, cell: Option<Cell>): string {
    match cell
    case None => reader.strip("")
    case Some(Blank) => reader.strip("")
    case Some(c) => reader.strip(if c in {Str(""), Num(0), Bool(false)} then "" else reader.show(c))
  }

  predicate ShowsText(row: Row, mapping: Mapping, field: Field, fields: map<Field, Value>, kept: map<Field, Value>) {
    Lookup(fields, field) == match Raw(row, mapping, field)
      case None => Lookup(kept, field)
      case Some(c) => Some(AsStored(c))
  }

  predicate ShowsChoice(row: Row, mapping: Mapping, field: Field, default: string, fields: map<Field, Value>) {
    Lookup(fields, field) == match Raw(row, mapping, field)
      case None => Some(Text(default))
      case Some(c) => Some(AsStored(c))
  }

  predicate ShowsFlag(
    reader: Reader, row: Row, mapping: Mapping, field: Field, default: bool, fields: map<Field, Value>)
  {
    Lookup(fields, field) == match Raw(row, mapping, field)
      case None => Some(Flag(default))
      case Some(Bool(b)) => Some(Flag(b))
      case Some(c) => Some(Flag(reader.yes(reader.show(c))))
  }

  predicate ShowsTexts(
    reader: Reader, row: Row, mapping: Mapping, fields: map<Field, Value>, kept: map<Field, Value>)
  {
    && ShowsText(row, mapping, "description", fields, kept)
    && ShowsText(row, mapping, "storage_location", fields, kept)
    && Lookup(fields, "image_key") == Some(Text(Stripped(reader, Raw(row, mapping, "image_key"))))
  }

  predicate ShowsFlags(reader: Reader, row: Row, mapping: Mapping, fields: map<Field, Value>) {
    && ShowsFlag(reader, row, mapping, "is_public", true, fields)
    && ShowsFlag(reader, row, mapping, "public_self_checkout_enabled", false, fields)
    && ShowsFlag(reader, row, mapping, "show_public_count", false, fields)
  }

  predicate ShowsChoices(row: Row, mapping: Mapping, fields: map<Field, Value>) {
    && ShowsChoice(row, mapping, "tracking_mode", "quantity", fields)
    && ShowsChoice(row, mapping, "public_availability_mode", "status_only", fields)
  }

  /** A reference to the box that the code names; without a code the box is cleared. */
  predicate ShowsBox(reader: Reader, row: Row, mapping: Mapping, fields: map<Field, Value>) {
    Lookup(fields, "box") == match Raw(row, mapping, "box_code")
      case None => Some(Null)
      case Some(c) =>
        if c in {Blank, Str(""), Num(0), Bool(false)} || reader.show(c) !in reader.boxes then Some(Null)
        else Some(Ref(reader.boxes[reader.show(c)]))
  }

  /** A reference to the category of that name; without a name the category is left as it was. */
  predicate ShowsCategory(
    reader: Reader, row: Row, mapping: Mapping, env: Env, t: Table, fields: map<Field, Value>, kept: map<Field, Value>)
  {
    var name := Stripped(reader, Raw(row, mapping, "category"));
    if name == "" then Lookup(fields, "category_id") == Lookup(kept, "category_id")
    else env.fold(name) in t.categories && Lookup(fields, "category_id") == Some(Ref(t.categories[env.fold(name)]))
  }

  /** Every column of the product besides the quantities, where `kept` are the values before. */
  predicate ShowsRow(
    reader: Reader, row: Row, mapping: Mapping, env: Env, t: Table, fields: map<Field, Value>, kept: map<Field, Value>)
  {
    && ShowsTexts(reader, row, mapping, fields, kept)
    && ShowsFlags(reader, row, mapping, fields)
    && ShowsChoices(row, mapping, fields)
    && ShowsBox(reader, row, mapping, fields)
    && ShowsCategory(reader, row, mapping, env, t, fields, kept)
  }

  lemma StrippedIs(reader: Reader, row: Row, mapping: Mapping, field: Field)
    ensures TrimmedText(reader, CellFor(row, mapping, field)) == Stripped(reader, Raw(row, mapping, field))
  {
  }

  lemma FlagIs(reader: Reader, row: Row, mapping: Mapping, field: Field, default: bool)
    ensures var flag := Flag(FlagOf(reader, row, mapping, field, default));
      ShowsFlag(reader, row, mapping, field, default, map[field := flag])
  {
    RawIs(row, mapping, field);
  }

  lemma ChoiceIs(row: Row, mapping: Mapping, field: Field, default: string)
    ensures ShowsChoice(row, mapping, field, default, map[field := ToValue(ChoiceOf(row, mapping, field, default))])
  {
    RawIs(row, mapping, field);
  }

  /** The columns that every row sets. */
  lemma AlwaysSetShows(reader: Reader, row: Row, mapping: Mapping)
    ensures var fields := AlwaysSet(reader, row, mapping);
      && fields.Keys == {"image_key", "is_public", "public_self_checkout_enabled", "show_public_count",
                         "tracking_mode", "public_availability_mode"}
      && ShowsFlags(reader, row, mapping, fields)
      && ShowsChoices(row, mapping, fields)
      && fields["image_key"] == Text(Stripped(reader, Raw(row, mapping, "image_key")))
  {
    FlagIs(reader, row, mapping, "is_public", true);
    FlagIs(reader, row, mapping, "public_self_checkout_enabled", false);
    FlagIs(reader, row, mapping, "show_public_count", false);
    ChoiceIs(row, mapping, "tracking_mode", "quantity");
    ChoiceIs(row, mapping, "public_availability_mode", "status_only");
    StrippedIs(reader, row, mapping, "image_key");
  }

  lemma DetailsShow(row: Row, mapping: Mapping, kept: map<Field, Value>)
    ensures DetailsOf(row, mapping).Keys <= {"description", "storage_location"}
    ensures ShowsText(row, mapping, "description", kept + DetailsOf(row, mapping), kept)
    ensures ShowsText(row, mapping, "storage_location", kept + DetailsOf(row, mapping), kept)
  {
    RawIs(row, mapping, "description");
    RawIs(row, mapping, "storage_location");
  }

  /** Two maps have the same columns of a row, box and category aside. */
  ghost predicate SameColumns(a: map<Field, Value>, b: map<Field, Value>) {
    forall f :: f != "box" && f != "category_id" ==> Lookup(a, f) == Lookup(b, f)
  }

  lemma SameColumnsShowTexts(
    reader: Reader, row: Row, mapping: Mapping, a: map<Field, Value>, b: map<Field, Value>, kept: map<Field, Value>)
    requires SameColumns(a, b) && ShowsTexts(reader, row, mapping, a, kept)
    ensures ShowsTexts(reader, row, mapping, b, kept)
  {
  }

  lemma SameColumnsShowFlags(
    reader: Reader, row: Row, mapping: Mapping, a: map<Field, Value>, b: map<Field, Value>)
    requires SameColumns(a, b) && ShowsFlags(reader, row, mapping, a)
    ensures ShowsFlags(reader, row, mapping, b)
  {
  }

  lemma SameColumnsShowChoices(row: Row, mapping: Mapping, a: map<Field, Value>, b: map<Field, Value>)
    requires SameColumns(a, b) && ShowsChoices(row, mapping, a)
    ensures ShowsChoices(row, mapping, b)
  {
  }

  lemma LaidOver(kept: map<Field, Value>, always: map<Field, Value>, details: map<Field, Value>, field: Field)
    ensures field !in always ==> Lookup(kept + (always + details), field) == Lookup(kept + details, field)
    ensures field in always && field !in details ==> Lookup(kept + (always + details), field) == Some(always[field])
  {
  }

  lemma TextsShow(reader: Reader, row: Row, mapping: Mapping, kept: map<Field, Value>)
    ensures ShowsTexts(reader, row, mapping, kept + FieldsOf(reader, row, mapping), kept)
  {
    var always, details := AlwaysSet(reader, row, mapping), DetailsOf(row, mapping);
    AlwaysSetShows(reader, row, mapping);
    DetailsShow(row, mapping, kept);
    LaidOver(kept, always, details, "description");
    LaidOver(kept, always, details, "storage_location");
    LaidOver(kept, always, details, "image_key");
  }

  lemma FlagsShow(reader: Reader, row: Row, mapping: Mapping, kept: map<Field, Value>)
    ensures ShowsFlags(reader, row, mapping, kept + FieldsOf(reader, row, mapping))
  {
    var always, details := AlwaysSet(reader, row, mapping), DetailsOf(row, mapping);
    AlwaysSetShows(reader, row, mapping);
    DetailsShow(row, mapping, kept);
    LaidOver(kept, always, details, "is_public");
    LaidOver(kept, always, details, "public_self_checkout_enabled");
    LaidOver(kept, always, details, "show_public_count");
  }

  lemma ChoicesShow(reader: Reader, row: Row, mapping: Mapping, kept: map<Field, Value>)
    ensures ShowsChoices(row, mapping, kept + FieldsOf(reader, row, mapping))
  {
    var always, details := AlwaysSet(reader, row, mapping), DetailsOf(row, mapping);
    AlwaysSetShows(reader, row, mapping);
    DetailsShow(row, mapping, kept);
    LaidOver(kept, always, details, "tracking_mode");
    LaidOver(kept, always, details, "public_availability_mode");
  }

  lemma NoSuchFields(reader: Reader, row: Row, mapping: Mapping)
    ensures "box" !in FieldsOf(reader, row, mapping) && "category_id" !in FieldsOf(reader, row, mapping)
  {
    AlwaysSetShows(reader, row, mapping);
  }

  lemma SetsKeepColumns(item: Item, env: Env, categories: map<string, CategoryId>, kept: map<Field, Value>)
    ensures SameColumns(kept + item.fields, kept + Sets(item, env, categories))
  {
  }

  lemma NormalizedFields(reader: Reader, row: Row, mapping: Mapping)
    requires Mapped(mapping, "available_quantity")
    ensures Normalize(reader, row, mapping).item.fields == FieldsOf(reader, row, mapping)
    ensures Normalize(reader, row, mapping).item.buckets == BucketsOf(reader, row, mapping)
  {
  }

  /** The columns of a product after the row has been written over the kept ones. */
  lemma SetsShow(reader: Reader, row: Row, mapping: Mapping, env: Env, t: Table, kept: map<Field, Value>)
    requires Mapped(mapping, "available_quantity")
    requires var category := Normalize(reader, row, mapping).item.category;
      category.Some? ==> env.fold(category.value) in t.categories
    ensures var fields := kept + Sets(Normalize(reader, row, mapping).item, env, t.categories);
      ShowsRow(reader, row, mapping, env, t, fields, kept)
  {
    var item := Normalize(reader, row, mapping).item;
    NormalizedFields(reader, row, mapping);
    TextsShow(reader, row, mapping, kept);
    FlagsShow(reader, row, mapping, kept);
    ChoicesShow(reader, row, mapping, kept);
    SetsKeepColumns(item, env, t.categories, kept);
    var plain, fields := kept + item.fields, kept + Sets(item, env, t.categories);
    SameColumnsShowTexts(reader, row, mapping, plain, fields, kept);
    SameColumnsShowFlags(reader, row, mapping, plain, fields);
    SameColumnsShowChoices(row, mapping, plain, fields);
    BoxShows(reader, row, mapping, env, t, kept);
    CategoryShows(reader, row, mapping, env, t, kept);
  }

  lemma BoxShows(reader: Reader, row: Row, mapping: Mapping, env: Env, t: Table, kept: map<Field, Value>)
    requires Mapped(mapping, "available_quantity")
    ensures ShowsBox(reader, row, mapping, kept + Sets(Normalize(reader, row, mapping).item, env, t.categories))
  {
    RawIs(row, mapping, "box_code");
  }

  lemma CategoryShows(reader: Reader, row: Row, mapping: Mapping, env: Env, t: Table, kept: map<Field, Value>)
    requires Mapped(mapping, "available_quantity")
    requires var category := Normalize(reader, row, mapping).item.category;
      category.Some? ==> env.fold(category.value) in t.categories
    ensures var fields := kept + Sets(Normalize(reader, row, mapping).item, env, t.categories);
      ShowsCategory(reader, row, mapping, env, t, fields, kept)
  {
    StrippedIs(reader, row, mapping, "category");
    NoSuchFields(reader, row, mapping);
  }

  // ---------------------------------------------------------------- the product

  /** The text of the name cell. */
  predicate IsName(reader: Reader, row: Row, mapping: Mapping, name: Name) {
    match Raw(row, mapping, "name")
    case None => name == ""
    case Some(Blank) => name == ""
    case Some(Str(s)) => name == s
    case Some(c) => name == reader.show(c)
  }

  /** The columns of a product table that a row may leave out. */
  const BLANK_COLUMNS: map<Field, Value> := map[
    "description" := Text(""), "storage_location" := Text(""), "category_id" := Null]

  lemma BlankColumnsAreDefaults(
    reader: Reader, row: Row, mapping: Mapping, env: Env, t: Table, fields: map<Field, Value>)
    requires ShowsRow(reader, row, mapping, env, t, fields, COLUMN_DEFAULTS)
    ensures ShowsRow(reader, row, mapping, env, t, fields, BLANK_COLUMNS)
  {
  }

  lemma RowCategoryIsKnown(t: Table, env: Env, item: Item)
    ensures item.category.Some? ==> env.fold(item.category.value) in WithRowCategory(t, env, item).categories
    ensures WithRowCategory(t, env, item).products == t.products
  {
  }

  /**
   An uploaded row that is not rejected leaves a product under its name which shows its cells: a new one with the
   quantities of the row, an existing one with its own quantities. No other product changes.
   */
  lemma ProductShowsRow(t: Table, env: Env, reader: Reader, row: Row, mapping: Mapping)
    requires Mapped(mapping, "available_quantity")
    requires ApplyRow(t, env, Normalize(reader, row, mapping).item).1 != Rejected
    ensures var name := Normalize(reader, row, mapping).item.name;
      var r := ApplyRow(t, env, Normalize(reader, row, mapping).item);
      && IsName(reader, row, mapping, name)
      && name in r.0.products && r.0.products == t.products[name := r.0.products[name]]
      && var product := r.0.products[name];
      && (name !in t.products ==>
            && r.1 == Created && StoresBuckets(reader, row, mapping, product.buckets)
            && ShowsRow(reader, row, mapping, env, r.0, product.fields, BLANK_COLUMNS))
      && (name in t.products ==>
            && r.1 == Updated && product.buckets == t.products[name].buckets
            && ShowsRow(reader, row, mapping, env, r.0, product.fields, t.products[name].fields))
  {
    var item := Normalize(reader, row, mapping).item;
    RawIs(row, mapping, "name");
    BucketsAreStored(reader, row, mapping);
    NormalizedFields(reader, row, mapping);
    RowCategoryIsKnown(t, env, item);
    RowWritesProduct(t, env, item);
    var t1 := WithRowCategory(t, env, item);
    var r := ApplyRow(t, env, item).0;
    var kept := ImportMerge.BaseFields(t, item.name);
    SetsShow(reader, row, mapping, env, t1, kept);
    SameCategoriesShow(reader, row, mapping, env, t1, r, r.products[item.name].fields, kept);
    if item.name !in t.products { BlankColumnsAreDefaults(reader, row, mapping, env, r, r.products[item.name].fields); }
  }

  lemma RowWritesProduct(t: Table, env: Env, item: Item)
    requires ApplyRow(t, env, item).1 != Rejected
    ensures var r := ApplyRow(t, env, item); var t1 := WithRowCategory(t, env, item);
      && r.0.categories == t1.categories
      && item.name in r.0.products && r.0.products == t.products[item.name := r.0.products[item.name]]
      && var product := r.0.products[item.name];
      && product.fields == ImportMerge.BaseFields(t, item.name) + Sets(item, env, t1.categories)
      && (item.name in t.products ==> r.1 == Updated && product.buckets == t.products[item.name].buckets)
      && (item.name !in t.products ==> r.1 == Created && product.buckets == item.buckets)
  {
    RowCategoryIsKnown(t, env, item);
  }

  lemma SameCategoriesShow(
    reader: Reader, row: Row, mapping: Mapping, env: Env, t: Table, t': Table, fields: map<Field, Value>,
    kept: map<Field, Value>)
    requires t'.categories == t.categories && ShowsRow(reader, row, mapping, env, t, fields, kept)
    ensures ShowsRow(reader, row, mapping, env, t', fields, kept)
  {
  }
}
