/** The product quota that an import asks for, and how many products it then creates. */
module ImportQuota {
  import opened ImportModel
  import opened ImportMerge
  import opened ImportRows
  import opened ImportPreview

  /** Python's set takes True for the number 1 and False for 0. */
  function SetKey(cell: Cell): Cell {
    if cell.Bool? then Num(if cell.b then 1 else 0) else cell
  }

  function ImportNames(rows: seq<PreviewRow>): set<Cell> {
    set k | 0 <= k < |rows| && rows[k].action != Error :: SetKey(rows[k].data.name)
  }

  /** The names that the database returns are texts. */
  function Stored(existing: set<Name>): set<Cell> {
    set n | n in existing :: Str(n)
  }

  /** `len(import_names - existing_names)`: names as uploaded, less the texts that the database has. */
  function QuotaAsked(rows: seq<PreviewRow>, existing: set<Name>): nat {
    |ImportNames(rows) - Stored(existing)|
  }

  // ---------------------------------------------------------------- cells and the texts they are stored as

  function RawNames(rows: seq<PreviewRow>): set<Cell> {
    set k | 0 <= k < |rows| && rows[k].action != Error :: rows[k].data.name
  }

  /** The name cells that the database does not return. */
  function Asking(rows: seq<PreviewRow>, existing: set<Name>): set<Cell> {
    RawNames(rows) - Stored(existing)
  }

  function Texts(reader: Reader, cells: set<Cell>): set<Name> {
    set c | c in cells :: NameText(reader, c)
  }

  /** The cells are stored as different texts, and no product has any of them. */
  predicate Faithful(reader: Reader, cells: set<Cell>, existing: set<Name>) {
    && (forall c :: c in cells ==> NameText(reader, c) !in existing)
    && forall c, d :: c in cells && d in cells && NameText(reader, c) == NameText(reader, d) ==> c == d
  }

  /** The set of import names holds one element for two rows. */
  predicate Merges(rows: seq<PreviewRow>) {
    Bool(true) in RawNames(rows) && Num(1) in RawNames(rows)
  }

  /** Applicable rows have a name that is not False, and are stored under its text. */
  predicate Named(reader: Reader, rows: seq<PreviewRow>) {
    forall k :: 0 <= k < |rows| && rows[k].action != Error ==>
      rows[k].data.name != Bool(false) && rows[k].data.item.name == NameText(reader, rows[k].data.name)
  }

  lemma RightPreviewIsNamed(
    preview: seq<PreviewRow>, reader: Reader, rows: seq<Row>, mapping: Mapping, existing: set<Name>)
    requires Mapped(mapping, "available_quantity") && RightPreview(preview, reader, rows, mapping, existing)
    ensures Named(reader, preview)
  {
    forall k | 0 <= k < |preview| && preview[k].action != Error
      ensures preview[k].data.name != Bool(false)
      ensures preview[k].data.item.name == NameText(reader, preview[k].data.name)
    {
      assert RightLabel(preview[k], reader, rows[k], mapping, existing, k);
    }
  }

  // ---------------------------------------------------------------- counting

  lemma OneMoreText(reader: Reader, cells: set<Cell>, c: Cell, existing: set<Name>)
    requires c in cells
    ensures var rest := Texts(reader, cells - {c}); var text := NameText(reader, c);
      && Texts(reader, cells) == rest + {text}
      && |Texts(reader, cells) - existing| == |rest - existing| + if text !in existing + rest then 1 else 0
  {
    var rest, text := Texts(reader, cells - {c}), NameText(reader, c);
    assert Texts(reader, cells) == rest + {text};
    OneMoreOutside(rest, text, existing);
  }

  lemma OneMoreFaithful(reader: Reader, cells: set<Cell>, c: Cell, existing: set<Name>)
    requires c in cells
    ensures Faithful(reader, cells, existing) <==>
      && Faithful(reader, cells - {c}, existing)
      && NameText(reader, c) !in existing + Texts(reader, cells - {c})
  {
  }

  /** Cells have at most as many new texts as there are cells, and as many only when they are faithful. */
  lemma {:induction false} TextsFit(reader: Reader, cells: set<Cell>, existing: set<Name>)
    ensures |Texts(reader, cells) - existing| <= |cells|
    ensures |Texts(reader, cells) - existing| == |cells| <==> Faithful(reader, cells, existing)
    decreases |cells|
  {
    if cells == {} {
      assert Texts(reader, cells) - existing == {};
    } else {
      var c :| c in cells;
      TextsFit(reader, cells - {c}, existing);
      OneMoreText(reader, cells, c, existing);
      OneMoreFaithful(reader, cells, c, existing);
    }
  }

  /** One cell brings no new text, and the others are faithful. */
  predicate OneRedundant(reader: Reader, cells: set<Cell>, existing: set<Name>) {
    exists c :: c in cells && Redundant(reader, cells, existing, c) && Faithful(reader, cells - {c}, existing)
  }

  predicate Redundant(reader: Reader, cells: set<Cell>, existing: set<Name>, c: Cell) {
    NameText(reader, c) in existing + Texts(reader, cells - {c})
  }

  lemma RedundantIsWaste(reader: Reader, cells: set<Cell>, existing: set<Name>, c: Cell)
    requires c in cells && Redundant(reader, cells, existing, c)
    ensures |Texts(reader, cells) - existing| + 1 == |cells| <==> Faithful(reader, cells - {c}, existing)
  {
    OneMoreText(reader, cells, c, existing);
    TextsFit(reader, cells - {c}, existing);
  }

  lemma OneRedundantIff(reader: Reader, cells: set<Cell>, existing: set<Name>)
    ensures |Texts(reader, cells) - existing| + 1 == |cells| <==> OneRedundant(reader, cells, existing)
  {
    TextsFit(reader, cells, existing);
    forall c | c in cells && Redundant(reader, cells, existing, c)
      ensures |Texts(reader, cells) - existing| + 1 == |cells| <==> Faithful(reader, cells - {c}, existing)
    {
      RedundantIsWaste(reader, cells, existing, c);
    }
    if !Faithful(reader, cells, existing) { SomeRedundant(reader, cells, existing); }
  }

  lemma SomeRedundant(reader: Reader, cells: set<Cell>, existing: set<Name>)
    requires !Faithful(reader, cells, existing)
    ensures exists c :: c in cells && Redundant(reader, cells, existing, c)
  {
    if c :| c in cells && NameText(reader, c) in existing {
      assert Redundant(reader, cells, existing, c);
    } else {
      var c, d :| c in cells && d in cells && NameText(reader, c) == NameText(reader, d) && c != d;
      assert d in cells - {c} && NameText(reader, d) in Texts(reader, cells - {c});
      assert Redundant(reader, cells, existing, c);
    }
  }

  /** The quota asked for is the number of asking cells, less one where True and 1 merge. */
  lemma AskedIs(reader: Reader, rows: seq<PreviewRow>, existing: set<Name>)
    requires Named(reader, rows)
    ensures QuotaAsked(rows, existing) == |Asking(rows, existing)| - if Merges(rows) then 1 else 0
  {
    var raw, stored := RawNames(rows), Stored(existing);
    KeysOf(reader, rows);
    if Bool(true) in raw {
      if Num(1) in raw {
        assert ImportNames(rows) - stored == Asking(rows, existing) - {Bool(true)};
      } else {
        assert ImportNames(rows) - stored == Asking(rows, existing) - {Bool(true)} + {Num(1)};
      }
    }
  }

  lemma KeysOf(reader: Reader, rows: seq<PreviewRow>)
    requires Named(reader, rows)
    ensures var raw := RawNames(rows);
      ImportNames(rows) == if Bool(true) in raw then raw - {Bool(true)} + {Num(1)} else raw
  {
    var raw := RawNames(rows);
    forall c | c in raw ensures SetKey(c) in ImportNames(rows) && c != Bool(false) {
      var k :| 0 <= k < |rows| && rows[k].action != Error && rows[k].data.name == c;
      assert SetKey(rows[k].data.name) == SetKey(c);
    }
    forall key | key in ImportNames(rows) ensures key in raw || (key == Num(1) && Bool(true) in raw) {
      var k :| 0 <= k < |rows| && rows[k].action != Error && SetKey(rows[k].data.name) == key;
      assert rows[k].data.name in raw;
    }
    forall key | key in ImportNames(rows) ensures !key.Bool? {
      var k :| 0 <= k < |rows| && rows[k].action != Error && SetKey(rows[k].data.name) == key;
    }
    forall c | c in raw && c != Bool(true) ensures c in ImportNames(rows) { assert SetKey(c) == c; }
    if Bool(true) in raw { assert SetKey(Bool(true)) == Num(1); }
  }

  /** The new names are the new texts of the asking cells. */
  lemma NewNamesAreTexts(reader: Reader, rows: seq<PreviewRow>, t: Table)
    requires Named(reader, rows)
    ensures NewNames(t, Applicable(rows))
         == |Texts(reader, Asking(rows, t.products.Keys)) - t.products.Keys|
  {
    var existing := t.products.Keys;
    NamesAreTexts(reader, rows);
    var texts := Texts(reader, RawNames(rows));
    forall n | n in texts - existing ensures n in Texts(reader, Asking(rows, existing)) {
      var c :| c in RawNames(rows) && NameText(reader, c) == n;
      assert c in Asking(rows, existing);
    }
    assert Names(Applicable(rows)) - existing == Texts(reader, Asking(rows, existing)) - existing;
  }

  lemma NamesAreTexts(reader: Reader, rows: seq<PreviewRow>)
    requires Named(reader, rows)
    ensures Names(Applicable(rows)) == Texts(reader, RawNames(rows))
  {
    ApplicableNames(rows);
    forall n | n in Names(Applicable(rows)) ensures n in Texts(reader, RawNames(rows)) {
      var k :| 0 <= k < |rows| && rows[k].action != Error && rows[k].data.item.name == n;
      assert rows[k].data.name in RawNames(rows);
    }
    forall n | n in Texts(reader, RawNames(rows)) ensures n in Names(Applicable(rows)) {
      var c :| c in RawNames(rows) && NameText(reader, c) == n;
      var k :| 0 <= k < |rows| && rows[k].action != Error && rows[k].data.name == c;
      assert rows[k].data.item.name == n;
    }
  }

  // ---------------------------------------------------------------- when the quota is right

  /** True and 1 both name rows, and no other coincidence makes up for it. */
  predicate AsksTooLittle(reader: Reader, rows: seq<PreviewRow>, existing: set<Name>) {
    Merges(rows) && Faithful(reader, Asking(rows, existing), existing)
  }

  /** Every asking cell brings a new name, or one does not and makes up for True and 1. */
  predicate AsksRightly(reader: Reader, rows: seq<PreviewRow>, existing: set<Name>) {
    if Merges(rows) then OneRedundant(reader, Asking(rows, existing), existing)
    else Faithful(reader, Asking(rows, existing), existing)
  }

  /** How the quota asked for on the preview of an upload compares with the new names. */
  lemma AskedAgainstNewNames(
    t: Table, reader: Reader, rows: seq<Row>, mapping: Mapping, preview: seq<PreviewRow>)
    requires Mapped(mapping, "available_quantity")
    requires RightPreview(preview, reader, rows, mapping, t.products.Keys)
    ensures var existing := t.products.Keys;
      var asked := QuotaAsked(preview, existing); var wanted := NewNames(t, Applicable(preview));
      && wanted <= asked + 1
      && (asked < wanted <==> AsksTooLittle(reader, preview, existing))
      && (asked == wanted <==> AsksRightly(reader, preview, existing))
  {
    var existing := t.products.Keys;
    RightPreviewIsNamed(preview, reader, rows, mapping, existing);
    AskedIs(reader, preview, existing);
    NewNamesAreTexts(reader, preview, t);
    TextsFit(reader, Asking(preview, existing), existing);
    OneRedundantIff(reader, Asking(preview, existing), existing);
  }

  /**
   An import creates more products than it asked quota for exactly when True and 1 both name rows, the names
   that the database did not return are stored as different texts that no product has, and each of these is
   created. It is never more than one too many.
   */
  lemma CreatedBeyondQuotaIff(
    t: Table, env: Env, reader: Reader, rows: seq<Row>, mapping: Mapping, preview: seq<PreviewRow>)
    requires Mapped(mapping, "available_quantity")
    requires RightPreview(preview, reader, rows, mapping, t.products.Keys)
    ensures var created := Count(ApplyRows(t, env, Applicable(preview)).1, Created);
      var asked := QuotaAsked(preview, t.products.Keys);
      && created <= asked + 1
      && (created > asked <==>
            AsksTooLittle(reader, preview, t.products.Keys) && created == NewNames(t, Applicable(preview)))
  {
    AskedAgainstNewNames(t, reader, rows, mapping, preview);
    CreatedWithinNewNames(t, env, Applicable(preview));
  }

  /** Without integrity errors it creates exactly what it asked for if and only if it asks rightly. */
  lemma CreatedAsAskedIff(
    t: Table, env: Env, reader: Reader, rows: seq<Row>, mapping: Mapping, preview: seq<PreviewRow>)
    requires Mapped(mapping, "available_quantity")
    requires RightPreview(preview, reader, rows, mapping, t.products.Keys)
    requires NoIntegrityErrors(ApplyRows(t, env, Applicable(preview)).1)
    ensures Count(ApplyRows(t, env, Applicable(preview)).1, Created) == QuotaAsked(preview, t.products.Keys)
      <==> AsksRightly(reader, preview, t.products.Keys)
  {
    AskedAgainstNewNames(t, reader, rows, mapping, preview);
    CreatedAreTheNewNames(t, env, Applicable(preview));
  }

  /** Every applicable row is named by a text. */
  predicate TextNames(rows: seq<PreviewRow>) {
    forall k :: 0 <= k < |rows| && rows[k].action != Error ==> rows[k].data.name.Str?
  }

  lemma TextsAreFaithful(reader: Reader, rows: seq<PreviewRow>, existing: set<Name>)
    requires TextNames(rows)
    ensures AsksRightly(reader, rows, existing)
  {
    forall c | c in RawNames(rows) ensures c.Str? {
      var k :| 0 <= k < |rows| && rows[k].action != Error && rows[k].data.name == c;
    }
    forall c | c in Asking(rows, existing) ensures NameText(reader, c) !in existing {
      assert c !in Stored(existing);
    }
  }

  /** In particular, uploads with text names ask rightly. */
  lemma TextNamesAskRightly(
    t: Table, env: Env, reader: Reader, rows: seq<Row>, mapping: Mapping, preview: seq<PreviewRow>)
    requires Mapped(mapping, "available_quantity") && TextNames(preview)
    requires RightPreview(preview, reader, rows, mapping, t.products.Keys)
    ensures QuotaAsked(preview, t.products.Keys) == NewNames(t, Applicable(preview))
    ensures var created := Count(ApplyRows(t, env, Applicable(preview)).1, Created);
      && created <= QuotaAsked(preview, t.products.Keys)
      && (NoIntegrityErrors(ApplyRows(t, env, Applicable(preview)).1) ==>
            created == QuotaAsked(preview, t.products.Keys))
  {
    TextsAreFaithful(reader, preview, t.products.Keys);
    AskedAgainstNewNames(t, reader, rows, mapping, preview);
    CreatedWithinNewNames(t, env, Applicable(preview));
    if NoIntegrityErrors(ApplyRows(t, env, Applicable(preview)).1) {
      CreatedAreTheNewNames(t, env, Applicable(preview));
    }
  }
}
