/**
 Bulk import: one normalised row applied to the product table, and all of them in order.
 `ImportMerge` shows what the whole sequence amounts to.
 */
module ImportModel {
  import opened Options
  import FreshNames

  type Name = string
  type Field = string
  type CategoryId = nat
  type BoxId = nat

  /** A column value; `Ref` points at a category or box. */
  datatype Value = Null | Text(s: string) | Number(n: int) | Flag(b: bool) | Ref(id: nat)

  datatype Buckets = Buckets(
    total: int, available: int, reserved: int, issued: int, damaged: int, lost: int, needsFix: int)

  datatype Product = Product(buckets: Buckets, fields: map<Field, Value>)

  /** A row that passed normalisation. `fields` holds every column it sets besides buckets, box and category. */
  datatype Item = Item(
    name: Name, buckets: Buckets, fields: map<Field, Value>, box: Option<BoxId>, category: Option<string>)

  /** Column values of a product when the row that creates it does not set them. */
  const COLUMN_DEFAULTS: map<Field, Value> := map[
    "description" := Text(""), "image_key" := Text(""), "storage_location" := Text(""),
    "is_public" := Flag(true), "public_self_checkout_enabled" := Flag(false), "show_public_count" := Flag(false),
    "tracking_mode" := Text("quantity"), "public_availability_mode" := Text("status_only"),
    "box" := Null, "category_id" := Null]

  /**
   `categories` maps a case-folded name to the category that the lookup by name finds; product names
   are the keys of `products`, since rows are looked up by name.
   */
  datatype Table = Table(
    products: map<Name, Product>, categories: map<string, CategoryId>, slugs: set<string>, nextCategory: CategoryId)

  /** What the import takes from elsewhere: case folding, slugs, and the constraints of the database. */
  datatype Env = Env(fold: string -> string, slugify: string -> string, accepts: Product -> bool)

  datatype Result = Created | Updated | Rejected

  function SlugFor(t: Table, env: Env, name: string): (slug: string)
    ensures slug !in t.slugs
  {
    FreshNames.FirstFree(if env.slugify(name) == "" then "category" else env.slugify(name), "-", t.slugs)
  }

  function Insert(t: Table, env: Env, name: string, slug: string): Table {
    t.(categories := t.categories[env.fold(name) := t.nextCategory],
       slugs := t.slugs + {slug},
       nextCategory := t.nextCategory + 1)
  }

  /** `_category_for_name`, undisturbed: find it, or create it under a fresh slug. */
  function WithCategory(t: Table, env: Env, name: string): Table {
    if env.fold(name) in t.categories then t else Insert(t, env, name, SlugFor(t, env, name))
  }

  function WithRowCategory(t: Table, env: Env, item: Item): Table {
    if item.category.None? then t else WithCategory(t, env, item.category.value)
  }

  /** The columns a row writes when the product already exists: everything but the buckets. */
  function Sets(item: Item, env: Env, categories: map<string, CategoryId>): map<Field, Value> {
    var withCategory :=
      if item.category.Some? && env.fold(item.category.value) in categories
      then item.fields["category_id" := Ref(categories[env.fold(item.category.value)])]
      else item.fields;
    withCategory["box" := if item.box.Some? then Ref(item.box.value) else Null]
  }

  /** One row inside its savepoint: a constraint violation undoes it, its new category included. */
  function ApplyRow(t: Table, env: Env, item: Item): (Table, Result) {
    var t1 := WithRowCategory(t, env, item);
    var values := Sets(item, env, t1.categories);
    if item.name in t1.products then
      var current := t1.products[item.name];
      var product := current.(fields := current.fields + values);
      if env.accepts(product) then (t1.(products := t1.products[item.name := product]), Updated) else (t, Rejected)
    else
      var product := Product(item.buckets, COLUMN_DEFAULTS + values);
      if env.accepts(product) then (t1.(products := t1.products[item.name := product]), Created) else (t, Rejected)
  }

  /** The loop of `apply_import` over its rows. */
  function ApplyRows(t: Table, env: Env, items: seq<Item>): (r: (Table, seq<Result>))
    ensures |r.1| == |items|
  {
    if items == [] then (t, [])
    else
      var before := ApplyRows(t, env, items[..|items| - 1]);
      var last := ApplyRow(before.0, env, items[|items| - 1]);
      (last.0, before.1 + [last.1])
  }
}
