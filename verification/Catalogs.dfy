/** The products and observations tables, grouped by product: what one listing
    of a completed job writes to them. */
module Catalogs {
  import opened Common
  import opened Jobs

  const DAY: int := 24 * 60 * 60 * 1_000_000

  /** The columns the change test compares. */
  datatype Values = Values(
    price: Option<int>,
    originalPrice: Option<int>,
    shipping: Option<int>,
    currency: Option<string>,
    available: Option<bool>,
    rating: Option<real>,
    reviews: Option<int>,
    sold: Option<int>,
    sponsored: Option<bool>)

  datatype Observation = Observation(job: JobId, at: Time, values: Values)

  /** A product row with the observations that refer to it, in insertion order. */
  datatype Product = Product(
    url: string,
    title: string,
    imageUrl: Option<string>,
    seller: Option<string>,
    log: seq<Observation>)

  type Catalog = map<Key, Product>

  /** NULLIF(text, '') */
  function Nullable(text: string): Option<string> {
    if text == "" then None else Some(text)
  }

  /** COALESCE(given, kept) */
  function Coalesce<T>(given: Option<T>, kept: Option<T>): Option<T> {
    if given.Some? then given else kept
  }

  function ValuesOf(item: Listing): Values {
    Values(item.price, item.originalPrice, item.shipping, Nullable(item.currency), item.available,
           item.rating, item.reviews, item.sold, item.sponsored)
  }

  /** The entry with the greatest time; SQL leaves ties open, here the later stored one wins. */
  function Latest(log: seq<Observation>): Option<Observation> {
    if log == [] then None
    else
      var earlier := Latest(log[..|log| - 1]);
      var last := log[|log| - 1];
      if earlier.Some? && earlier.value.at > last.at then earlier else Some(last)
  }

  /** The NOT EXISTS test: the latest entry has the same values and is under a day old. */
  predicate Repeats(log: seq<Observation>, seen: Observation) {
    var latest := Latest(log);
    latest.Some? && latest.value.values == seen.values && latest.value.at > seen.at - DAY
  }

  function Record(log: seq<Observation>, seen: Observation): seq<Observation> {
    if Repeats(log, seen) then log else log + [seen]
  }

  /** The product row after the upsert and the conditional observation insert. */
  function Stored(was: Option<Product>, item: Listing, job: JobId, at: Time): Product {
    Product(
      item.url,
      item.title,
      Coalesce(Nullable(item.imageUrl), if was.Some? then was.value.imageUrl else None),
      Coalesce(Nullable(item.seller), if was.Some? then was.value.seller else None),
      Record(if was.Some? then was.value.log else [], Observation(job, at, ValuesOf(item))))
  }

  function Get(catalog: Catalog, key: Key): Option<Product> {
    if key in catalog then Some(catalog[key]) else None
  }

  /** A product's entries; none if it has no row. */
  function LogOf(catalog: Catalog, key: Key): seq<Observation> {
    if key in catalog then catalog[key].log else []
  }

  function ApplyItem(catalog: Catalog, item: Listing, job: JobId, at: Time): Catalog {
    if Usable(item)
    then catalog[KeyOf(item) := Stored(Get(catalog, KeyOf(item)), item, job, at)]
    else catalog
  }

  function ApplyItems(catalog: Catalog, items: seq<Listing>, job: JobId, at: Time): Catalog {
    if items == [] then catalog
    else ApplyItem(ApplyItems(catalog, items[..|items| - 1], job, at), items[|items| - 1], job, at)
  }

  /** The product rows a list of items locks. */
  function Touched(items: seq<Listing>): set<Key> {
    set item | item in items && Usable(item) :: KeyOf(item)
  }

  lemma OneMoreItem(catalog: Catalog, items: seq<Listing>, n: nat, job: JobId, at: Time)
    requires n < |items|
    ensures ApplyItems(catalog, items[..n + 1], job, at)
            == ApplyItem(ApplyItems(catalog, items[..n], job, at), items[n], job, at)
    ensures Touched(items[..n + 1]) == Touched(items[..n]) + (if Usable(items[n]) then {KeyOf(items[n])} else {})
  {
    var more := items[..n + 1];
    assert more[..n] == items[..n];
    assert forall item :: item in more <==> item in items[..n] || item == items[n];
  }

  /** What a batch writes to a product depends on that product alone, and it
      writes to no product it does not touch. */
  lemma {:induction false} ApplyItemsFrame(c1: Catalog, c2: Catalog, items: seq<Listing>, job: JobId, at: Time)
    requires forall key | key in Touched(items) :: Get(c1, key) == Get(c2, key)
    ensures forall key | key in Touched(items) ::
              Get(ApplyItems(c1, items, job, at), key) == Get(ApplyItems(c2, items, job, at), key)
              && key in ApplyItems(c1, items, job, at)
    ensures forall key | key !in Touched(items) :: Get(ApplyItems(c1, items, job, at), key) == Get(c1, key)
    decreases |items|
  {
    if items != [] {
      var front, last := items[..|items| - 1], items[|items| - 1];
      assert forall item :: item in items <==> item in front || item == last;
      ApplyItemsFrame(c1, c2, front, job, at);
      ApplyItemsFrame(c2, c1, front, job, at);
      assert Usable(last) ==> KeyOf(last) in Touched(items);
    }
  }

  /** The observation says what one of the items says, for this job at this time. */
  ghost predicate FromItems(items: seq<Listing>, job: JobId, at: Time, key: Key, seen: Observation) {
    && seen.job == job && seen.at == at
    && exists item :: item in items && Usable(item) && KeyOf(item) == key && ValuesOf(item) == seen.values
  }

  /** An observation in the catalog was there before or was made by this batch
      from one of its items. */
  ghost predicate Origin(catalog: Catalog, items: seq<Listing>, job: JobId, at: Time, key: Key, seen: Observation) {
    (key in catalog && seen in catalog[key].log) || FromItems(items, job, at, key, seen)
  }

  lemma {:induction false} ApplyItemsOrigin(catalog: Catalog, items: seq<Listing>, job: JobId, at: Time)
    ensures var out := ApplyItems(catalog, items, job, at);
            forall key, seen | key in out && seen in out[key].log :: Origin(catalog, items, job, at, key, seen)
  {
    if items != [] {
      var front, last := items[..|items| - 1], items[|items| - 1];
      var mid := ApplyItems(catalog, front, job, at);
      var out := ApplyItems(catalog, items, job, at);
      ApplyItemsOrigin(catalog, front, job, at);
      forall key, seen | key in out && seen in out[key].log ensures Origin(catalog, items, job, at, key, seen) {
        if key in mid && seen in mid[key].log {
          assert Origin(catalog, front, job, at, key, seen);
          assert forall item :: item in front ==> item in items;
        } else {
          assert last in items && Usable(last) && KeyOf(last) == key && ValuesOf(last) == seen.values;
        }
      }
    }
  }

  // ------------------------------------------------- uncommitted changes

  /** The product with a transaction's change: its new columns, and the
      observations it has added after the stored ones. */
  function Grown(was: Option<Product>, change: Product): Product {
    change.(log := if was.Some? then was.value.log + change.log else change.log)
  }

  /** The committed tables under uncommitted changes. A change carries only the
      observations it adds, so what happens to the stored ones shows through. */
  function Merged(catalog: Catalog, changes: Catalog): Catalog {
    map key | key in catalog.Keys + changes.Keys ::
      if key in changes then Grown(Get(catalog, key), changes[key]) else catalog[key]
  }

  /** The change after one more listing of this product, which reads the product
      as `was`. */
  function Extended(own: Option<Product>, was: Option<Product>, item: Listing, job: JobId, at: Time): Product {
    var seen := Observation(job, at, ValuesOf(item));
    var added := if own.Some? then own.value.log else [];
    var now := Stored(was, item, job, at);
    now.(log := if Repeats(if was.Some? then was.value.log else [], seen) then added else added + [seen])
  }

  /** The upsert and the conditional insert for one listing, as changes. */
  function WithItem(catalog: Catalog, changes: Catalog, item: Listing, job: JobId, at: Time): Catalog {
    if Usable(item)
    then
      var key := KeyOf(item);
      changes[key := Extended(Get(changes, key), Get(Merged(catalog, changes), key), item, job, at)]
    else changes
  }

  lemma SameCatalog(a: Catalog, b: Catalog)
    requires forall key :: Get(a, key) == Get(b, key)
    ensures a == b
  {
    forall key ensures key in a <==> key in b { assert Get(a, key) == Get(b, key); }
    forall key | key in a ensures a[key] == b[key] { assert Get(a, key) == Get(b, key); }
  }

  lemma ExtendedGrows(base: Option<Product>, own: Option<Product>, item: Listing, job: JobId, at: Time)
    ensures var was := if own.Some? then Some(Grown(base, own.value)) else base;
            Grown(base, Extended(own, was, item, job, at)) == Stored(was, item, job, at)
  {
    var seen := Observation(job, at, ValuesOf(item));
    if base.Some? {
      var log, added := base.value.log, if own.Some? then own.value.log else [];
      assert log + added + [seen] == log + (added + [seen]);
      assert own.None? ==> log + added == log;
    } else if own.None? {
      assert [] + [seen] == [seen];
    }
  }

  /** To its own transaction a change looks like the statement's effect. */
  lemma ItemShowsThrough(catalog: Catalog, changes: Catalog, item: Listing, job: JobId, at: Time)
    ensures Merged(catalog, WithItem(catalog, changes, item, job, at))
            == ApplyItem(Merged(catalog, changes), item, job, at)
  {
    if Usable(item) {
      var key := KeyOf(item);
      var view, more := Merged(catalog, changes), WithItem(catalog, changes, item, job, at);
      ExtendedGrows(Get(catalog, key), Get(changes, key), item, job, at);
      forall other ensures Get(Merged(catalog, more), other) == Get(ApplyItem(view, item, job, at), other) {}
      SameCatalog(Merged(catalog, more), ApplyItem(view, item, job, at));
    }
  }

  lemma NothingChanged(catalog: Catalog)
    ensures Merged(catalog, map[]) == catalog
  {
  }
}
