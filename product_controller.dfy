/** getProducts: seed the catalog when it is empty, then list it. */
module ProductController {
  import opened OrderModel
  import opened Database

  /** The three products inserted into an empty catalog: name, description, price in cents. */
  const Seeds: seq<(string, string, int)> := [
    ("Fresh Apples", "Crisp and juicy", 250),
    ("Whole Milk", "1 Gallon, Grade A", 300),
    ("Sourdough Bread", "Freshly baked loaf", 450)
  ]

  function SeedProduct(id: ProductId, i: nat): Product
    requires i < |Seeds|
  {
    Product(id, Seeds[i].0, Seeds[i].1, Seeds[i].2)
  }

  /** The catalog after the seeding step: insertMany of the three seeds, under fresh ids,
      when the catalog is empty; the catalog as it was otherwise. */
  function Seeded(db: Db): (d: Db)
    ensures |db.catalog| != 0 ==> d == db
    ensures |db.catalog| == 0 ==>
      && d == db.(catalog := d.catalog, clock := db.clock + 3)
      && d.catalog.Keys == {db.clock, db.clock + 1, db.clock + 2}
      && forall k :: k in d.catalog ==> k - db.clock < 3 && d.catalog[k] == SeedProduct(k, k - db.clock)
  {
    if |db.catalog| != 0 then db
    else
      var c := db.clock;
      db.(catalog := map[c := SeedProduct(c, 0), c + 1 := SeedProduct(c + 1, 1), c + 2 := SeedProduct(c + 2, 2)],
          clock := c + 3)
  }

  /** Seeding leaves a non-empty catalog, so a second seeding inserts nothing. */
  lemma SeededIdempotent(db: Db)
    ensures |Seeded(db).catalog| != 0
    ensures Seeded(Seeded(db)) == Seeded(db)
  {
    if |db.catalog| == 0 {
      assert db.clock in Seeded(db).catalog;
    }
  }

  /** The products getProducts answers with: the whole catalog after seeding, and never none. */
  lemma ListingAfterSeeding(db: Db)
    requires Inv(db)
    ensures var d := Seeded(db);
      && Inv(d)
      && |Listing(d.catalog, d.clock)| > 0
      && forall p :: p in Listing(d.catalog, d.clock) <==> p.id in d.catalog && d.catalog[p.id] == p
  {
    var d := Seeded(db);
    SeededIdempotent(db);
    ListingSpec(d.catalog, d.clock);
    var k :| k in d.catalog;
    assert d.catalog[k] in Listing(d.catalog, d.clock);
  }

  /** getProducts: countDocuments, insertMany when the count is 0, then Product.find({}). */
  method GetProducts(store: Store) returns (products: seq<Product>)
    requires store.Valid()
    modifies store
    ensures store.Valid()
    ensures store.State() == Seeded(old(store.State()))
    ensures store.events == old(store.events)
    ensures products == Listing(store.catalog, store.clock)
  {
    ghost var before := store.State();
    ListingAfterSeeding(before);
    var count := |store.catalog|;
    if count == 0 {
      var c := store.clock;
      store.catalog := map[c := SeedProduct(c, 0), c + 1 := SeedProduct(c + 1, 1), c + 2 := SeedProduct(c + 2, 2)];
      store.clock := c + 3;
    }
    assert store.State() == Seeded(before);
    products := Listing(store.catalog, store.clock);
  }
}
