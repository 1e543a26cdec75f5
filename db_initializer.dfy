/**
 * Data/DbInitializer.cs: the demo catalogue, inserted once. When either the
 * categories or the products table holds a row, nothing happens; otherwise four
 * categories are saved, and then twelve products that refer to them by the keys
 * the first save handed out.
 */
module DbInitializer {
  import opened Models
  import opened ShopData

  const CategoryNames: seq<string> := ["Books", "Electronics", "Home & Kitchen", "Fitness"]

  /** One seeded product: its fields, and the position of its category in CategoryNames. */
  datatype ProductSeed = ProductSeed(name: string, description: string, price: Cents, categoryIndex: nat, imageUrl: string)

  const ProductSeeds: seq<ProductSeed> := [
    ProductSeed("C# in Depth", "Deep dive into C# programming techniques.", 4999, 0,
                "https://via.placeholder.com/300x200?text=C%23+Book"),
    ProductSeed("ASP.NET Core Unleashed", "Comprehensive guide for ASP.NET Core developers.", 5999, 0,
                "https://via.placeholder.com/300x200?text=ASP.NET+Book"),
    ProductSeed("Noise Cancelling Headphones", "Wireless over-ear headphones with ANC.", 19999, 1,
                "https://via.placeholder.com/300x200?text=Headphones"),
    ProductSeed("4K Monitor", "27-inch UHD monitor with HDR.", 32999, 1,
                "https://via.placeholder.com/300x200?text=4K+Monitor"),
    ProductSeed("Smart Speaker", "Voice assistant for your smart home.", 9999, 1,
                "https://via.placeholder.com/300x200?text=Smart+Speaker"),
    ProductSeed("Chef Knife Set", "Professional stainless steel knives.", 8999, 2,
                "https://via.placeholder.com/300x200?text=Knife+Set"),
    ProductSeed("Espresso Machine", "Compact espresso machine for home baristas.", 24999, 2,
                "https://via.placeholder.com/300x200?text=Espresso+Machine"),
    ProductSeed("Air Fryer", "Healthier frying with little to no oil.", 12999, 2,
                "https://via.placeholder.com/300x200?text=Air+Fryer"),
    ProductSeed("Yoga Mat", "Non-slip mat for yoga and workouts.", 2999, 3,
                "https://via.placeholder.com/300x200?text=Yoga+Mat"),
    ProductSeed("Adjustable Dumbbells", "Space-saving dumbbell pair with quick weight changes.", 19999, 3,
                "https://via.placeholder.com/300x200?text=Dumbbells"),
    ProductSeed("Resistance Bands", "Set of resistance bands for strength training.", 2499, 3,
                "https://via.placeholder.com/300x200?text=Resistance+Bands"),
    ProductSeed("Stainless Steel Water Bottle", "Insulated bottle to keep drinks cold or hot.", 1999, 3,
                "https://via.placeholder.com/300x200?text=Water+Bottle")
  ]

  /** Every seed names one of the four categories. */
  lemma SeedsNameSeededCategories()
    ensures forall k :: 0 <= k < |ProductSeeds| ==> ProductSeeds[k].categoryIndex < |CategoryNames|
  {
  }

  /** The two tables the seeder reads and writes, with their identity counters. */
  datatype Catalog = Catalog(categories: seq<Category>, products: seq<Product>, nextCategoryId: int, nextProductId: int)

  /** The category rows one AddRange of `names` stores, keyed from `firstId` on in list order. */
  function CategoryRows(names: seq<string>, firstId: int): (r: seq<Category>)
    ensures |r| == |names|
    ensures forall k :: 0 <= k < |names| ==> r[k] == Category(firstId + k, names[k])
  {
    if names == [] then [] else [Category(firstId, names[0])] + CategoryRows(names[1..], firstId + 1)
  }

  /** The product row of one seed, pointing at the stored category at its position. */
  function ProductRow(seed: ProductSeed, categories: seq<Category>, id: int): (p: Product)
    requires seed.categoryIndex < |categories|
    ensures p.id == id && p.name == seed.name && p.price == seed.price
    ensures p.description == Some(seed.description) && p.imageUrl == Some(seed.imageUrl)
    ensures p.categoryId == categories[seed.categoryIndex].id
  {
    Product(id, seed.name, Some(seed.description), seed.price, Some(seed.imageUrl), categories[seed.categoryIndex].id)
  }

  /** The product rows one AddRange of `seeds` stores, keyed from `firstId` on in list order. */
  function ProductRows(seeds: seq<ProductSeed>, categories: seq<Category>, firstId: int): (r: seq<Product>)
    requires forall k :: 0 <= k < |seeds| ==> seeds[k].categoryIndex < |categories|
    ensures |r| == |seeds|
    ensures forall k :: 0 <= k < |seeds| ==> r[k] == ProductRow(seeds[k], categories, firstId + k)
  {
    if seeds == [] then [] else [ProductRow(seeds[0], categories, firstId)] + ProductRows(seeds[1..], categories, firstId + 1)
  }

  /** SeedAsync on a catalogue: nothing when a table is occupied, else both saves in turn. */
  function Seeded(c: Catalog): Catalog {
    if c.categories != [] || c.products != [] then c
    else
      var categories := CategoryRows(CategoryNames, c.nextCategoryId);
      var products := ProductRows(ProductSeeds, categories, c.nextProductId);
      Catalog(categories, products,
              c.nextCategoryId + |CategoryNames|, c.nextProductId + |ProductSeeds|)
  }

  /** With a category or a product present, seeding changes nothing. */
  lemma SeedingOccupiedCatalogChangesNothing(c: Catalog)
    requires c.categories != [] || c.products != []
    ensures Seeded(c) == c
  {
  }

  /**
   * On an empty catalogue, seeding stores exactly the four categories and the
   * twelve products of the demo data, in order, with consecutive new keys.
   */
  lemma SeedingEmptyCatalogAddsTheDemoData(c: Catalog)
    requires c.categories == [] && c.products == []
    ensures var s := Seeded(c);
            && |s.categories| == 4 && |s.products| == 12
            && (forall k :: 0 <= k < 4 ==> s.categories[k] == Category(c.nextCategoryId + k, CategoryNames[k]))
            && (forall k :: 0 <= k < 12 ==>
                  && s.products[k].id == c.nextProductId + k
                  && s.products[k].name == ProductSeeds[k].name
                  && s.products[k].price == ProductSeeds[k].price
                  && s.products[k].description == Some(ProductSeeds[k].description)
                  && s.products[k].imageUrl == Some(ProductSeeds[k].imageUrl)
                  && s.products[k].categoryId == c.nextCategoryId + ProductSeeds[k].categoryIndex)
            && s.nextCategoryId == c.nextCategoryId + 4 && s.nextProductId == c.nextProductId + 12
  {
  }

  /** Each product row built against `categories` carries the key of one of them. */
  lemma ProductRowsReferToCategories(seeds: seq<ProductSeed>, categories: seq<Category>, firstId: int)
    requires forall k :: 0 <= k < |seeds| ==> seeds[k].categoryIndex < |categories|
    ensures forall p :: p in ProductRows(seeds, categories, firstId) ==>
              exists cat :: cat in categories && cat.id == p.categoryId
  {
    var rows := ProductRows(seeds, categories, firstId);
    forall p | p in rows
      ensures exists cat :: cat in categories && cat.id == p.categoryId
    {
      var k :| 0 <= k < |rows| && rows[k] == p;
      assert categories[seeds[k].categoryIndex] in categories;
    }
  }

  /** Every seeded product's category key is the key of a seeded category. */
  lemma SeededProductsReferToSeededCategories(c: Catalog)
    requires c.categories == [] && c.products == []
    ensures var s := Seeded(c);
            forall p :: p in s.products ==> exists cat :: cat in s.categories && cat.id == p.categoryId
  {
    ProductRowsReferToCategories(ProductSeeds, CategoryRows(CategoryNames, c.nextCategoryId), c.nextProductId);
  }

  /** Seeding twice leaves the catalogue as seeding once does. */
  lemma SeedingIsIdempotent(c: Catalog)
    ensures Seeded(Seeded(c)) == Seeded(c)
  {
    if c.categories == [] && c.products == [] {
      assert |Seeded(c).categories| == 4;
    }
  }

  /** Seeding hands out keys from the counters, so a valid store stays valid. */
  lemma {:induction false} SeedingKeepsKeysBelowCounters(c: Catalog)
    requires c.nextCategoryId >= 1 && c.nextProductId >= 1
    requires forall i :: 0 <= i < |c.categories| ==> 0 < c.categories[i].id < c.nextCategoryId
    requires forall i :: 0 <= i < |c.products| ==> 0 < c.products[i].id < c.nextProductId
    ensures var s := Seeded(c);
            && s.nextCategoryId >= c.nextCategoryId && s.nextProductId >= c.nextProductId
            && (forall i :: 0 <= i < |s.categories| ==> 0 < s.categories[i].id < s.nextCategoryId)
            && (forall i :: 0 <= i < |s.products| ==> 0 < s.products[i].id < s.nextProductId)
  {
    var s := Seeded(c);
    if c.categories == [] && c.products == [] {
      forall i | 0 <= i < |s.products|
        ensures 0 < s.products[i].id < s.nextProductId
      {
        assert s.products[i].id == c.nextProductId + i;
      }
    }
  }

  /**
   * SeedAsync: the emptiness check, then the two saves of the demo catalogue.
   */
  method SeedAsync(db: ShopDbContext)
    requires db.Valid()
    modifies db`categories, db`products, db`nextCategoryId, db`nextProductId
    ensures db.Valid()
    ensures Catalog(db.categories, db.products, db.nextCategoryId, db.nextProductId)
         == Seeded(Catalog(old(db.categories), old(db.products), old(db.nextCategoryId), old(db.nextProductId)))
  {
    if |db.categories| > 0 || |db.products| > 0 {
      return;
    }
    SeedsNameSeededCategories();
    SaveCatalog(db, CategoryNames, ProductSeeds);
  }

  /**
   * The two saves into empty tables: one of the categories, and then one of the
   * products, whose category keys are read back from the first save.
   */
  method SaveCatalog(db: ShopDbContext, names: seq<string>, seeds: seq<ProductSeed>)
    requires db.Valid() && db.categories == [] && db.products == []
    requires forall k :: 0 <= k < |seeds| ==> seeds[k].categoryIndex < |names|
    modifies db`categories, db`products, db`nextCategoryId, db`nextProductId
    ensures db.Valid()
    ensures db.categories == CategoryRows(names, old(db.nextCategoryId))
    ensures db.nextCategoryId == old(db.nextCategoryId) + |names|
    ensures db.products == ProductRows(seeds, db.categories, old(db.nextProductId))
    ensures db.nextProductId == old(db.nextProductId) + |seeds|
  {
    db.categories, db.nextCategoryId := CategoryRows(names, db.nextCategoryId), db.nextCategoryId + |names|;

    var categories := db.categories;
    db.products, db.nextProductId := ProductRows(seeds, categories, db.nextProductId), db.nextProductId + |seeds|;
  }
}
