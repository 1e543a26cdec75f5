/**
 * Controllers/AdminController.cs: product maintenance. Editing overwrites a
 * product's name, description, price and category and nothing else; adding
 * refuses an empty name and always starts from the placeholder image; applying
 * the generated images gives each product whose name contains a known key the
 * first matching file of the first key that has one. A save the database
 * refuses (Data/ShopDbContext.cs: a required name of at most 100 UTF-16 code units, a
 * description of at most 1000, a category that exists) throws, and the request
 * fails with nothing stored.
 *
 * The upload directory's listing is an input, as file names in listing order,
 * or None when the directory does not exist.
 */
module AdminController {
  import opened Models
  import opened Strings
  import opened ShopData
  import opened ActionResults
  import ProductService

  const PlaceholderImageUrl := "https://via.placeholder.com/300x200?text=No+Image"
  const ProductNameRequired := "Product name is required."
  const UploadsUrlPrefix := "/uploads/products/"
  const ImageExtension := ".png"

  /** The exception SaveChangesAsync throws for a row the database refuses. */
  const SaveRejected := "DbUpdateException"
  /** The exception Directory.GetFiles throws for a directory that does not exist. */
  const DirectoryNotFound := "DirectoryNotFoundException"

  /** The column limits of the products table. */
  const MaxNameLength := 100
  const MaxDescriptionLength := 1000

  /** The name-to-image map, in the order it is enumerated. */
  const ImageMap: seq<(string, string)> := [
    ("4K Monitor", "product_4k_monitor"),
    ("Wireless Headphones", "product_wireless_headphones"),
    ("Yoga Mat", "product_yoga_mat"),
    ("Coffee Maker", "product_coffee_maker"),
    ("Adjustable Dumbbells", "product_dumbbells"),
    ("Blender Pro", "product_blender")
  ]

  /**
   * The database accepts product row `p`: its name is not null (model binding
   * turns a blank posted name into null) and fits its column, its description
   * fits its column (nvarchar lengths count UTF-16 code units), and its
   * category exists.
   */
  predicate SaveAccepts(p: Product, categories: seq<Category>) {
    && !IsBlank(p.name) && Utf16Length(p.name) <= MaxNameLength
    && (p.description.Some? ==> Utf16Length(p.description.value) <= MaxDescriptionLength)
    && exists i :: 0 <= i < |categories| && categories[i].id == p.categoryId
  }

  // ---------------------------------------------------------------------------
  // Edit
  // ---------------------------------------------------------------------------

  /** The four fields the edit form may change, taken from the posted model. */
  function Edited(product: Product, model: Product): (r: Product)
    ensures r.id == product.id && r.imageUrl == product.imageUrl
    ensures r.name == model.name && r.description == model.description
    ensures r.price == model.price && r.categoryId == model.categoryId
  {
    product.(name := model.name, description := model.description, price := model.price, categoryId := model.categoryId)
  }

  /** The products table after editing the product with key `id`, if there is one. */
  function EditProducts(products: seq<Product>, id: int, model: Product): seq<Product> {
    match ProductService.IndexOfProduct(products, id)
    case None => products
    case Some(k) => products[k := Edited(products[k], model)]
  }

  /**
   * Editing changes exactly the product that has the key, in place, and only in
   * its four editable fields; without such a product the table is unchanged.
   */
  lemma EditTouchesOnlyThatProduct(products: seq<Product>, id: int, model: Product)
    ensures var after := EditProducts(products, id, model);
            && |after| == |products|
            && (forall j :: 0 <= j < |products| && products[j].id != id ==> after[j] == products[j])
            && (forall j :: 0 <= j < |products| ==> after[j].id == products[j].id && after[j].imageUrl == products[j].imageUrl)
            && ((forall p :: p in products ==> p.id != id) ==> after == products)
            && ((exists p :: p in products && p.id == id) ==>
                  ProductService.GetProductById(after, id) == Some(Edited(ProductService.GetProductById(products, id).value, model)))
  {
    match ProductService.IndexOfProduct(products, id)
    case None =>
    case Some(k) =>
      var after := products[k := Edited(products[k], model)];
      assert ProductService.IndexOfProduct(after, id) == Some(k) by {
        IndexOfProductAfterUpdate(products, k, id, Edited(products[k], model));
      }
  }

  /** Rewriting the first product with a key, keeping the key, keeps it first. */
  lemma {:induction false} IndexOfProductAfterUpdate(products: seq<Product>, k: nat, id: int, p: Product)
    requires ProductService.IndexOfProduct(products, id) == Some(k) && p.id == id
    ensures ProductService.IndexOfProduct(products[k := p], id) == Some(k)
  {
    if k > 0 {
      assert products[k := p][1..] == products[1..][k - 1 := p];
      IndexOfProductAfterUpdate(products[1..], k - 1, id, p);
    }
  }

  // ---------------------------------------------------------------------------
  // Add
  // ---------------------------------------------------------------------------

  /** The row AddProduct inserts: the posted fields, the next key, and the placeholder image. */
  function NewProduct(model: Product, id: int): (r: Product)
    ensures r.id == id && r.imageUrl == Some(PlaceholderImageUrl)
    ensures r.name == model.name && r.description == model.description
    ensures r.price == model.price && r.categoryId == model.categoryId
  {
    model.(id := id, imageUrl := Some(PlaceholderImageUrl))
  }

  /** The row AddProduct inserts is the one the redirect to its edit page finds by key. */
  lemma AddedProductIsFoundByItsKey(products: seq<Product>, model: Product, id: int)
    requires forall j :: 0 <= j < |products| ==> products[j].id < id
    ensures ProductService.GetProductById(products + [NewProduct(model, id)], id) == Some(NewProduct(model, id))
  {
    IndexPastAbsentKey(products, NewProduct(model, id), id);
  }

  lemma {:induction false} IndexPastAbsentKey(products: seq<Product>, p: Product, id: int)
    requires forall j :: 0 <= j < |products| ==> products[j].id != id
    requires p.id == id
    ensures ProductService.IndexOfProduct(products + [p], id) == Some(|products|)
  {
    if products != [] {
      assert (products + [p])[1..] == products[1..] + [p];
      IndexPastAbsentKey(products[1..], p, id);
    }
  }

  // ---------------------------------------------------------------------------
  // Applying the generated images
  // ---------------------------------------------------------------------------

  /** `Directory.GetFiles(uploads, value + "*.png")`, by file name. */
  predicate MatchesPattern(file: string, value: string) {
    StartsWith(file, value) && EndsWith(file, ImageExtension) && |file| >= |value| + |ImageExtension|
  }

  /** The first listed file matching the pattern of `value`. */
  function FirstMatchingFile(files: seq<string>, value: string): (r: Option<string>)
    ensures r.Some? ==> r.value in files && MatchesPattern(r.value, value)
    ensures r.None? <==> forall f :: f in files ==> !MatchesPattern(f, value)
  {
    if files == [] then None
    else if MatchesPattern(files[0], value) then Some(files[0])
    else FirstMatchingFile(files[1..], value)
  }

  /** `files[0]` of the listing: the file found is the listed match that no other listed match precedes. */
  lemma {:induction false} FirstMatchingFileIsFirst(files: seq<string>, value: string, k: nat)
    requires k < |files| && MatchesPattern(files[k], value)
    requires forall i :: 0 <= i < k ==> !MatchesPattern(files[i], value)
    ensures FirstMatchingFile(files, value) == Some(files[k])
  {
    if k > 0 {
      assert files[1..][k - 1] == files[k];
      FirstMatchingFileIsFirst(files[1..], value, k - 1);
    }
  }

  /** Mapping `m` applies to a product name: its key occurs in the name and it has a file. */
  predicate Applies(name: string, m: (string, string), files: seq<string>) {
    ContainsIgnoreCase(name, m.0) && FirstMatchingFile(files, m.1).Some?
  }

  /** The image URL a product name gets from the mappings `maps`, if any applies. */
  function ImageFor(name: string, maps: seq<(string, string)>, files: seq<string>): (r: Option<string>)
    ensures r.None? <==> forall j :: 0 <= j < |maps| ==> !Applies(name, maps[j], files)
    ensures r.Some? ==> exists j :: 0 <= j < |maps| && Applies(name, maps[j], files)
                                  && r.value == UploadsUrlPrefix + FirstMatchingFile(files, maps[j].1).value
  {
    if maps == [] then None
    else if Applies(name, maps[0], files) then Some(UploadsUrlPrefix + FirstMatchingFile(files, maps[0].1).value)
    else
      var r := ImageFor(name, maps[1..], files);
      assert forall j :: 1 <= j < |maps| ==> maps[j] == maps[1..][j - 1];
      r
  }

  /** One product after the images are applied. */
  function WithImage(p: Product, maps: seq<(string, string)>, files: seq<string>): Product {
    match ImageFor(p.name, maps, files)
    case None => p
    case Some(url) => p.(imageUrl := Some(url))
  }

  /** The products table after ApplyAIImages. */
  function ApplyImages(products: seq<Product>, maps: seq<(string, string)>, files: seq<string>): (r: seq<Product>)
    ensures |r| == |products|
    ensures forall i :: 0 <= i < |products| ==> r[i] == WithImage(products[i], maps, files)
  {
    if products == [] then [] else [WithImage(products[0], maps, files)] + ApplyImages(products[1..], maps, files)
  }

  /** The number of products that get an image. */
  function AppliedCount(products: seq<Product>, maps: seq<(string, string)>, files: seq<string>): nat {
    if products == [] then 0
    else (if ImageFor(products[0].name, maps, files).Some? then 1 else 0) + AppliedCount(products[1..], maps, files)
  }

  /** Each product is assigned at most once, so no more products get an image than exist. */
  lemma {:induction false} AppliedCountBounded(products: seq<Product>, maps: seq<(string, string)>, files: seq<string>)
    ensures AppliedCount(products, maps, files) <= |products|
  {
    if products != [] {
      AppliedCountBounded(products[1..], maps, files);
    }
  }

  /**
   * A product keeps every field but its image; it keeps the image too when no
   * mapping applies; otherwise its image is the first matching file of the first
   * mapping that applies.
   */
  lemma WithImageChangesOnlyTheImage(p: Product, maps: seq<(string, string)>, files: seq<string>)
    ensures WithImage(p, maps, files).(imageUrl := p.imageUrl) == p
    ensures (forall j :: 0 <= j < |maps| ==> !Applies(p.name, maps[j], files)) ==> WithImage(p, maps, files) == p
    ensures forall j :: 0 <= j < |maps| && Applies(p.name, maps[j], files)
                        && (forall i :: 0 <= i < j ==> !Applies(p.name, maps[i], files)) ==>
              WithImage(p, maps, files).imageUrl == Some(UploadsUrlPrefix + FirstMatchingFile(files, maps[j].1).value)
  {
    forall j | 0 <= j < |maps| && Applies(p.name, maps[j], files)
               && (forall i :: 0 <= i < j ==> !Applies(p.name, maps[i], files))
      ensures WithImage(p, maps, files).imageUrl == Some(UploadsUrlPrefix + FirstMatchingFile(files, maps[j].1).value)
    {
      FirstApplyingMapping(p.name, maps, files, j);
    }
  }

  lemma {:induction false} FirstApplyingMapping(name: string, maps: seq<(string, string)>, files: seq<string>, j: nat)
    requires j < |maps| && Applies(name, maps[j], files)
    requires forall i :: 0 <= i < j ==> !Applies(name, maps[i], files)
    ensures ImageFor(name, maps, files) == Some(UploadsUrlPrefix + FirstMatchingFile(files, maps[j].1).value)
  {
    if j > 0 {
      assert !Applies(name, maps[0], files);
      assert maps[1..][j - 1] == maps[j];
      FirstApplyingMapping(name, maps[1..], files, j - 1);
    }
  }

  /** Some mapping's key occurs in the name, so the directory is listed for it. */
  predicate NeedsListing(name: string, maps: seq<(string, string)>) {
    exists j :: 0 <= j < |maps| && ContainsIgnoreCase(name, maps[j].0)
  }

  /** Some product's name makes the loop list the directory. */
  predicate ListingNeeded(products: seq<Product>, maps: seq<(string, string)>) {
    exists i :: 0 <= i < |products| && NeedsListing(products[i].name, maps)
  }

  /**
   * The inner loop of ApplyAIImages: the mappings in order, stopping at the
   * first whose key occurs in the name and whose pattern lists a file; the
   * first listing of a missing directory throws.
   */
  method ImageForProduct(name: string, maps: seq<(string, string)>, listing: Option<seq<string>>) returns (url: Result<Option<string>>)
    ensures url.Failure? <==> listing.None? && NeedsListing(name, maps)
    ensures url.Success? ==> url.value == ImageFor(name, maps, listing.GetOr([]))
  {
    var files := listing.GetOr([]);
    url := Success(None);
    var j := 0;
    while j < |maps|
      invariant 0 <= j <= |maps|
      invariant forall m :: 0 <= m < j ==> !Applies(name, maps[m], files)
      invariant listing.None? ==> forall m :: 0 <= m < j ==> !ContainsIgnoreCase(name, maps[m].0)
    {
      var (key, value) := maps[j];
      if ContainsIgnoreCase(name, key) {
        if listing.None? {
          return Failure(DirectoryNotFound);
        }
        var file := FirstMatchingFile(files, value);
        if file.Some? {
          FirstApplyingMapping(name, maps, files, j);
          url := Success(Some(UploadsUrlPrefix + file.value));
          break;
        }
      }
      j := j + 1;
    }
  }

  class AdminController {
    const db: ShopDbContext

    constructor (db: ShopDbContext)
      ensures this.db == db
    {
      this.db := db;
    }

    /** POST EditProduct. */
    method EditProduct(id: int, model: Product) returns (result: ActionResult)
      requires db.Valid()
      modifies db`products
      ensures db.Valid()
      ensures ProductService.GetProductById(old(db.products), id).None? ==>
                result == NotFoundStatus && db.products == old(db.products)
      ensures ProductService.GetProductById(old(db.products), id).Some? ==>
                if SaveAccepts(Edited(ProductService.GetProductById(old(db.products), id).value, model), db.categories)
                then result == RedirectToAction("Products", "Admin", None)
                     && db.products == EditProducts(old(db.products), id, model)
                else result == Faulted(SaveRejected) && db.products == old(db.products)
    {
      var k := ProductService.IndexOfProduct(db.products, id);
      if k.None? {
        return NotFoundStatus;
      }
      var edited := Edited(db.products[k.value], model);
      if !SaveAccepts(edited, db.categories) {
        return Faulted(SaveRejected);
      }
      db.products := db.products[k.value := edited];
      return RedirectToAction("Products", "Admin", None);
    }

    /**
     * POST AddProduct. A posted key other than 0 makes the insert give an
     * explicit value to the identity column, which the database refuses.
     */
    method AddProduct(model: Product) returns (result: ActionResult)
      requires db.Valid()
      modifies db`products, db`nextProductId
      ensures db.Valid()
      ensures IsBlank(model.name) ==>
                && result == FormView([ProductNameRequired])
                && db.products == old(db.products) && db.nextProductId == old(db.nextProductId)
      ensures !IsBlank(model.name) && !(model.id == 0 && SaveAccepts(model, db.categories)) ==>
                && result == Faulted(SaveRejected)
                && db.products == old(db.products) && db.nextProductId == old(db.nextProductId)
      ensures !IsBlank(model.name) && model.id == 0 && SaveAccepts(model, db.categories) ==>
                && db.products == old(db.products) + [NewProduct(model, old(db.nextProductId))]
                && db.nextProductId == old(db.nextProductId) + 1
                && result == RedirectToAction("EditProduct", "Admin", Some(old(db.nextProductId)))
    {
      if IsBlank(model.name) {
        return FormView([ProductNameRequired]);
      }
      if model.id != 0 || !SaveAccepts(model, db.categories) {
        return Faulted(SaveRejected);
      }
      var id := db.nextProductId;
      db.products, db.nextProductId := db.products + [NewProduct(model, id)], id + 1;
      return RedirectToAction("EditProduct", "Admin", Some(id));
    }

    /**
     * POST ApplyAIImages: the whole products table, with the images of the
     * products a mapping applies to replaced, saved at once. Without the
     * upload directory the first listing throws and nothing is saved.
     */
    method ApplyAIImages(listing: Option<seq<string>>) returns (result: ActionResult, appliedCount: int)
      requires db.Valid()
      modifies db`products
      ensures db.Valid()
      ensures listing.None? && ListingNeeded(old(db.products), ImageMap) ==>
                result == Faulted(DirectoryNotFound) && db.products == old(db.products)
      ensures !(listing.None? && ListingNeeded(old(db.products), ImageMap)) ==>
                && db.products == ApplyImages(old(db.products), ImageMap, listing.GetOr([]))
                && appliedCount == AppliedCount(old(db.products), ImageMap, listing.GetOr([]))
                && result == RedirectToAction("Products", "Admin", None)
    {
      result, appliedCount := SaveImages(ImageMap, listing);
    }

    /** The body of ApplyAIImages for any name-to-image map `maps`. */
    method SaveImages(maps: seq<(string, string)>, listing: Option<seq<string>>) returns (result: ActionResult, appliedCount: int)
      requires db.Valid()
      modifies db`products
      ensures db.Valid()
      ensures listing.None? && ListingNeeded(old(db.products), maps) ==>
                result == Faulted(DirectoryNotFound) && db.products == old(db.products)
      ensures !(listing.None? && ListingNeeded(old(db.products), maps)) ==>
                && db.products == ApplyImages(old(db.products), maps, listing.GetOr([]))
                && appliedCount == AppliedCount(old(db.products), maps, listing.GetOr([]))
                && result == RedirectToAction("Products", "Admin", None)
    {
      var products;
      products, appliedCount := ApplyImagesTo(db.products, maps, listing);
      if products.Failure? {
        return Faulted(DirectoryNotFound), appliedCount;
      }
      ValidAfterImages(db, products.value);
      db.products := products.value;
      return RedirectToAction("Products", "Admin", None), appliedCount;
    }
  }

  /**
   * The loop of ApplyAIImages: each product in turn, the mappings in order
   * until one applies; `appliedCount` counts the products that got an image.
   */
  method ApplyImagesTo(products: seq<Product>, maps: seq<(string, string)>, listing: Option<seq<string>>)
      returns (updated: Result<seq<Product>>, appliedCount: int)
    ensures updated.Failure? <==> listing.None? && ListingNeeded(products, maps)
    ensures updated.Success? ==> updated.value == ApplyImages(products, maps, listing.GetOr([]))
    ensures updated.Success? ==> appliedCount == AppliedCount(products, maps, listing.GetOr([]))
  {
    var files := listing.GetOr([]);
    var rows := products;
    appliedCount := 0;
    var i := 0;
    while i < |rows|
      invariant 0 <= i <= |rows| && |rows| == |products|
      invariant forall k :: 0 <= k < i ==> rows[k] == WithImage(products[k], maps, files)
      invariant forall k :: i <= k < |rows| ==> rows[k] == products[k]
      invariant appliedCount == AppliedCount(products[..i], maps, files)
      invariant listing.None? ==> forall k :: 0 <= k < i ==> !NeedsListing(products[k].name, maps)
    {
      var p := rows[i];
      var url := ImageForProduct(p.name, maps, listing);
      if url.Failure? {
        return Failure(url.message), appliedCount;
      }
      if url.value.Some? {
        assert WithImage(p, maps, files) == p.(imageUrl := url.value);
        rows := rows[i := p.(imageUrl := url.value)];
        appliedCount := appliedCount + 1;
      } else {
        assert WithImage(p, maps, files) == p;
      }
      AppliedCountStep(products, maps, files, i);
      i := i + 1;
    }
    assert products[..i] == products;
    updated := Success(rows);
  }

  /**
   * With no files at all no mapping applies: a missing directory that no
   * product name leads the loop to leaves the table as it was.
   */
  lemma {:induction false} NoFilesChangeNothing(products: seq<Product>, maps: seq<(string, string)>)
    ensures ApplyImages(products, maps, []) == products
    ensures AppliedCount(products, maps, []) == 0
  {
    if products != [] {
      NoFilesChangeNothing(products[1..], maps);
      assert products == [products[0]] + products[1..];
    }
  }

  lemma {:induction false} AppliedCountAppend(a: seq<Product>, b: seq<Product>, maps: seq<(string, string)>, files: seq<string>)
    ensures AppliedCount(a + b, maps, files) == AppliedCount(a, maps, files) + AppliedCount(b, maps, files)
  {
    if a == [] {
      assert a + b == b;
    } else {
      assert (a + b)[1..] == a[1..] + b;
      AppliedCountAppend(a[1..], b, maps, files);
    }
  }

  lemma AppliedCountStep(products: seq<Product>, maps: seq<(string, string)>, files: seq<string>, i: nat)
    requires i < |products|
    ensures AppliedCount(products[..i + 1], maps, files)
         == AppliedCount(products[..i], maps, files) + (if ImageFor(products[i].name, maps, files).Some? then 1 else 0)
  {
    assert products[..i + 1] == products[..i] + [products[i]];
    AppliedCountAppend(products[..i], [products[i]], maps, files);
  }

  /** Changing only images keeps every key below the counter. */
  lemma ValidAfterImages(db: ShopDbContext, products: seq<Product>)
    requires db.Valid() && |products| == |db.products|
    requires forall i :: 0 <= i < |products| ==> products[i].id == db.products[i].id
    ensures forall i :: 0 <= i < |products| ==> 0 < products[i].id < db.nextProductId
  {
  }
}
