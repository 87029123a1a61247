/** The decisions and arithmetic of the product controller: the validation
    chain of `createProduct`, the keyword filter and skip/limit pagination of
    `getProducts`, `getProductById`, and the field-by-field rules of
    `updateProduct`. */
module Catalog {
  import opened Common
  import opened Models
  import opened Collections

  /** The body fields a product form sends, already cast to their types;
      `None` is a field that was not sent. */
  datatype ProductInput = ProductInput(
    name: Option<string>, description: Option<string>, price: Option<real>, discount: Option<real>,
    category: Option<string>, subCategory: Option<string>, stock: Option<int>)

  const MissingFields := "Please provide all required product fields."
  const ImageRequired := "Product image is required."
  const InvalidCategory := "Invalid category ID."
  const CategoryNotFound := "Category or sub-category not found."
  const CreateFailed := "Server error while creating product."
  const ProductNotFound := "Product not found."
  const ListFailed := "Server error while fetching products."
  const UpdateFailed := "Server error while updating product."

  /** `!name || !description || !price || !category || !subCategory || !stock`. */
  predicate MissingAny(in_: ProductInput) {
    !Truthy(in_.name) || !Truthy(in_.description) || !TruthyReal(in_.price)
    || !Truthy(in_.category) || !Truthy(in_.subCategory) || !TruthyInt(in_.stock)
  }

  /** The stored path of an uploaded image. */
  function ImageUrl(filename: string): (u: string)
    ensures |u| == 9 + |filename|
    ensures u[..9] == "/uploads/" && u[9..] == filename
  {
    "/uploads/" + filename
  }

  /** `createProduct` up to the `save()`: the four rejections with 400 in
      their order, then the product built from the body, whose only way to
      fail validation is a name made of spaces (500). */
  function CreateProduct(in_: ProductInput, file: Option<string>, categories: Collection<Category>, newId: Id)
    : (r: Reply<Product>)
    ensures MissingAny(in_) ==> r == Err(400, MissingFields)
    ensures !MissingAny(in_) && file.None? ==> r == Err(400, ImageRequired)
    ensures !MissingAny(in_) && file.Some? && !IsValidObjectId(in_.category.value) ==> r == Err(400, InvalidCategory)
    ensures r.Err? && r.status == 400 <==>
      MissingAny(in_) || file.None? || !IsValidObjectId(in_.category.value)
      || CastId(in_.category.value) !in categories.docs
      || !HasSubCategory(categories.docs[CastId(in_.category.value)], in_.subCategory.value)
    ensures r.Ok? ==> && r.status == 201 && ProductSchemaValid(r.value)
                      && r.value.id == newId
                      && r.value.name == Trim(in_.name.value)
                      && r.value.description == in_.description.value
                      && r.value.price == in_.price.value
                      && r.value.discount == Some(if in_.discount.Some? then in_.discount.value else 0.0)
                      && r.value.category == CastId(in_.category.value)
                      && r.value.category in categories.docs
                      && HasSubCategory(categories.docs[r.value.category], r.value.subCategory)
                      && r.value.subCategory == in_.subCategory.value
                      && r.value.stock == in_.stock.value && r.value.purchaseCount == 0
                      && r.value.imageUrl == ImageUrl(file.value)
    ensures r.Err? && r.status != 400 ==> r == Err(500, CreateFailed) && Trim(in_.name.value) == ""
  {
    if MissingAny(in_) then Err(400, MissingFields)
    else if file.None? then Err(400, ImageRequired)
    else if !IsValidObjectId(in_.category.value) then Err(400, InvalidCategory)
    else
      var cat := CastId(in_.category.value);
      if cat !in categories.docs || !HasSubCategory(categories.docs[cat], in_.subCategory.value) then
        Err(400, CategoryNotFound)
      else
        var p := NewProduct(newId, in_.name.value, in_.description.value, in_.price.value, in_.discount,
                            cat, in_.subCategory.value, ImageUrl(file.value), Some(in_.stock.value));
        if !ProductSchemaValid(p) then Err(500, CreateFailed) else Ok(201, p)
  }

  /** A zero price or a zero stock counts as missing. */
  lemma ZeroPriceOrStockRejected(in_: ProductInput, file: Option<string>, categories: Collection<Category>, newId: Id)
    requires in_.price == Some(0.0) || in_.stock == Some(0)
    ensures CreateProduct(in_, file, categories, newId) == Err(400, MissingFields)
  {
  }

  // ---------------------------------------------------------------------
  // getProducts
  // ---------------------------------------------------------------------

  const PageSize: nat := 12

  /** `Number(req.query.pageNumber)`: `NaN` for text that is not a number
      (and for a missing parameter), otherwise the integer it spells. */
  datatype NumberValue = NaN | Num(n: int)

  /** `Number(pageNumber) || 1`. */
  function PageOf(v: NumberValue): (page: int)
    ensures v.NaN? || v == Num(0) ==> page == 1
    ensures v.Num? && v.n != 0 ==> page == v.n
  {
    if v.NaN? || v.n == 0 then 1 else v.n
  }

  /** `Math.ceil(count / pageSize)`. */
  function PageCount(count: nat): (pages: nat)
    ensures PageSize * pages >= count
    ensures pages > 0 ==> PageSize * (pages - 1) < count
  {
    (count + PageSize - 1) / PageSize
  }

  /** `.skip(pageSize * (page - 1)).limit(pageSize)` over the matches. */
  function PageSlice<T>(matches: seq<T>, page: int): (r: seq<T>)
    requires page >= 1
    ensures |r| <= PageSize
    ensures PageSize * (page - 1) >= |matches| ==> r == []
    ensures PageSize * page <= |matches| ==> |r| == PageSize
    ensures PageSize * (page - 1) < |matches| ==> r != []
    ensures r != [] ==> PageSize * (page - 1) + |r| <= |matches|
    ensures forall k :: 0 <= k < |r| ==> r[k] == matches[PageSize * (page - 1) + k]
  {
    var skip := PageSize * (page - 1);
    if skip >= |matches| then []
    else if skip + PageSize <= |matches| then matches[skip..skip + PageSize]
    else matches[skip..]
  }

  /** The pages 1 to `n`, one after the other. */
  function FirstPages<T>(matches: seq<T>, n: nat): seq<T>
    decreases n
  {
    if n == 0 then [] else FirstPages(matches, n - 1) + PageSlice(matches, n)
  }

  /** Reading the pages in turn gives the first `12 * n` matches. */
  lemma {:induction false} FirstPagesArePrefix<T>(matches: seq<T>, n: nat)
    ensures FirstPages(matches, n) == matches[..if PageSize * n <= |matches| then PageSize * n else |matches|]
    decreases n
  {
    if n > 0 {
      FirstPagesArePrefix(matches, n - 1);
    }
  }

  /** Pages 1 to `pages` hold every match once, in order: no match is
      skipped or repeated by the pagination. */
  lemma PagesCoverMatches<T>(matches: seq<T>)
    ensures FirstPages(matches, PageCount(|matches|)) == matches
  {
    FirstPagesArePrefix(matches, PageCount(|matches|));
  }

  /** `{ name: { $regex: keyword, $options: 'i' } }` when a keyword is
      given; every product otherwise. */
  function Matching(products: seq<Product>, keyword: Option<string>): (r: seq<Product>)
    ensures |r| <= |products|
    ensures forall p :: p in r <==> p in products && (Truthy(keyword) ==> ContainsIgnoreCase(p.name, keyword.value))
    ensures !Truthy(keyword) ==> r == products
    decreases |products|
  {
    if !Truthy(keyword) || products == [] then products
    else
      var rest := Matching(products[1..], keyword);
      if ContainsIgnoreCase(products[0].name, keyword.value) then [products[0]] + rest else rest
  }

  /** The filter goes product by product, so the matches keep the natural
      order. */
  lemma {:induction false} MatchingDistributes(a: seq<Product>, b: seq<Product>, keyword: Option<string>)
    ensures Matching(a + b, keyword) == Matching(a, keyword) + Matching(b, keyword)
    decreases |a|
  {
    if a == [] {
      assert a + b == b;
    } else if Truthy(keyword) {
      assert (a + b)[0] == a[0];
      assert (a + b)[1..] == a[1..] + b;
      MatchingDistributes(a[1..], b, keyword);
    }
  }

  /** An empty keyword selects every product, as no keyword does. */
  lemma EmptyKeywordMatchesAll(products: seq<Product>)
    ensures Matching(products, Some("")) == products
    ensures forall p :: p in products ==> ContainsIgnoreCase(p.name, "")
  {
  }

  /** The reply of `getProducts`. */
  datatype Listing = Listing(products: seq<Product>, page: int, pages: nat)

  /** `getProducts`: the page of the matches, the page number and the page
      count over all the matches. A negative page gives a negative skip,
      which the database refuses. */
  function GetProducts(products: Collection<Product>, keyword: Option<string>, pageNumber: NumberValue)
    : (r: Reply<Listing>)
    requires Collections.Valid(products)
    ensures r.Err? <==> PageOf(pageNumber) < 1
    ensures r.Err? ==> r == Err(500, ListFailed)
    ensures r.Ok? ==> var matches := Matching(Values(products), keyword);
      && r.status == 200
      && r.value.page == PageOf(pageNumber)
      && r.value.pages == PageCount(|matches|)
      && r.value.page >= 1
      && r.value.products == PageSlice(matches, r.value.page)
  {
    var page := PageOf(pageNumber);
    if page < 1 then Err(500, ListFailed)
    else
      var matches := Matching(Values(products), keyword);
      Ok(200, Listing(PageSlice(matches, page), page, PageCount(|matches|)))
  }

  /** A page has products exactly when its number is at most the page
      count. */
  lemma PageNonEmptyWithinCount<T>(matches: seq<T>, page: int)
    requires page >= 1
    ensures PageSlice(matches, page) != [] <==> page <= PageCount(|matches|)
  {
    var n := PageCount(|matches|);
    if page <= n {
      assert PageSize * (page - 1) <= PageSize * (n - 1);
    } else {
      assert PageSize * (page - 1) >= PageSize * n;
    }
  }

  /** Twenty-five matches: pages 1 and 2 are full, page 3 holds the last
      one, and the page count is 3. */
  lemma TwentyFiveMatches<T>(matches: seq<T>)
    requires |matches| == 25
    ensures PageCount(25) == 3
    ensures |PageSlice(matches, 1)| == 12 && |PageSlice(matches, 2)| == 12 && |PageSlice(matches, 3)| == 1
    ensures PageSlice(matches, 4) == []
  {
  }

  // ---------------------------------------------------------------------
  // getProductById
  // ---------------------------------------------------------------------

  /** `getProductById`: a malformed id and an absent product both give 404. */
  function GetProductById(products: Collection<Product>, rawId: string): (r: Reply<Product>)
    ensures r.Ok? <==> IsValidObjectId(rawId) && CastId(rawId) in products.docs
    ensures r.Ok? ==> r.status == 200 && r.value == products.docs[CastId(rawId)]
    ensures r.Err? ==> r == Err(404, ProductNotFound)
  {
    if !IsValidObjectId(rawId) then Err(404, ProductNotFound)
    else if CastId(rawId) !in products.docs then Err(404, ProductNotFound)
    else Ok(200, products.docs[CastId(rawId)])
  }

  // ---------------------------------------------------------------------
  // updateProduct
  // ---------------------------------------------------------------------

  /** The field assignments of `updateProduct`: `x || old` for name,
      description, price, category and sub-category; `x !== undefined ? x :
      old` for discount and stock; a new image only with a new file. The
      `trim` setter applies to a new name; a category is cast. */
  function Patch(p: Product, in_: ProductInput, file: Option<string>): (r: Product)
    ensures r.id == p.id && r.purchaseCount == p.purchaseCount
  {
    p.(imageUrl := if file.Some? then ImageUrl(file.value) else p.imageUrl)
     .(name := if Truthy(in_.name) then Trim(in_.name.value) else p.name,
       description := OrString(in_.description, p.description),
       price := if TruthyReal(in_.price) then in_.price.value else p.price,
       discount := if in_.discount.Some? then in_.discount else p.discount,
       category := if Truthy(in_.category) then CastId(in_.category.value) else p.category,
       subCategory := OrString(in_.subCategory, p.subCategory),
       stock := if in_.stock.Some? then in_.stock.value else p.stock)
  }

  /** What an update keeps: the id and the purchase count always; a field
      of the `x || old` kind unless its value is truthy; discount and stock
      unless they were sent; the image unless a file came. */
  lemma PatchKeepsUnsent(p: Product, in_: ProductInput, file: Option<string>)
    ensures var q := Patch(p, in_, file);
      && q.id == p.id && q.purchaseCount == p.purchaseCount
      && (!Truthy(in_.name) ==> q.name == p.name)
      && (!Truthy(in_.description) ==> q.description == p.description)
      && (!TruthyReal(in_.price) ==> q.price == p.price)
      && (in_.discount.None? ==> q.discount == p.discount)
      && (!Truthy(in_.category) ==> q.category == p.category)
      && (!Truthy(in_.subCategory) ==> q.subCategory == p.subCategory)
      && (in_.stock.None? ==> q.stock == p.stock)
      && (file.None? ==> q.imageUrl == p.imageUrl)
  {
  }

  /** What an update takes: every truthy field of the `x || old` kind (the
      name trimmed, the category cast), a sent discount or stock, even zero,
      and the path of a new file. */
  lemma PatchTakesSent(p: Product, in_: ProductInput, file: Option<string>)
    ensures var q := Patch(p, in_, file);
      && (Truthy(in_.name) ==> q.name == Trim(in_.name.value))
      && (Truthy(in_.description) ==> q.description == in_.description.value)
      && (TruthyReal(in_.price) ==> q.price == in_.price.value)
      && (in_.discount.Some? ==> q.discount == in_.discount)
      && (Truthy(in_.category) ==> q.category == CastId(in_.category.value))
      && (Truthy(in_.subCategory) ==> q.subCategory == in_.subCategory.value)
      && (in_.stock.Some? ==> q.stock == in_.stock.value)
      && (file.Some? ==> q.imageUrl == ImageUrl(file.value))
  {
  }

  /** Zero is a value for stock and discount but "unchanged" for price: the
      two kinds of test differ on the same input. */
  lemma PatchZeroes(p: Product, file: Option<string>)
    requires p.price != 0.0 && p.stock != 0 && p.discount != Some(0.0)
    ensures var q := Patch(p, ProductInput(None, None, Some(0.0), Some(0.0), None, None, Some(0)), file);
      q.price == p.price && q.stock == 0 && q.discount == Some(0.0)
  {
  }

  /** An empty request with no file changes nothing. */
  lemma PatchNothing(p: Product)
    ensures Patch(p, ProductInput(None, None, None, None, None, None, None), None) == p
  {
  }

  /** A body that sends every field creation requires, with a discount and a
      new file, replaces every field as creation would have set it; only the
      id and the purchase count survive. */
  lemma PatchEverythingSent(p: Product, in_: ProductInput, file: Option<string>)
    requires !MissingAny(in_) && in_.discount.Some? && file.Some?
    ensures Patch(p, in_, file)
      == NewProduct(p.id, in_.name.value, in_.description.value, in_.price.value, in_.discount,
                    CastId(in_.category.value), in_.subCategory.value, ImageUrl(file.value), in_.stock)
           .(purchaseCount := p.purchaseCount)
  {
  }

  /** Why `save()` after the assignments can fail: a new name of spaces, or
      a category that is not an ObjectId. Nothing checks that the category
      exists or that the sub-category belongs to it. */
  predicate PatchSaves(p: Product, in_: ProductInput) {
    && (Truthy(in_.name) ==> Trim(in_.name.value) != "")
    && (Truthy(in_.category) ==> IsValidObjectId(in_.category.value))
  }

  /** A valid product patched with a savable body is valid again. */
  lemma PatchKeepsSchema(p: Product, in_: ProductInput, file: Option<string>)
    requires ProductSchemaValid(p) && PatchSaves(p, in_)
    ensures ProductSchemaValid(Patch(p, in_, file))
  {
  }

  /** The update accepts a sub-category that the category does not list,
      where creation would refuse it. */
  lemma PatchSkipsCategoryCheck(p: Product, categories: Collection<Category>, sub: string)
    requires ProductSchemaValid(p) && sub != ""
    requires p.category in categories.docs && !HasSubCategory(categories.docs[p.category], sub)
    ensures var in_ := ProductInput(None, None, None, None, None, Some(sub), None);
      PatchSaves(p, in_) && Patch(p, in_, None).subCategory == sub
  {
  }
}
