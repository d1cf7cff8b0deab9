/** The product dropdown: loading the selected brand's products, the
    value-change handler, the name search and the value shown by the select.
 */
module ProductDropdown {
  import opened Base
  import opened Seqs
  import opened Text
  import opened Types
  import CodePicker

  /** The dropdown's product list together with the caller's selection. */
  datatype ProductPicker = ProductPicker(products: seq<Product>, selected: Option<Product>)

  /** A change of brand: without a brand the list is emptied and the
      selection cleared; with one the list is whatever the loader gives for
      the brand's code (empty when it throws) and the selection is left as is. */
  function OnBrandChange(picker: ProductPicker, brand: Option<Brand>,
                         loadProducts: string -> Attempt<seq<Product>>): (r: ProductPicker)
    ensures brand.None? ==> r.products == [] && r.selected.None?
    ensures brand.Some? ==> r.selected == picker.selected
    ensures brand.Some? && loadProducts(brand.value.code).Returned? ==>
              r.products == loadProducts(brand.value.code).value
    ensures brand.Some? && loadProducts(brand.value.code).Threw? ==> r.products == []
  {
    if brand.None? then ProductPicker([], None)
    else
      match loadProducts(brand.value.code)
      case Returned(products) => picker.(products := products)
      case Threw => picker.(products := [])
  }

  function ProductCode(p: Product): string
  {
    p.code
  }

  /** The value-change handler: `CodePicker.Pick` over the whole product
      list, not only the products the search shows. */
  function HandleValueChange(products: seq<Product>, value: string): Option<Product>
  {
    CodePicker.Pick(products, ProductCode, value)
  }

  predicate NameMatches(p: Product, search: string)
  {
    Contains(ToLower(p.name), ToLower(search))
  }

  function NameMatchesFor(search: string): Product -> bool
  {
    (p: Product) => NameMatches(p, search)
  }

  /** The products offered: those whose lower-cased name contains the
      lower-cased search text, in list order. */
  function FilteredProducts(products: seq<Product>, search: string): (r: seq<Product>)
    ensures forall k :: 0 <= k < |r| ==> r[k] in products && NameMatches(r[k], search)
    ensures forall k :: 0 <= k < |products| && NameMatches(products[k], search) ==> products[k] in r
  {
    Filter(products, NameMatchesFor(search))
  }

  /** An empty search offers every product. */
  lemma EmptySearchOffersAll(products: seq<Product>)
    ensures FilteredProducts(products, "") == products
  {
    forall k | 0 <= k < |products|
      ensures NameMatches(products[k], "")
    {
      ContainsEmpty(ToLower(products[k].name));
    }
    FilterKeepsAll(products, NameMatchesFor(""));
  }

  /** The offered list keeps the list's order and repeats: the filter works
      product by product and distributes over any split of the list. */
  lemma FilteredProductsKeepOrder(front: seq<Product>, back: seq<Product>, x: Product, search: string)
    ensures FilteredProducts(front + back, search)
            == FilteredProducts(front, search) + FilteredProducts(back, search)
    ensures FilteredProducts([x], search) == if NameMatches(x, search) then [x] else []
  {
    FilterAppend(front, back, NameMatchesFor(search));
    FilterSingleton(x, NameMatchesFor(search));
  }

  /** The value the select shows: `CodePicker.Shown` of the selected product. */
  function SelectValue(selected: Option<Product>): string
  {
    CodePicker.Shown(selected, ProductCode)
  }

  /** A value can select a product the search is hiding. */
  lemma PickIgnoresSearch()
    ensures var p := Product("P1", "A", None, None);
            HandleValueChange([p], "P1") == Some(p) && FilteredProducts([p], "b") == []
  {
    var p := Product("P1", "A", None, None);
    assert ToLower(p.name) == "a" && ToLower("b") == "b";
    var a: string := "a";
    assert !("b" <= a) by { assert "b"[0] != a[0]; }
    assert a[1..] == "";
    assert !Contains(a, "b");
  }
}
