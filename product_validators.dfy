/**
 * The product input validator: seven field checks run in a fixed order,
 * each appending to the validator's own error list, which is never reset
 * between calls. Only the name and price errors carry a code.
 */
module ProductValidation {
  import opened Wrappers
  import opened JsValues
  import opened Errors
  import opened Text
  import opened FieldRules
  import Seqs

  /**
   * A create or update input. `price` is whatever the caller passed
   * (`undefined` when absent); `stock` is absent when the key is not in the
   * object, and may be present with any value; the other optional fields
   * are absent when `undefined`.
   */
  datatype ProductInput = ProductInput(
    name: Option<string>,
    price: Value,
    stock: Option<Value>,
    categories: Option<seq<string>>,
    sku: Option<string>,
    slug: Option<string>,
    metadata: Option<Value>)

  const MaxPrice: real := 1000000.0

  /** The name limits, read from the category's configuration keys with the product's own defaults. */
  function NameLimits(setting: string -> Option<int>): (r: (int, int))
    ensures setting(NameMinKey).None? ==> r.0 == 3
    ensures setting(NameMaxKey).None? ==> r.1 == 200
  {
    (setting(NameMinKey).GetOr(3),
     setting(NameMaxKey).GetOr(200))
  }

  /** `validatePrice`: NUMBER, NUMBER_NEGATIVE or NUMBER_TOO_LARGE; the bounds 0 and 1000000 themselves pass. */
  function PriceErrors(price: Value): (r: seq<FieldError>)
    ensures |r| <= 1
    ensures r == [] <==> price.Num? && 0.0 <= price.n <= MaxPrice
    ensures !price.Num? ==> r[0].code == Some("NUMBER")
    ensures price.Num? && price.n < 0.0 ==> r[0].code == Some("NUMBER_NEGATIVE")
    ensures price.Num? && price.n > MaxPrice ==> r[0].code == Some("NUMBER_TOO_LARGE")
  {
    if !price.Num? then
      [FieldError("price", Some("NUMBER"), "Product price must be a number")]
    else if price.n < 0.0 then
      [FieldError("price", Some("NUMBER_NEGATIVE"), "Product price cannot be negative")]
    else if price.n > MaxPrice then
      [FieldError("price", Some("NUMBER_TOO_LARGE"), "Product price exceeds maximum allowed value")]
    else []
  }

  /** `validateStock`: checked only when the key is present, even with an `undefined` value. */
  function StockErrors(stock: Option<Value>): (r: seq<FieldError>)
    ensures |r| <= 1
    ensures r == [] <==> stock.None? || (stock.value.Num? && stock.value.n >= 0.0)
    ensures forall i :: 0 <= i < |r| ==> r[i].field == "stock" && r[i].code.None?
  {
    if stock.None? then []
    else if !stock.value.Num? then [FieldError("stock", None, "Product stock must be a number")]
    else if stock.value.n < 0.0 then [FieldError("stock", None, "Product stock cannot be negative")]
    else []
  }

  /** `validateCategories`: only a present, empty list is an error; an absent one passes. */
  function CategoriesErrors(categories: Option<seq<string>>): (r: seq<FieldError>)
    ensures |r| <= 1
    ensures r == [] <==> categories.None? || |categories.value| > 0
  {
    if categories.Some? && |categories.value| == 0 then
      [FieldError("categories", None, "Product must have at least one category")]
    else []
  }

  /** `/^[A-Z0-9]{6,20}$/` */
  predicate SkuFormat(s: string) {
    6 <= |s| <= 20 && All(s, IsUpperAlnum)
  }

  predicate SlugChar(c: char) {
    IsLowerAlnum(c) || c == '-'
  }

  /** `/^[a-z0-9-]{3,50}$/`: hyphens may lead, trail or repeat. */
  predicate SlugFormat(s: string) {
    3 <= |s| <= 50 && All(s, SlugChar)
  }

  /** Unlike the category slug pattern, this one accepts hyphens anywhere. */
  lemma HyphensAnywhere()
    ensures SlugFormat("-a--b-")
    ensures SlugFormat("---")
  {
  }

  const SkuMessage := "SKU must be 6-20 characters long and contain only uppercase letters and numbers"

  /** `validateSku`: an absent or empty SKU passes. */
  function SkuErrors(sku: Option<string>): (r: seq<FieldError>)
    ensures |r| <= 1
    ensures r == [] <==> !Given(sku) || SkuFormat(sku.value)
  {
    if Given(sku) && !SkuFormat(sku.value) then
      [FieldError("sku", None, SkuMessage)]
    else []
  }

  const SlugMessage := "Slug must be 3-50 characters long and contain only lowercase letters, numbers, and hyphens"

  /** `validateSlug`: an absent or empty slug passes. */
  function SlugErrors(slug: Option<string>): (r: seq<FieldError>)
    ensures |r| <= 1
    ensures r == [] <==> !Given(slug) || SlugFormat(slug.value)
  {
    if Given(slug) && !SlugFormat(slug.value) then
      [FieldError("slug", None, SlugMessage)]
    else []
  }

  /** `validateMetadata`: truthy metadata that `JSON.stringify` rejects is an error. */
  function MetadataErrors(metadata: Option<Value>, serializable: Value -> bool): (r: seq<FieldError>)
    ensures |r| <= 1
    ensures r == [] <==> metadata.None? || !Truthy(metadata.value) || serializable(metadata.value)
  {
    if metadata.Some? && Truthy(metadata.value) && !serializable(metadata.value) then
      [FieldError("metadata", None, "Metadata must be serializable")]
    else []
  }

  /** The errors one `validate()` call appends, in check order. */
  function ProductErrors(input: ProductInput, nameMin: int, nameMax: int, serializable: Value -> bool): seq<FieldError> {
    NameErrors("Product", input.name, nameMin, nameMax)
    + PriceErrors(input.price)
    + StockErrors(input.stock)
    + CategoriesErrors(input.categories)
    + SkuErrors(input.sku)
    + SlugErrors(input.slug)
    + MetadataErrors(input.metadata, serializable)
  }

  /** Every field of the input is acceptable on its own terms. */
  predicate Acceptable(input: ProductInput, nameMin: int, nameMax: int, serializable: Value -> bool) {
    && Given(input.name) && nameMin <= |input.name.value| <= nameMax && NameFormat(input.name.value)
    && input.price.Num? && 0.0 <= input.price.n <= MaxPrice
    && (input.stock.None? || (input.stock.value.Num? && input.stock.value.n >= 0.0))
    && (input.categories.None? || |input.categories.value| > 0)
    && (!Given(input.sku) || SkuFormat(input.sku.value))
    && (!Given(input.slug) || SlugFormat(input.slug.value))
    && (input.metadata.None? || !Truthy(input.metadata.value) || serializable(input.metadata.value))
  }

  /** One `validate()` call finds no error exactly when every field is acceptable, and at most seven otherwise. */
  lemma ProductErrorsExactly(input: ProductInput, nameMin: int, nameMax: int, serializable: Value -> bool)
    ensures ProductErrors(input, nameMin, nameMax, serializable) == [] <==> Acceptable(input, nameMin, nameMax, serializable)
    ensures |ProductErrors(input, nameMin, nameMax, serializable)| <= 7
  {
  }

  /** An update that leaves the price out is rejected: a missing price is "not a number". */
  lemma UpdateWithoutPriceRejected(input: ProductInput, nameMin: int, nameMax: int, serializable: Value -> bool)
    requires input.price == Undefined
    ensures |ProductErrors(input, nameMin, nameMax, serializable)| >= 1
    ensures FieldError("price", Some("NUMBER"), "Product price must be a number") in ProductErrors(input, nameMin, nameMax, serializable)
  {
    var name := NameErrors("Product", input.name, nameMin, nameMax);
    assert ProductErrors(input, nameMin, nameMax, serializable)[|name|] == PriceErrors(input.price)[0];
  }

  class ProductValidator {
    const input: ProductInput
    const nameMin: int
    const nameMax: int
    const serializable: Value -> bool
    /** The error list; it starts empty and is only ever appended to. */
    var errors: seq<FieldError>

    /** `setting` reads the configuration; `serializable` says whether `JSON.stringify` accepts a value. */
    constructor(input: ProductInput, setting: string -> Option<int>, serializable: Value -> bool)
      ensures this.input == input && this.serializable == serializable
      ensures (nameMin, nameMax) == NameLimits(setting)
      ensures errors == []
    {
      this.input := input;
      var limits := NameLimits(setting);
      nameMin := limits.0;
      nameMax := limits.1;
      this.serializable := serializable;
      errors := [];
    }

    /** `validate()`: the seven checks in order; the report shares the (accumulated) list. */
    method Validate() returns (r: Report)
      modifies this
      ensures errors == old(errors) + ProductErrors(input, nameMin, nameMax, serializable)
      ensures r == ReportOf(errors)
    {
      ghost var before := errors;
      errors := errors + NameErrors("Product", input.name, nameMin, nameMax);
      errors := errors + PriceErrors(input.price);
      errors := errors + StockErrors(input.stock);
      errors := errors + CategoriesErrors(input.categories);
      errors := errors + SkuErrors(input.sku);
      errors := errors + SlugErrors(input.slug);
      errors := errors + MetadataErrors(input.metadata, serializable);
      Seqs.Concat7(before,
        NameErrors("Product", input.name, nameMin, nameMax),
        PriceErrors(input.price),
        StockErrors(input.stock),
        CategoriesErrors(input.categories),
        SkuErrors(input.sku),
        SlugErrors(input.slug),
        MetadataErrors(input.metadata, serializable));
      r := ReportOf(errors);
    }
  }
}
