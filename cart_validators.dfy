/**
 * The cart item validator: a product id and a quantity, checked with a
 * fresh error list on every call.
 */
module CartValidation {
  import opened Wrappers
  import opened JsValues
  import opened Errors
  import opened FieldRules

  /** A partial cart item: the product id may be missing, the quantity may be anything. */
  datatype CartItemInput = CartItemInput(productId: Option<string>, quantity: Value)

  const ProductIdError := FieldError("productId", None, "Product ID is required")
  const QuantityError := FieldError("quantity", None, "Quantity must be a positive number")

  /** The quantity is a number of at least 1; fractions such as 1.5 pass. */
  predicate QuantityAcceptable(quantity: Value) {
    quantity.Num? && quantity.n >= 1.0
  }

  /** `validate()` */
  function Validate(item: CartItemInput): (r: Report)
    ensures |r.errors| <= 2
    ensures ProductIdError in r.errors <==> !Given(item.productId)
    ensures QuantityError in r.errors <==> !QuantityAcceptable(item.quantity)
    ensures r.isValid <==> Given(item.productId) && QuantityAcceptable(item.quantity)
    ensures |r.errors| == 2 ==> r.errors == [ProductIdError, QuantityError]
  {
    var idErrors := if !Given(item.productId) then [ProductIdError] else [];
    var quantityErrors :=
      if !item.quantity.Num? || item.quantity.n < 1.0 then [QuantityError] else [];
    ReportOf(idErrors + quantityErrors)
  }
}
