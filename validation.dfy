/**
 * What the input validators share: their report, and the name rule the
 * category and product validators both apply (with their own limits and
 * wording).
 */
module FieldRules {
  import opened Wrappers
  import opened Errors
  import opened Text

  /** `{ isValid, errors }` */
  datatype Report = Report(isValid: bool, errors: seq<FieldError>)

  /** `{ isValid: errors.length === 0, errors }` */
  function ReportOf(errors: seq<FieldError>): Report
  {
    Report(|errors| == 0, errors)
  }

  /** The configuration keys of the name bounds, which both validators read. */
  const NameMinKey := "category.validation.name.minLength"
  const NameMaxKey := "category.validation.name.maxLength"

  /** `Number.isInteger` on a finite number. */
  predicate IsInteger(x: real) {
    x.Floor as real == x
  }

  predicate NameChar(c: char) {
    IsWordChar(c) || IsJsSpace(c) || c == '-'
  }

  /** `/^[\w\s-]+$/i` */
  predicate NameFormat(s: string) {
    |s| >= 1 && All(s, NameChar)
  }

  /** The name is present and non-empty (`!name` fails on `undefined` and `""`). */
  predicate Given(s: Option<string>) {
    s.Some? && s.value != ""
  }

  /**
   * `validateName`: at most one error, the first that applies of
   * REQUIRED, MIN_LENGTH, MAX_LENGTH and INVALID_FORMAT. `noun` is the
   * validator's subject ("Category" or "Product").
   */
  function NameErrors(noun: string, name: Option<string>, minLength: int, maxLength: int): (r: seq<FieldError>)
    ensures |r| <= 1
    ensures r == [] <==> Given(name) && minLength <= |name.value| <= maxLength && NameFormat(name.value)
    ensures forall i :: 0 <= i < |r| ==> r[i].field == "name"
    ensures !Given(name) ==> r == [FieldError("name", Some("REQUIRED"), noun + " name is required")]
    ensures Given(name) && |name.value| < minLength ==> r[0].code == Some("MIN_LENGTH")
    ensures Given(name) && minLength <= |name.value| && |name.value| > maxLength ==> r[0].code == Some("MAX_LENGTH")
    ensures Given(name) && minLength <= |name.value| <= maxLength && !NameFormat(name.value) ==> r[0].code == Some("INVALID_FORMAT")
  {
    if !Given(name) then
      [FieldError("name", Some("REQUIRED"), noun + " name is required")]
    else if |name.value| < minLength then
      [FieldError("name", Some("MIN_LENGTH"), noun + " name must be at least " + IntToString(minLength) + " characters long")]
    else if |name.value| > maxLength then
      [FieldError("name", Some("MAX_LENGTH"), noun + " name must not exceed " + IntToString(maxLength) + " characters")]
    else if !NameFormat(name.value) then
      [FieldError("name", Some("INVALID_FORMAT"), noun + " name contains invalid characters")]
    else []
  }
}
