/**
 * The category input validator: six field checks run in a fixed order,
 * each appending its errors to the validator's own list, which is never
 * reset between calls.
 */
module CategoryValidation {
  import opened Wrappers
  import opened JsValues
  import opened Errors
  import opened Text
  import opened FieldRules
  import Seqs

  /** A create or update input; every field may be absent. */
  datatype CategoryInput = CategoryInput(
    name: Option<string>,
    slug: Option<string>,
    description: Option<string>,
    image: Option<string>,
    sortOrder: Option<real>,
    metadata: Option<Value>)

  /** The limits the checks read from configuration. */
  datatype Limits = Limits(
    nameMin: int, nameMax: int, slugMax: int, descriptionMax: int,
    sortMin: int, sortMax: int, metadataMax: int)

  const DefaultLimits := Limits(2, 100, 100, 1000, 0, 1000, 16384)

  const SlugMaxKey := "category.validation.slug.maxLength"
  const DescriptionMaxKey := "category.validation.description.maxLength"
  const SortMinKey := "category.validation.sortOrder.min"
  const SortMaxKey := "category.validation.sortOrder.max"
  const MetadataMaxKey := "category.validation.metadata.maxSize"

  /** `config.get(key, default)` for each limit, `setting` giving the configured number, if any. */
  function LimitsFrom(setting: string -> Option<int>): (r: Limits)
    ensures (forall k :: setting(k).None?) ==> r == DefaultLimits
    ensures setting(NameMinKey).Some? ==>
      r.nameMin == setting(NameMinKey).value
  {
    Limits(
      setting(NameMinKey).GetOr(2),
      setting(NameMaxKey).GetOr(100),
      setting(SlugMaxKey).GetOr(100),
      setting(DescriptionMaxKey).GetOr(1000),
      setting(SortMinKey).GetOr(0),
      setting(SortMaxKey).GetOr(1000),
      setting(MetadataMaxKey).GetOr(16384))
  }

  /**
   * The facilities the checks call but do not define: `new URL(s).protocol`
   * (none when the constructor throws) and `JSON.stringify(v).length`
   * (none when serialisation throws).
   */
  datatype Host = Host(protocolOf: string -> Option<string>, serializedLength: Value -> Option<nat>)

  predicate SlugChar(c: char) {
    IsLowerAlnum(c) || c == '-'
  }

  /**
   * `/^[a-z0-9]+(?:-[a-z0-9]+)*$/`: lower-case letters and digits in runs
   * separated by single hyphens, with no hyphen at either end.
   */
  predicate SlugFormat(s: string) {
    |s| >= 1 && All(s, SlugChar) && s[0] != '-' && s[|s| - 1] != '-'
    && forall i :: 0 <= i < |s| - 1 ==> !(s[i] == '-' && s[i + 1] == '-')
  }

  /** A run of the pattern: one or more lower-case letters and digits. */
  predicate Word(w: string) {
    |w| >= 1 && All(w, IsLowerAlnum)
  }

  /** Words joined by single hyphens are exactly what the pattern describes (this direction: they match it). */
  lemma {:induction false} JoinedWordsAreSlugs(words: seq<string>)
    requires |words| >= 1
    requires forall i :: 0 <= i < |words| ==> Word(words[i])
    ensures SlugFormat(JoinWith(words, "-"))
    decreases |words|
  {
    if |words| > 1 {
      var w := words[0];
      var rest := JoinWith(words[1..], "-");
      JoinedWordsAreSlugs(words[1..]);
      var s := w + "-" + rest;
      assert JoinWith(words, "-") == s;
      forall i | 0 <= i < |s|
        ensures SlugChar(s[i])
      {
        if i < |w| {
          assert s[i] == w[i];
        } else if i > |w| {
          assert s[i] == rest[i - |w| - 1];
        }
      }
      forall i | 0 <= i < |s| - 1
        ensures !(s[i] == '-' && s[i + 1] == '-')
      {
        if i < |w| {
          assert s[i] == w[i];
        } else if i > |w| {
          assert s[i] == rest[i - |w| - 1];
          assert s[i + 1] == rest[i - |w|];
        } else {
          assert s[i + 1] == rest[0];
        }
      }
      assert s[|s| - 1] == rest[|rest| - 1];
    }
  }

  /** The position of the first hyphen, or the length when there is none. */
  function FirstHyphen(s: string): (k: nat)
    ensures k <= |s|
    ensures forall j :: 0 <= j < k ==> s[j] != '-'
    ensures k < |s| ==> s[k] == '-'
    decreases |s|
  {
    if s == [] || s[0] == '-' then 0 else 1 + FirstHyphen(s[1..])
  }

  /** `s.split('-')` */
  function HyphenWords(s: string): seq<string>
    decreases |s|
  {
    var k := FirstHyphen(s);
    if k == |s| then [s] else [s[..k]] + HyphenWords(s[k + 1..])
  }

  /** Cutting a slug at its first hyphen leaves a word before it and a slug after it. */
  lemma SlugSplits(s: string, k: nat)
    requires SlugFormat(s) && k == FirstHyphen(s) && k < |s|
    ensures Word(s[..k]) && SlugFormat(s[k + 1..])
  {
    var w := s[..k];
    var rest := s[k + 1..];
    assert k != 0;
    assert k != |s| - 1;
    assert forall i :: 0 <= i < |w| ==> w[i] == s[i];
    assert forall i :: 0 <= i < |rest| ==> rest[i] == s[k + 1 + i];
    assert rest[0] == s[k + 1];
    forall i | 0 <= i < |w|
      ensures IsLowerAlnum(w[i])
    {
      assert SlugChar(s[i]) && s[i] != '-';
    }
  }

  /** Splitting at the first hyphen: the word before it, then the split of what follows. */
  lemma {:induction false} HyphenStep(s: string, k: nat)
    requires k == FirstHyphen(s) && k < |s|
    ensures HyphenWords(s) == [s[..k]] + HyphenWords(s[k + 1..])
  {
  }

  /** A string with a hyphen at `k` is what precedes it, the hyphen, and what follows. */
  lemma CutAtHyphen(s: string, k: nat)
    requires k < |s| && s[k] == '-'
    ensures s == s[..k] + "-" + s[k + 1..]
  {
    assert s[k..] == "-" + s[k + 1..];
    assert s == s[..k] + s[k..];
  }

  /** Joining a word in front of a non-empty word list puts one hyphen between them. */
  lemma JoinFront(w: string, ws: seq<string>)
    requires |ws| >= 1
    ensures JoinWith([w] + ws, "-") == w + "-" + JoinWith(ws, "-")
  {
    assert ([w] + ws)[1..] == ws;
  }

  /** Conversely, a string the pattern accepts is its hyphen-separated words, joined again. */
  lemma {:induction false} SlugsAreJoinedWords(s: string)
    requires SlugFormat(s)
    ensures |HyphenWords(s)| >= 1
    ensures forall i :: 0 <= i < |HyphenWords(s)| ==> Word(HyphenWords(s)[i])
    ensures JoinWith(HyphenWords(s), "-") == s
    decreases |s|
  {
    var k := FirstHyphen(s);
    if k < |s| {
      var w := s[..k];
      var rest := s[k + 1..];
      SlugSplits(s, k);
      SlugsAreJoinedWords(rest);
      var ws := HyphenWords(rest);
      HyphenStep(s, k);
      CutAtHyphen(s, k);
      JoinFront(w, ws);
      forall i | 0 <= i < |[w] + ws|
        ensures Word(([w] + ws)[i])
      {
        if i > 0 {
          assert ([w] + ws)[i] == ws[i - 1];
        }
      }
    } else {
      assert All(s, IsLowerAlnum) by {
        forall i | 0 <= i < |s|
          ensures IsLowerAlnum(s[i])
        {
          assert SlugChar(s[i]);
        }
      }
    }
  }

  const SlugFormatMessage := "Slug format is invalid. Use lowercase letters, numbers, and hyphens only"

  /** `validateSlug`: an absent or empty slug is accepted. */
  function SlugErrors(slug: Option<string>, maxLength: int): (r: seq<FieldError>)
    ensures |r| <= 1
    ensures r == [] <==> !Given(slug) || (|slug.value| <= maxLength && SlugFormat(slug.value))
    ensures Given(slug) && |slug.value| > maxLength ==> r[0].code == Some("MAX_LENGTH")
    ensures Given(slug) && |slug.value| <= maxLength && !SlugFormat(slug.value) ==> r[0].code == Some("INVALID_FORMAT")
  {
    if !Given(slug) then []
    else if |slug.value| > maxLength then
      [FieldError("slug", Some("MAX_LENGTH"), "Slug must not exceed " + IntToString(maxLength) + " characters")]
    else if !SlugFormat(slug.value) then
      [FieldError("slug", Some("INVALID_FORMAT"), SlugFormatMessage)]
    else []
  }

  /** `validateDescription`: an absent or empty description is accepted. */
  function DescriptionErrors(description: Option<string>, maxLength: int): (r: seq<FieldError>)
    ensures |r| <= 1
    ensures r == [] <==> !Given(description) || |description.value| <= maxLength
    ensures r != [] ==> r[0].code == Some("MAX_LENGTH")
  {
    if Given(description) && |description.value| > maxLength then
      [FieldError("description", Some("MAX_LENGTH"), "Description must not exceed " + IntToString(maxLength) + " characters")]
    else []
  }

  /** The protocols an image URL may use. */
  const AllowedProtocols: seq<string> := ["http:", "https:"]

  /** `validateImage`: INVALID_URL when the URL does not parse, INVALID_PROTOCOL when it is not HTTP(S). */
  function ImageErrors(image: Option<string>, protocolOf: string -> Option<string>): (r: seq<FieldError>)
    ensures |r| <= 1
    ensures r == [] <==> !Given(image) || (protocolOf(image.value).Some? && protocolOf(image.value).value in AllowedProtocols)
    ensures Given(image) && protocolOf(image.value).None? ==> r[0].code == Some("INVALID_URL")
    ensures Given(image) && protocolOf(image.value).Some? && protocolOf(image.value).value !in AllowedProtocols ==>
      r[0].code == Some("INVALID_PROTOCOL")
  {
    if !Given(image) then []
    else match protocolOf(image.value)
      case None => [FieldError("image", Some("INVALID_URL"), "Invalid image URL format")]
      case Some(protocol) =>
        if protocol !in AllowedProtocols then
          [FieldError("image", Some("INVALID_PROTOCOL"), "Image URL must use HTTP or HTTPS protocol")]
        else []
  }

  /**
   * `validateSortOrder`: the integer check and the range check are
   * independent, so a fractional value out of range gets both errors.
   */
  function SortOrderErrors(sortOrder: Option<real>, min: int, max: int): (r: seq<FieldError>)
    ensures sortOrder.None? ==> r == []
    ensures sortOrder.Some? ==>
      (r == [] <==> IsInteger(sortOrder.value) && min as real <= sortOrder.value <= max as real)
    ensures |r| <= 2
    ensures sortOrder.Some? && !IsInteger(sortOrder.value) && !(min as real <= sortOrder.value <= max as real) ==>
      |r| == 2 && r[0].code == Some("INVALID_TYPE") && r[1].code == Some("RANGE")
  {
    if sortOrder.None? then []
    else
      var x := sortOrder.value;
      var typeErrors :=
        if !IsInteger(x) then [FieldError("sortOrder", Some("INVALID_TYPE"), "Sort order must be an integer")] else [];
      var rangeErrors :=
        if x < min as real || x > max as real then
          [FieldError("sortOrder", Some("RANGE"), "Sort order must be between " + IntToString(min) + " and " + IntToString(max))]
        else [];
      typeErrors + rangeErrors
  }

  /** `validateMetadata`: MAX_SIZE over the limit, INVALID_FORMAT when it cannot be serialised. */
  function MetadataErrors(metadata: Option<Value>, maxSize: int, serializedLength: Value -> Option<nat>): (r: seq<FieldError>)
    ensures |r| <= 1
    ensures r == [] <==>
      (metadata.None? || !Truthy(metadata.value)
       || (serializedLength(metadata.value).Some? && serializedLength(metadata.value).value <= maxSize))
    ensures r != [] && serializedLength(metadata.value).None? ==> r[0].code == Some("INVALID_FORMAT")
    ensures r != [] && serializedLength(metadata.value).Some? ==> r[0].code == Some("MAX_SIZE")
  {
    if metadata.None? || !Truthy(metadata.value) then []
    else match serializedLength(metadata.value)
      case None => [FieldError("metadata", Some("INVALID_FORMAT"), "Metadata must be serializable")]
      case Some(length) =>
        if length > maxSize then
          [FieldError("metadata", Some("MAX_SIZE"), "Metadata size exceeds maximum allowed size of " + IntToString(maxSize) + " bytes")]
        else []
  }

  /** The errors one `validate()` call appends, in check order. */
  function CategoryErrors(input: CategoryInput, limits: Limits, host: Host): seq<FieldError> {
    NameErrors("Category", input.name, limits.nameMin, limits.nameMax)
    + SlugErrors(input.slug, limits.slugMax)
    + DescriptionErrors(input.description, limits.descriptionMax)
    + ImageErrors(input.image, host.protocolOf)
    + SortOrderErrors(input.sortOrder, limits.sortMin, limits.sortMax)
    + MetadataErrors(input.metadata, limits.metadataMax, host.serializedLength)
  }

  /** Every field of the input is acceptable on its own terms. */
  predicate Acceptable(input: CategoryInput, limits: Limits, host: Host) {
    && Given(input.name) && limits.nameMin <= |input.name.value| <= limits.nameMax && NameFormat(input.name.value)
    && (!Given(input.slug) || (|input.slug.value| <= limits.slugMax && SlugFormat(input.slug.value)))
    && (!Given(input.description) || |input.description.value| <= limits.descriptionMax)
    && (!Given(input.image) || (host.protocolOf(input.image.value).Some? && host.protocolOf(input.image.value).value in AllowedProtocols))
    && (input.sortOrder.Some? ==>
          IsInteger(input.sortOrder.value) && limits.sortMin as real <= input.sortOrder.value <= limits.sortMax as real)
    && (input.metadata.Some? && Truthy(input.metadata.value) ==>
          host.serializedLength(input.metadata.value).Some? && host.serializedLength(input.metadata.value).value <= limits.metadataMax)
  }

  /** One `validate()` call finds no error exactly when every field is acceptable, and at most seven otherwise. */
  lemma CategoryErrorsExactly(input: CategoryInput, limits: Limits, host: Host)
    ensures CategoryErrors(input, limits, host) == [] <==> Acceptable(input, limits, host)
    ensures |CategoryErrors(input, limits, host)| <= 7
  {
  }

  class CategoryValidator {
    const input: CategoryInput
    const limits: Limits
    const host: Host
    /** The error list; it starts empty and is only ever appended to. */
    var errors: seq<FieldError>

    constructor(input: CategoryInput, limits: Limits, host: Host)
      ensures this.input == input && this.limits == limits && this.host == host
      ensures errors == []
    {
      this.input := input;
      this.limits := limits;
      this.host := host;
      errors := [];
    }

    /** `validate()`: the six checks in order; the report shares the (accumulated) list. */
    method Validate() returns (r: Report)
      modifies this
      ensures errors == old(errors) + CategoryErrors(input, limits, host)
      ensures r == ReportOf(errors)
    {
      ghost var before := errors;
      ValidateName();
      ValidateSlug();
      ValidateDescription();
      ValidateImage();
      ValidateSortOrder();
      ValidateMetadata();
      Seqs.Concat6(before,
        NameErrors("Category", input.name, limits.nameMin, limits.nameMax),
        SlugErrors(input.slug, limits.slugMax),
        DescriptionErrors(input.description, limits.descriptionMax),
        ImageErrors(input.image, host.protocolOf),
        SortOrderErrors(input.sortOrder, limits.sortMin, limits.sortMax),
        MetadataErrors(input.metadata, limits.metadataMax, host.serializedLength));
      r := ReportOf(errors);
    }

    method ValidateName()
      modifies this
      ensures errors == old(errors) + NameErrors("Category", input.name, limits.nameMin, limits.nameMax)
    {
      errors := errors + NameErrors("Category", input.name, limits.nameMin, limits.nameMax);
    }

    method ValidateSlug()
      modifies this
      ensures errors == old(errors) + SlugErrors(input.slug, limits.slugMax)
    {
      errors := errors + SlugErrors(input.slug, limits.slugMax);
    }

    method ValidateDescription()
      modifies this
      ensures errors == old(errors) + DescriptionErrors(input.description, limits.descriptionMax)
    {
      errors := errors + DescriptionErrors(input.description, limits.descriptionMax);
    }

    method ValidateImage()
      modifies this
      ensures errors == old(errors) + ImageErrors(input.image, host.protocolOf)
    {
      errors := errors + ImageErrors(input.image, host.protocolOf);
    }

    method ValidateSortOrder()
      modifies this
      ensures errors == old(errors) + SortOrderErrors(input.sortOrder, limits.sortMin, limits.sortMax)
    {
      errors := errors + SortOrderErrors(input.sortOrder, limits.sortMin, limits.sortMax);
    }

    method ValidateMetadata()
      modifies this
      ensures errors == old(errors) + MetadataErrors(input.metadata, limits.metadataMax, host.serializedLength)
    {
      errors := errors + MetadataErrors(input.metadata, limits.metadataMax, host.serializedLength);
    }
  }

  /** A second `validate()` on the same validator reports every error of the first one twice. */
  method ValidateTwice(input: CategoryInput, limits: Limits, host: Host) returns (first: Report, second: Report)
    ensures first == ReportOf(CategoryErrors(input, limits, host))
    ensures second == ReportOf(CategoryErrors(input, limits, host) + CategoryErrors(input, limits, host))
  {
    var v := new CategoryValidator(input, limits, host);
    first := v.Validate();
    second := v.Validate();
  }
}
