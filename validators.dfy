/**
 * `validate_post_data`: checks a create-post JSON object for the three
 * required fields and their types, returning whether it is valid, the
 * missing fields and one error message per offending field.
 */
module Validators {
  import opened JsonData
  import opened Text
  import opened Wrappers

  /** The required fields, in the order the validator visits them. */
  const RequiredFields: seq<string> := ["name", "username", "body"]

  /** The message for a required field that holds something other than a string. */
  const TypeErrors: map<string, string> :=
    map["name" := "Name must be a string", "username" := "Username must be a string", "body" := "Body must be a string"]

  /** The message for a required field that holds a string that is empty once stripped. */
  const EmptyErrors: map<string, string> :=
    map["name" := "Name cannot be empty", "username" := "Username cannot be empty", "body" := "Body cannot be empty"]

  /** A field is missing when it is absent or mapped to `None`. */
  predicate IsMissing(data: map<string, Json>, field: string) {
    field !in data || data[field] == JNull
  }

  /** A field is acceptable when it holds a string with some non-whitespace content. */
  predicate HasContent(data: map<string, Json>, field: string) {
    field in data && data[field].JStr? && !AllSpace(data[field].s, Python)
  }

  /** The fields among `fields` that are missing, in the order of `fields`. */
  function MissingAmong(data: map<string, Json>, fields: seq<string>): seq<string> {
    if fields == [] then []
    else
      var last := fields[|fields| - 1];
      MissingAmong(data, fields[..|fields| - 1]) + (if IsMissing(data, last) then [last] else [])
  }

  function MissingFields(data: map<string, Json>): seq<string> {
    MissingAmong(data, RequiredFields)
  }

  /** The error a present field draws: not a string, or empty once stripped. */
  function FieldError(data: map<string, Json>, field: string): Option<string>
    requires field in TypeErrors && field in EmptyErrors
  {
    if field !in data then None
    else if !data[field].JStr? then Some(TypeErrors[field])
    else if |Strip(data[field].s, Python)| == 0 then Some(EmptyErrors[field])
    else None
  }

  /** The per-field errors, keyed by field name. */
  function FieldErrors(data: map<string, Json>): (errors: map<string, string>)
    ensures errors.Keys <= TypeErrors.Keys
  {
    map f | f in TypeErrors && f in EmptyErrors && FieldError(data, f).Some? :: FieldError(data, f).value
  }

  /** `errors` with the error of `field`, if it has one, recorded. */
  function Record(errors: map<string, string>, data: map<string, Json>, field: string): map<string, string>
    requires field in TypeErrors && field in EmptyErrors
  {
    var e := FieldError(data, field);
    if e.Some? then errors[field := e.value] else errors
  }

  /** One keyed assignment of the validator, seen as a step of `Record`. */
  lemma RecordStep(before: map<string, string>, after: map<string, string>, data: map<string, Json>, field: string)
    requires field in TypeErrors && field in EmptyErrors
    requires field in data && !data[field].JStr? ==> after == before[field := TypeErrors[field]]
    requires field in data && data[field].JStr? && |Strip(data[field].s, Python)| == 0 ==> after == before[field := EmptyErrors[field]]
    requires field !in data || (data[field].JStr? && |Strip(data[field].s, Python)| != 0) ==> after == before
    ensures after == Record(before, data, field)
  {
  }

  /** A required field has an entry in `FieldErrors` exactly when it draws an error, and the entry is that error. */
  lemma FieldErrorsLookup(data: map<string, Json>, field: string)
    requires field in TypeErrors && field in EmptyErrors
    ensures field in FieldErrors(data) <==> FieldError(data, field).Some?
    ensures field in FieldErrors(data) ==> FieldErrors(data)[field] == FieldError(data, field).value
  {
  }

  /** Recording the three fields one after the other yields `FieldErrors`. */
  lemma FieldErrorsInSteps(data: map<string, Json>)
    ensures FieldErrors(data) == Record(Record(Record(map[], data, "name"), data, "username"), data, "body")
  {
    var r0 := Record(map[], data, "name");
    var r1 := Record(r0, data, "username");
    var r := Record(r1, data, "body");
    var e := FieldErrors(data);
    FieldErrorsLookup(data, "name");
    FieldErrorsLookup(data, "username");
    FieldErrorsLookup(data, "body");
    assert r.Keys <= TypeErrors.Keys;
    assert TypeErrors.Keys == {"name", "username", "body"};
    forall f | f in TypeErrors ensures (f in r <==> f in e) && (f in r ==> r[f] == e[f]) {
      assert f == "name" || f == "username" || f == "body";
    }
    assert r.Keys == e.Keys;
  }

  /** Valid exactly when nothing is missing and no field has an error. */
  predicate IsValid(data: map<string, Json>) {
    MissingFields(data) == [] && FieldErrors(data) == map[]
  }

  /**
   * The validator as the source writes it: a loop over the required fields
   * that appends to the missing list, then three keyed assignments.
   */
  method ValidatePostData(data: map<string, Json>)
    returns (isValid: bool, missingFields: seq<string>, fieldErrors: map<string, string>)
    ensures missingFields == MissingFields(data)
    ensures fieldErrors == FieldErrors(data)
    ensures isValid <==> missingFields == [] && fieldErrors == map[]
  {
    missingFields := [];
    fieldErrors := map[];

    for i := 0 to |RequiredFields|
      invariant missingFields == MissingAmong(data, RequiredFields[..i])
    {
      var field := RequiredFields[i];
      assert RequiredFields[..i + 1][..i] == RequiredFields[..i];
      if field !in data {
        missingFields := missingFields + [field];
      } else if data[field] == JNull {
        missingFields := missingFields + [field];
      }
    }
    assert RequiredFields[..|RequiredFields|] == RequiredFields;

    ghost var before := fieldErrors;
    if "name" in data && !data["name"].JStr? {
      fieldErrors := fieldErrors["name" := "Name must be a string"];
    } else if "name" in data && |Strip(data["name"].s, Python)| == 0 {
      fieldErrors := fieldErrors["name" := "Name cannot be empty"];
    }
    RecordStep(before, fieldErrors, data, "name");

    before := fieldErrors;
    if "username" in data && !data["username"].JStr? {
      fieldErrors := fieldErrors["username" := "Username must be a string"];
    } else if "username" in data && |Strip(data["username"].s, Python)| == 0 {
      fieldErrors := fieldErrors["username" := "Username cannot be empty"];
    }
    RecordStep(before, fieldErrors, data, "username");

    before := fieldErrors;
    if "body" in data && !data["body"].JStr? {
      fieldErrors := fieldErrors["body" := "Body must be a string"];
    } else if "body" in data && |Strip(data["body"].s, Python)| == 0 {
      fieldErrors := fieldErrors["body" := "Body cannot be empty"];
    }
    RecordStep(before, fieldErrors, data, "body");
    FieldErrorsInSteps(data);

    isValid := |missingFields| == 0 && |fieldErrors| == 0;
  }

  /** The missing list is name, username, body, each kept exactly when missing, in that order. */
  lemma MissingFieldsInOrder(data: map<string, Json>)
    ensures MissingFields(data) ==
      (if IsMissing(data, "name") then ["name"] else [])
      + (if IsMissing(data, "username") then ["username"] else [])
      + (if IsMissing(data, "body") then ["body"] else [])
  {
    var one, two := RequiredFields[..1], RequiredFields[..2];
    assert one[..0] == [] && two[..1] == one && RequiredFields[..2] == two;
    assert MissingAmong(data, one) == if IsMissing(data, "name") then ["name"] else [];
    assert MissingAmong(data, two) == MissingAmong(data, one) + if IsMissing(data, "username") then ["username"] else [];
  }

  /** A required field is listed as missing exactly when it is absent or `None`; no other name is listed. */
  lemma MissingFieldsMembership(data: map<string, Json>, field: string)
    ensures field in MissingFields(data) <==> field in RequiredFields && IsMissing(data, field)
  {
    MissingFieldsInOrder(data);
  }

  /** The missing list names each field at most once. */
  lemma MissingFieldsDistinct(data: map<string, Json>)
    ensures forall i, j :: 0 <= i < j < |MissingFields(data)| ==> MissingFields(data)[i] != MissingFields(data)[j]
  {
    MissingFieldsInOrder(data);
  }

  /** The error a required field draws, case by case. */
  lemma FieldErrorCases(data: map<string, Json>, field: string)
    requires field in RequiredFields
    ensures field !in data ==> field !in FieldErrors(data)
    ensures field in data && !data[field].JStr? ==>
      field in FieldErrors(data) && FieldErrors(data)[field] == TypeErrors[field]
    ensures field in data && data[field].JStr? && AllSpace(data[field].s, Python) ==>
      field in FieldErrors(data) && FieldErrors(data)[field] == EmptyErrors[field]
    ensures HasContent(data, field) ==> field !in FieldErrors(data)
  {
    assert field in TypeErrors && field in EmptyErrors;
    FieldErrorsLookup(data, field);
    if field in data && data[field].JStr? {
      StripEmptyIff(data[field].s, Python);
    }
  }

  /** A field mapped to `None` is both missing and reported as not a string. */
  lemma NullFieldIsMissingAndNotString(data: map<string, Json>, field: string)
    requires field in RequiredFields && field in data && data[field] == JNull
    ensures field in MissingFields(data)
    ensures field in FieldErrors(data) && FieldErrors(data)[field] == TypeErrors[field]
  {
    MissingFieldsMembership(data, field);
    FieldErrorCases(data, field);
  }

  /** A whitespace-only string is an error but not a missing field. */
  lemma BlankStringIsNotMissing(data: map<string, Json>, field: string)
    requires field in RequiredFields && field in data && data[field].JStr? && AllSpace(data[field].s, Python)
    ensures field !in MissingFields(data)
    ensures field in FieldErrors(data) && FieldErrors(data)[field] == EmptyErrors[field]
  {
    MissingFieldsMembership(data, field);
    FieldErrorCases(data, field);
  }

  /** Valid exactly when all three fields are strings with non-whitespace content. */
  lemma ValidIff(data: map<string, Json>)
    ensures IsValid(data) <==>
      HasContent(data, "name") && HasContent(data, "username") && HasContent(data, "body")
  {
    MissingFieldsInOrder(data);
    FieldErrorCases(data, "name");
    FieldErrorCases(data, "username");
    FieldErrorCases(data, "body");
    if HasContent(data, "name") && HasContent(data, "username") && HasContent(data, "body") {
      assert FieldErrors(data).Keys == {};
    }
  }

  /** When name and username have content and body is a whitespace-only string, the empty body is the only error. */
  lemma OnlyBodyBlank(data: map<string, Json>)
    requires HasContent(data, "name") && HasContent(data, "username")
    requires "body" in data && data["body"].JStr? && AllSpace(data["body"].s, Python)
    ensures FieldErrors(data) == map["body" := "Body cannot be empty"]
    ensures !IsValid(data)
  {
    FieldErrorCases(data, "name");
    FieldErrorCases(data, "username");
    FieldErrorCases(data, "body");
    var e := FieldErrors(data);
    assert e.Keys == {"body"} by {
      assert e.Keys <= {"name", "username", "body"};
    }
  }

  /** Keys other than the three required ones never change the result. */
  lemma OnlyRequiredFieldsMatter(d1: map<string, Json>, d2: map<string, Json>)
    requires forall f :: f in RequiredFields ==> (f in d1 <==> f in d2) && (f in d1 ==> d1[f] == d2[f])
    ensures MissingFields(d1) == MissingFields(d2)
    ensures FieldErrors(d1) == FieldErrors(d2)
  {
    MissingFieldsInOrder(d1);
    MissingFieldsInOrder(d2);
    assert TypeErrors.Keys == {"name", "username", "body"};
    forall f | f in TypeErrors
      ensures (f in FieldErrors(d1) <==> f in FieldErrors(d2))
      ensures f in FieldErrors(d1) ==> FieldErrors(d1)[f] == FieldErrors(d2)[f]
    {
      assert f in RequiredFields;
      assert FieldError(d1, f) == FieldError(d2, f);
      FieldErrorsLookup(d1, f);
      FieldErrorsLookup(d2, f);
    }
    assert FieldErrors(d1).Keys == FieldErrors(d2).Keys;
  }
}
