/** src/common/custom-validations.ts: formatErrors, which folds the
    validator's errors into one BadRequestException body keyed by property. */
module CustomValidations {
  import opened Common

  /** One validation error: the property it is about and the values of its
      `constraints` object, in insertion order (None when the error carries
      no constraints object). */
  datatype ValidationError = ValidationError(property: string, constraints: Option<seq<string>>)

  /** The body of the BadRequestException formatErrors builds. */
  datatype ValidationResponse = ValidationResponse(statusCode: int, errors: map<string, seq<string>>, error: string)

  /** Object.values on undefined. */
  const NO_CONSTRAINTS: Exception := TypeError("Cannot convert undefined or null to object")

  /** Error `k` is the last one about its property among the first `n`. */
  predicate LastBefore(errors: seq<ValidationError>, k: int, n: int)
    requires 0 <= k < n <= |errors|
  {
    forall j :: k < j < n ==> errors[j].property != errors[k].property
  }

  /** The properties of the first `n` errors. */
  function Properties(errors: seq<ValidationError>, n: int): set<string>
    requires 0 <= n <= |errors|
  {
    set j | 0 <= j < n :: errors[j].property
  }

  /** `acc` is the fold of the first `n` errors: keyed by their properties,
      each bound to the messages of the last error about it. */
  predicate Folded(errors: seq<ValidationError>, acc: map<string, seq<string>>, n: int)
    requires 0 <= n <= |errors|
  {
    (forall j :: 0 <= j < n ==> errors[j].constraints.Some?) &&
    acc.Keys == Properties(errors, n) &&
    forall k :: 0 <= k < n && LastBefore(errors, k, n) ==>
      errors[k].constraints.Some? && acc[errors[k].property] == errors[k].constraints.value
  }

  /** One step of the reduce: writing error `n` keeps the fold. */
  lemma FoldStep(errors: seq<ValidationError>, acc: map<string, seq<string>>, n: int)
    requires 0 <= n < |errors| && Folded(errors, acc, n) && errors[n].constraints.Some?
    ensures Folded(errors, acc[errors[n].property := errors[n].constraints.value], n + 1)
  {
    var acc' := acc[errors[n].property := errors[n].constraints.value];
    assert Properties(errors, n + 1) == Properties(errors, n) + {errors[n].property};
    forall k | 0 <= k < n + 1 && LastBefore(errors, k, n + 1)
      ensures acc'[errors[k].property] == errors[k].constraints.value
    {
      if k < n {
        assert errors[n].property != errors[k].property;
        assert LastBefore(errors, k, n);
      }
    }
  }

  /** formatErrors: the keys of `errors` are exactly the properties named,
      each bound to the constraint messages of the last error about it; the
      response is a 400 'Validation Error'. An error without constraints
      makes Object.values throw. */
  method FormatErrors(errors: seq<ValidationError>) returns (r: Result<ValidationResponse>)
    ensures r.Ok? <==> forall i :: 0 <= i < |errors| ==> errors[i].constraints.Some?
    ensures r.Err? ==> r.error == NO_CONSTRAINTS
    ensures r.Ok? ==>
              r.value.statusCode == 400 && r.value.error == "Validation Error" &&
              r.value.errors.Keys == Properties(errors, |errors|) &&
              forall k :: 0 <= k < |errors| && LastBefore(errors, k, |errors|) ==>
                r.value.errors[errors[k].property] == errors[k].constraints.value
  {
    var acc: map<string, seq<string>> := map[];
    var i := 0;
    while i < |errors|
      invariant 0 <= i <= |errors|
      invariant Folded(errors, acc, i)
    {
      var error := errors[i];
      if error.constraints.None? {
        return Err(NO_CONSTRAINTS);
      }
      FoldStep(errors, acc, i);
      acc := acc[error.property := error.constraints.value];
      i := i + 1;
    }
    r := Ok(ValidationResponse(400, acc, "Validation Error"));
  }
}
