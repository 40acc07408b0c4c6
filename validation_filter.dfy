/**
 * `ValidationFilter<T>`: the endpoint filter that finds the argument of
 * type `T`, runs the data-annotation and FluentValidation validators on it,
 * merges their errors and either answers with a validation problem whose
 * keys carry serialization names or lets the request through to `next`.
 *
 * The validators themselves are not modelled: each one's verdict on the
 * argument is an input. Arguments are given by their runtime type, `None`
 * for a null argument.
 */
module ValidationFilter {
  import opened Wrappers
  import opened Exceptions
  import opened ErrorMaps
  import opened TypeRegistry
  import opened SerializationNames
  import opened ValidationProblemExtensions
  import opened ResolutionProperties

  /** What a validator reports: whether the object is valid, and its errors by key. */
  datatype ValidatorResult = ValidatorResult(isValid: bool, errors: ErrorMap)

  /** `ValidationFilterOptions`; the flag is `false` unless initialized. */
  datatype ValidationFilterOptions = ValidationFilterOptions(skipFirstLevelOnValidationKeys: bool)

  /** What `InvokeAsync` returns: a `BadRequest<string>`, a `ValidationProblem`
      with its errors, whatever `next` returned, or the exception it threw. */
  datatype FilterResult =
    | BadRequest(message: string)
    | ValidationProblem(errors: ErrorMap)
    | Next
    | Failed(exception: ExceptionKind)

  const ArgumentNotFoundMessage: string :=
    "The request is invalid - Could not find argument to validate from EndpointFilterInvocationContext."

  // ---------------------------------------------------------------------
  // The argument to validate
  // ---------------------------------------------------------------------

  /**
   * `context.Arguments.SingleOrDefault(x => x?.GetType() == typeof(T))`:
   * the index of the only argument whose runtime type is exactly `t`, none
   * when there is no such argument, and an `InvalidOperationException` when
   * there are several.
   */
  function SingleOrDefault(args: seq<Option<TypeId>>, t: TypeId): (r: Outcome<Option<nat>>)
    ensures r.Threw? <==> multiset(args)[Some(t)] >= 2
    ensures r.Threw? ==> r.exception == InvalidOperationException
    ensures r == Completed(None) <==> Some(t) !in args
    ensures r.Completed? && r.value.Some? ==>
      r.value.value < |args| && args[r.value.value] == Some(t) && multiset(args)[Some(t)] == 1
    decreases |args|
  {
    if |args| == 0 then Completed(None)
    else
      assert args == [args[0]] + args[1..];
      var rest := SingleOrDefault(args[1..], t);
      if rest.Threw? then rest
      else if args[0] == Some(t) then
        if rest.value.None? then Completed(Some(0)) else Threw(InvalidOperationException)
      else if rest.value.None? then rest
      else Completed(Some(rest.value.value + 1))
  }

  // ---------------------------------------------------------------------
  // The two validators
  // ---------------------------------------------------------------------

  /** `ValidateUsingDataAnnotations`: a new ordinal dictionary, empty when
      `MiniValidator.TryValidate` succeeds and a copy of its errors otherwise.
      The copy constructor would throw on a repeated key; MiniValidator's
      errors are themselves a dictionary, so they never repeat one. */
  function ValidateUsingDataAnnotations(annotations: ValidatorResult): ErrorMap {
    if annotations.isValid then [] else annotations.errors
  }

  /** What `ValidateUsingFluentValidation` returns: nothing when no
      `IValidator<T>` is registered or it passes, its errors otherwise. */
  function FluentErrors(validator: Option<ValidatorResult>): ErrorMap {
    if validator.None? || validator.value.isValid then [] else validator.value.errors
  }

  /**
   * `ValidateUsingFluentValidation`: the errors of a failing validator are
   * added one by one to a new dictionary. `Dictionary.Add` would throw on a
   * repeated key; `ValidationResult.ToDictionary` never repeats one, so it
   * never does.
   */
  method ValidateUsingFluentValidation(validator: Option<ValidatorResult>) returns (result: ErrorMap)
    requires validator.Some? ==> DistinctKeys(validator.value.errors)
    ensures result == FluentErrors(validator)
    ensures DistinctKeys(result)
  {
    result := [];
    if validator.None? {
      return;
    }
    var validationResult := validator.value;
    if validationResult.isValid {
      return;
    }
    var errors := validationResult.errors;
    for i := 0 to |errors|
      invariant result == errors[..i]
    {
      assert errors[i].0 !in Keys(result) by {
        forall j | 0 <= j < i ensures Keys(result)[j] != errors[i].0 {
          assert Keys(errors)[j] == result[j].0 && Keys(errors)[i] == errors[i].0;
        }
      }
      result := result + [errors[i]];
      assert result == errors[..i + 1];
    }
    assert errors[..|errors|] == errors;
  }

  // ---------------------------------------------------------------------
  // The decision
  // ---------------------------------------------------------------------

  /** `validationFilterOptions?.SkipFirstLevelOnValidationKeys ?? false`. */
  function SkipFirstLevel(options: Option<ValidationFilterOptions>): bool {
    options.Some? && options.value.skipFirstLevelOnValidationKeys
  }

  /** The errors `InvokeAsync` decides on: the data-annotation errors merged
      with the FluentValidation errors. */
  function FilterErrors(annotations: ValidatorResult, validator: Option<ValidatorResult>): ErrorMap {
    MergeErrors(ValidateUsingDataAnnotations(annotations), FluentErrors(validator))
  }

  /** The outcome of `InvokeAsync` for the filter of type `t`. */
  function Filter(reg: Registry, t: TypeId, options: Option<ValidationFilterOptions>,
                  args: seq<Option<TypeId>>, annotations: ValidatorResult,
                  validator: Option<ValidatorResult>): FilterResult
  {
    match SingleOrDefault(args, t)
    case Threw(e) => Failed(e)
    case Completed(None) => BadRequest(ArgumentNotFoundMessage)
    case Completed(Some(_)) => Respond(reg, t, SkipFirstLevel(options), FilterErrors(annotations, validator))
  }

  /** The answer once the argument was found: the validation problem with
      resolved names when there are errors, and `next` otherwise. */
  function Respond(reg: Registry, t: TypeId, skip: bool, errors: ErrorMap): FilterResult {
    if |errors| > 0 then
      var resolved := Resolve(reg, t, skip, errors);
      if resolved.thrown.Some? then Failed(resolved.thrown.value) else ValidationProblem(resolved.out)
    else Next
  }

  /** `TypedResults.ValidationProblem(errors)`: the problem holds the
      dictionary `MergeErrors` built, whose arrays are all its own. */
  method NewProblem(m: ErrorMap) returns (problem: ErrorDictionary)
    requires DistinctKeys(m)
    ensures fresh(problem) && problem.Valid() && SeparateArrays(problem.entries)
    ensures fresh(Arrays(problem.entries))
    ensures problem.Contents() == m
  {
    var es: Entries := [];
    for i := 0 to |m|
      invariant |es| == i
      invariant forall j :: 0 <= j < i ==> es[j].0 == m[j].0 && es[j].1[..] == m[j].1
      invariant SeparateArrays(es) && fresh(Arrays(es))
    {
      var values := m[i].1;
      var arr := new string[|values|](j requires 0 <= j < |values| => values[j]);
      ArraysSnoc(es, m[i].0, arr);
      es := es + [(m[i].0, arr)];
    }
    problem := new ErrorDictionary();
    problem.entries := es;
    assert EntryKeys(es) == Keys(m);
  }

  /** The keys and messages of a dictionary, read entry by entry. */
  method ErrorsOf(d: ErrorDictionary) returns (m: ErrorMap)
    ensures m == d.Contents()
  {
    m := [];
    for i := 0 to |d.entries|
      invariant |m| == i
      invariant forall j :: 0 <= j < i ==> m[j] == (d.entries[j].0, d.entries[j].1[..])
    {
      m := m + [(d.entries[i].0, d.entries[i].1[..])];
    }
  }

  /**
   * `InvokeAsync` of the filter for type `t`: the bad request when no
   * argument has that type, the validation problem with resolved names when
   * either validator reports errors, and `next` otherwise.
   */
  method InvokeAsync(reg: Registry, t: TypeId, options: Option<ValidationFilterOptions>,
                     args: seq<Option<TypeId>>, annotations: ValidatorResult,
                     validator: Option<ValidatorResult>) returns (r: FilterResult)
    requires validator.Some? ==> DistinctKeys(validator.value.errors)
    ensures r == Filter(reg, t, options, args, annotations, validator)
  {
    var argToValidate := SingleOrDefault(args, t);
    if argToValidate.Threw? {
      return Failed(argToValidate.exception);
    }
    if argToValidate.value.None? {
      return BadRequest(ArgumentNotFoundMessage);
    }
    var fluentErrors := ValidateUsingFluentValidation(validator);
    var errors := MergeErrors(ValidateUsingDataAnnotations(annotations), fluentErrors);
    r := RespondTo(reg, t, SkipFirstLevel(options), errors);
  }

  /** The end of `InvokeAsync` once the errors are known. */
  method RespondTo(reg: Registry, t: TypeId, skip: bool, errors: ErrorMap) returns (r: FilterResult)
    requires DistinctKeys(errors)
    ensures r == Respond(reg, t, skip, errors)
  {
    if |errors| > 0 {
      var problem := NewProblem(errors);
      var newErrors, thrown := ResolveProblemSerializationTypeNames(reg, t, problem, skip);
      if thrown.Some? {
        return Failed(thrown.value);
      }
      var resolved := ErrorsOf(newErrors);
      return ValidationProblem(resolved);
    }
    return Next;
  }

  // ---------------------------------------------------------------------
  // What the filter promises
  // ---------------------------------------------------------------------

  /** Merged errors are empty exactly when both validators report none. */
  lemma FilterErrorsEmpty(annotations: ValidatorResult, validator: Option<ValidatorResult>)
    ensures |FilterErrors(annotations, validator)| == 0 <==>
      |ValidateUsingDataAnnotations(annotations)| == 0 && |FluentErrors(validator)| == 0
  {
    var a, b := ValidateUsingDataAnnotations(annotations), FluentErrors(validator);
    MergeKeySet(a, b);
    if |a| > 0 {
      assert Keys(a)[0] in Keys(MergeErrors(a, b));
    } else if |b| > 0 {
      assert Keys(b)[0] in Keys(MergeErrors(a, b));
    }
  }

  /** Without an argument of exactly type `t` the answer is the fixed bad
      request, and only then is it a bad request. */
  lemma FilterBadRequest(reg: Registry, t: TypeId, options: Option<ValidationFilterOptions>,
                         args: seq<Option<TypeId>>, annotations: ValidatorResult,
                         validator: Option<ValidatorResult>)
    ensures Filter(reg, t, options, args, annotations, validator).BadRequest? <==> Some(t) !in args
    ensures Some(t) !in args ==>
      Filter(reg, t, options, args, annotations, validator) == BadRequest(ArgumentNotFoundMessage)
  {
    var found := SingleOrDefault(args, t);
    if found.Completed? && found.value.Some? {
      RespondIsNotBadRequest(reg, t, SkipFirstLevel(options), FilterErrors(annotations, validator));
    }
  }

  lemma RespondIsNotBadRequest(reg: Registry, t: TypeId, skip: bool, errors: ErrorMap)
    ensures !Respond(reg, t, skip, errors).BadRequest?
  {
  }

  /** Several arguments of exactly type `t` make `SingleOrDefault` throw. */
  lemma FilterAmbiguousArgument(reg: Registry, t: TypeId, options: Option<ValidationFilterOptions>,
                                args: seq<Option<TypeId>>, annotations: ValidatorResult,
                                validator: Option<ValidatorResult>)
    requires multiset(args)[Some(t)] >= 2
    ensures Filter(reg, t, options, args, annotations, validator) == Failed(InvalidOperationException)
  {
  }

  /** `next` is called exactly when the argument is found and neither
      validator reports an error: a missing or passing FluentValidation
      validator contributes nothing. */
  lemma FilterNext(reg: Registry, t: TypeId, options: Option<ValidationFilterOptions>,
                   args: seq<Option<TypeId>>, annotations: ValidatorResult,
                   validator: Option<ValidatorResult>)
    ensures Filter(reg, t, options, args, annotations, validator) == Next <==>
      multiset(args)[Some(t)] == 1 &&
      (annotations.isValid || |annotations.errors| == 0) &&
      (validator.None? || validator.value.isValid || |validator.value.errors| == 0)
  {
    FilterErrorsEmpty(annotations, validator);
    var found := SingleOrDefault(args, t);
    if found.Completed? && found.value.Some? {
      var errors := FilterErrors(annotations, validator);
      if |errors| > 0 {
        ResolvedIsNotNext(reg, t, SkipFirstLevel(options), errors);
      }
    }
  }

  lemma ResolvedIsNotNext(reg: Registry, t: TypeId, skip: bool, errors: ErrorMap)
    requires |errors| > 0
    ensures Respond(reg, t, skip, errors) != Next
  {
  }

  /** A validation problem holds the resolved errors: a dictionary with at
      least one and at most as many keys as the merged errors. */
  lemma FilterProblem(reg: Registry, t: TypeId, options: Option<ValidationFilterOptions>,
                      args: seq<Option<TypeId>>, annotations: ValidatorResult,
                      validator: Option<ValidatorResult>)
    requires Filter(reg, t, options, args, annotations, validator).ValidationProblem?
    ensures var problem := Filter(reg, t, options, args, annotations, validator).errors;
      var errors := FilterErrors(annotations, validator);
      problem == Resolve(reg, t, SkipFirstLevel(options), errors).out &&
      DistinctKeys(problem) && 0 < |problem| <= |errors|
  {
    var errors := FilterErrors(annotations, validator);
    var skip := SkipFirstLevel(options);
    ResolveShape(reg, t, skip, errors);
    RespondProblem(reg, t, skip, errors);
  }

  lemma RespondProblem(reg: Registry, t: TypeId, skip: bool, errors: ErrorMap)
    requires Respond(reg, t, skip, errors).ValidationProblem?
    ensures Respond(reg, t, skip, errors).errors == Resolve(reg, t, skip, errors).out
    ensures |Resolve(reg, t, skip, errors).out| > 0
  {
    ResolveNonEmpty(reg, t, skip, errors);
  }

  /** Errors under keys that name nothing on `t` reach the problem exactly
      as merged: every message of both validators is there. */
  lemma FilterKeepsUnknownNames(reg: Registry, t: TypeId, options: Option<ValidationFilterOptions>,
                                args: seq<Option<TypeId>>, annotations: ValidatorResult,
                                validator: Option<ValidatorResult>)
    requires multiset(args)[Some(t)] == 1 && |FilterErrors(annotations, validator)| > 0
    requires forall k :: k in Keys(ValidateUsingDataAnnotations(annotations)) + Keys(FluentErrors(validator)) ==>
      Unknown(reg, t, k)
    ensures Filter(reg, t, options, args, annotations, validator) ==
      ValidationProblem(FilterErrors(annotations, validator))
  {
    var a, b := ValidateUsingDataAnnotations(annotations), FluentErrors(validator);
    var errors := MergeErrors(a, b);
    MergeKeySet(a, b);
    forall i | 0 <= i < |errors| ensures Unknown(reg, t, errors[i].0) {
      assert Keys(errors)[i] == errors[i].0;
      assert errors[i].0 in Keys(a) + Keys(b);
    }
    ResolveKeepsUnknownNames(reg, t, SkipFirstLevel(options), errors);
  }

  /** With a well-formed registry and no key ending in a dot, the filter
      throws only when several arguments have type `t`. */
  lemma FilterCompletes(reg: Registry, t: TypeId, options: Option<ValidationFilterOptions>,
                        args: seq<Option<TypeId>>, annotations: ValidatorResult,
                        validator: Option<ValidatorResult>)
    requires WellFormed(reg) && multiset(args)[Some(t)] <= 1
    requires forall k :: k in Keys(ValidateUsingDataAnnotations(annotations)) + Keys(FluentErrors(validator)) ==>
      NoTrailingDot(k)
    ensures !Filter(reg, t, options, args, annotations, validator).Failed?
  {
    var a, b := ValidateUsingDataAnnotations(annotations), FluentErrors(validator);
    var errors := MergeErrors(a, b);
    MergeKeySet(a, b);
    forall i | 0 <= i < |errors| ensures NoTrailingDot(errors[i].0) {
      assert Keys(errors)[i] == errors[i].0;
      assert errors[i].0 in Keys(a) + Keys(b);
    }
    ResolveCompletes(reg, t, SkipFirstLevel(options), errors);
  }

  /** Without options the filter behaves as with the flag's default, `false`. */
  lemma FilterDefaultOptions(reg: Registry, t: TypeId, args: seq<Option<TypeId>>,
                             annotations: ValidatorResult, validator: Option<ValidatorResult>)
    ensures Filter(reg, t, None, args, annotations, validator) ==
      Filter(reg, t, Some(ValidationFilterOptions(false)), args, annotations, validator)
  {
  }
}
