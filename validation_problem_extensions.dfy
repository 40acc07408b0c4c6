/**
 * `ValidationProblemExtensions` as the .NET code runs it: the errors are a
 * dictionary from keys to message ARRAYS, the new dictionary is built
 * entry by entry, and message arrays are renamed in place, possibly after
 * they have been stored. Every method is proved to agree with the value
 * level description in module `SerializationNames`.
 */
module ValidationProblemExtensions {
  import opened Wrappers
  import opened Exceptions
  import opened Strings
  import opened ErrorMaps
  import opened TypeRegistry
  import opened SerializationNames

  /** The entries of an `IDictionary<string, string[]>`, in enumeration order. */
  type Entries = seq<(string, array<string>)>

  function EntryKeys(es: Entries): (ks: seq<string>)
    ensures |ks| == |es|
    ensures forall i :: 0 <= i < |es| ==> ks[i] == es[i].0
  {
    seq(|es|, i requires 0 <= i < |es| => es[i].0)
  }

  ghost function Arrays(es: Entries): set<array<string>> {
    set i | 0 <= i < |es| :: es[i].1
  }

  /** The keys with the current contents of their arrays. */
  ghost function Snapshot(es: Entries): (m: ErrorMap)
    reads Arrays(es)
    ensures |m| == |es|
    ensures forall i :: 0 <= i < |es| ==> m[i] == (es[i].0, es[i].1[..])
    ensures Keys(m) == EntryKeys(es)
  {
    seq(|es|, i requires 0 <= i < |es| reads Arrays(es) => (es[i].0, es[i].1[..]))
  }

  /** Every entry holds its own array. */
  ghost predicate SeparateArrays(es: Entries) {
    forall i, j :: 0 <= i < j < |es| ==> es[i].1 != es[j].1
  }

  /** The `Dictionary<string, string[]>(StringComparer.Ordinal)` being built. */
  class ErrorDictionary {
    var entries: Entries

    ghost predicate Valid()
      reads this
    {
      NoDuplicates(EntryKeys(entries))
    }

    ghost function Contents(): ErrorMap
      reads this, Arrays(entries)
    {
      Snapshot(entries)
    }

    constructor()
      ensures Valid() && entries == []
    {
      entries := [];
    }
  }

  /**
   * `AddOrMergeErrors`: a new key stores the given array itself; an
   * existing key gets a NEW array with the union of the messages.
   */
  method AddOrMergeErrors(errors: ErrorDictionary, key: string, values: array<string>)
    requires errors.Valid()
    modifies errors
    ensures errors.Valid()
    ensures errors.Contents() == Merged(old(errors.Contents()), key, values[..])
    ensures key !in old(EntryKeys(errors.entries)) ==> errors.entries == old(errors.entries) + [(key, values)]
    ensures key in old(EntryKeys(errors.entries)) ==>
      fresh(Arrays(errors.entries) - old(Arrays(errors.entries)))
    ensures fresh(Arrays(errors.entries) - old(Arrays(errors.entries)) - {values})
  {
    ghost var m := errors.Contents();
    var ks := EntryKeys(errors.entries);
    if key in ks {
      var i := IndexOf(ks, key);
      var existingValues := errors.entries[i].1;
      var merged := Distinct(existingValues[..] + values[..]);
      var arr := new string[|merged|](j requires 0 <= j < |merged| => merged[j]);
      assert arr[..] == merged;
      errors.entries := errors.entries[i := (key, arr)];
      assert EntryKeys(errors.entries) == ks;
      assert errors.Contents() == m[i := (key, merged)];
    } else {
      errors.entries := errors.entries + [(key, values)];
      assert EntryKeys(errors.entries) == ks + [key];
    }
  }

  /** `ReplaceSerializationTypeName`, renaming the array in place. */
  method ReplaceSerializationTypeName(values: array<string>, originalName: string, serializedName: string)
    returns (thrown: Option<ExceptionKind>)
    modifies values
    ensures match Renamed(old(values[..]), originalName, serializedName)
      case Threw(e) => thrown == Some(e) && values[..] == old(values[..])
      case Completed(r) => thrown == None && values[..] == r
  {
    ghost var before := values[..];
    for i := 0 to values.Length
      invariant values[i..] == before[i..]
      invariant |originalName| == 0 ==> i == 0
      invariant |originalName| > 0 ==>
        forall j :: 0 <= j < i ==> values[j] == RenameMessage(before[j], originalName, serializedName)
    {
      if |originalName| == 0 {
        assert OccursAt(values[i], originalName, 0);
      }
      if Contains(values[i], originalName) {
        if |originalName| == 0 {
          return Some(ArgumentException);
        }
        values[i] := ReplaceAll(values[i], originalName, serializedName);
      }
    }
    return None;
  }

  /** `FormatAndAddValidationErrors`. */
  method FormatAndAddValidationErrors(newErrors: ErrorDictionary, key: string, values: array<string>, skip: bool)
    requires newErrors.Valid()
    modifies newErrors
    ensures newErrors.Valid()
    ensures newErrors.Contents() == Formatted(old(newErrors.Contents()), key, values[..], skip)
    ensures StoresInput(old(newErrors.Contents()), key, skip) ==>
      newErrors.entries == old(newErrors.entries) + [(key, values)]
    ensures !StoresInput(old(newErrors.Contents()), key, skip) ==>
      fresh(Arrays(newErrors.entries) - old(Arrays(newErrors.entries)))
    ensures fresh(Arrays(newErrors.entries) - old(Arrays(newErrors.entries)) - {values})
  {
    ghost var m := newErrors.Contents();
    if skip && '.' in key {
      AddWithoutFirstLevel(newErrors, key, values);
    } else {
      assert Keys(m) == EntryKeys(newErrors.entries);
      AddOrMergeErrors(newErrors, key, values);
    }
  }

  /** The branch of `FormatAndAddValidationErrors` that skips the first
      level of a dotted key: a new array goes to the dictionary. */
  method AddWithoutFirstLevel(newErrors: ErrorDictionary, key: string, values: array<string>)
    requires newErrors.Valid() && '.' in key
    modifies newErrors
    ensures newErrors.Valid()
    ensures newErrors.Contents() == Formatted(old(newErrors.Contents()), key, values[..], true)
    ensures fresh(Arrays(newErrors.entries) - old(Arrays(newErrors.entries)))
  {
    var dot := FirstIndex(key, '.');
    FormattedSkipping(newErrors.Contents(), key, values[..]);
    var arr := StripWrapperPrefixes(values, key[..dot]);
    AddOrMergeErrors(newErrors, key[dot + 1..], arr);
  }

  lemma FormattedSkipping(m: ErrorMap, key: string, values: seq<string>)
    requires '.' in key
    ensures var dot := FirstIndex(key, '.');
      Formatted(m, key, values, true) == Merged(m, key[dot + 1..], StripAll(values, key[..dot]))
  {
  }

  /** The `values.Select(...)` of the skipped level: a new array whose
      messages have the level's wrapper prefix removed. */
  method StripWrapperPrefixes(values: array<string>, depthKeyToSkip: string) returns (arr: array<string>)
    ensures fresh(arr)
    ensures arr[..] == StripAll(values[..], depthKeyToSkip)
  {
    var newValues: seq<string> := [];
    for i := 0 to values.Length
      invariant newValues == StripAll(values[..i], depthKeyToSkip)
    {
      var startKeyToReplace := WrapperPrefix(depthKeyToSkip);
      var value := values[i];
      newValues := newValues + [if StartsWith(value, startKeyToReplace) then ReplaceAll(value, startKeyToReplace, "'") else value];
    }
    assert values[..values.Length] == values[..];
    arr := new string[|newValues|](j requires 0 <= j < |newValues| => newValues[j]);
    assert arr[..] == newValues;
  }

  /** The walk continued from a point where the segments `done` have been
      written and `name` is the last serialization name seen. */
  ghost function Continue(done: seq<string>, name: Option<string>, r: Outcome<PathResult>): Outcome<PathResult> {
    match r
    case Threw(e) => Threw(e)
    case Completed(rest) =>
      Completed(PathResult(done + rest.segments, if rest.lastName.Some? then rest.lastName else name))
  }

  lemma ContinueStart(r: Outcome<PathResult>)
    ensures Continue([], None, r) == r
  {
    if r.Completed? {
      assert [] + r.value.segments == r.value.segments;
    }
  }

  lemma ContinuePrepend(done: seq<string>, name: Option<string>, segment: Segment, rest: Outcome<PathResult>)
    ensures Continue(done, name, Prepend(segment, rest)) ==
      Continue(done + [segment.text], if segment.wire.Some? then segment.wire else name, rest)
  {
    if rest.Completed? {
      assert done + ([segment.text] + rest.value.segments) == (done + [segment.text]) + rest.value.segments;
    }
  }

  /** The arrays of a dictionary after an entry is added at its end. */
  lemma ArraysSnoc(es: Entries, key: string, a: array<string>)
    ensures Arrays(es + [(key, a)]) == Arrays(es) + {a}
  {
    var es' := es + [(key, a)];
    assert es'[|es|].1 == a;
    forall x | x in Arrays(es) ensures x in Arrays(es') {
      var i :| 0 <= i < |es| && es[i].1 == x;
      assert es'[i].1 == x;
    }
  }

  /** The snapshot of a dictionary after an entry is added at its end. */
  lemma SnapshotSnoc(es: Entries, key: string, a: array<string>)
    ensures Snapshot(es + [(key, a)]) == Snapshot(es) + [(key, a[..])]
  {
  }

  /**
   * The body of the `while (depth.Any())` loop of
   * `DeepResolveSerializationNames` for one segment, up to what it appends
   * to the new key.
   */
  method ResolveSegmentName(reg: Registry, subType: TypeId, errorName: string) returns (r: Outcome<Segment>)
    ensures r == ResolveSegment(reg, subType, errorName)
  {
    var propertyName := RemoveCollectionIndexer(errorName);
    var propertyInfo := GetProperty(reg, subType, propertyName);
    if propertyInfo.Threw? {
      return Threw(propertyInfo.exception);
    }
    if propertyInfo.value.None? {
      return Completed(Segment(propertyName, subType, None));
    }
    var p := propertyInfo.value.value;
    var name := WireName(p);
    var suffix := "";
    if '[' in errorName && ']' in errorName {
      var startIndex := FirstIndex(errorName, '[');
      var indexOf := FirstIndex(errorName, ']');
      var length: int := indexOf - startIndex + 1;
      if length < 0 {
        return Threw(ArgumentOutOfRangeException);
      }
      suffix := errorName[startIndex..startIndex + length];
    }
    assert IndexerSuffix(errorName) == Completed(suffix);
    return Completed(Segment(name + suffix, ElementType(p), Some(name)));
  }

  /**
   * The `while (depth.Any())` loop of `DeepResolveSerializationNames`,
   * which builds the new key in a `StringBuilder`.
   */
  method BuildSerializationKey(reg: Registry, type_: TypeId, key: string)
    returns (newKey: string, name: Option<string>, thrown: Option<ExceptionKind>)
    ensures match ResolvePath(reg, type_, Split(key, '.'))
      case Threw(e) => thrown == Some(e)
      case Completed(path) => thrown == None && newKey == Join(path.segments, '.') && name == path.lastName
  {
    var subType := type_;
    var depth := Split(key, '.');
    newKey := "";
    name := None;
    var hasContent := false;
    ghost var done: seq<string> := [];
    ghost var target := ResolvePath(reg, type_, depth);
    ContinueStart(target);
    while |depth| > 0
      invariant Continue(done, name, ResolvePath(reg, subType, depth)) == target
      invariant newKey == Join(done, '.')
      invariant hasContent == (|done| > 0)
      decreases |depth|
    {
      var step := ResolveSegmentName(reg, subType, depth[0]);
      if step.Threw? {
        return newKey, name, Some(step.exception);
      }
      var segment := step.value;
      ContinuePrepend(done, name, segment, ResolvePath(reg, segment.next, depth[1..]));
      JoinAppend(done, segment.text, '.');
      depth := depth[1..];
      subType := segment.next;
      if segment.wire.Some? {
        name := segment.wire;
      }
      if hasContent {
        newKey := newKey + ".";
      }
      newKey := newKey + segment.text;
      hasContent := true;
      done := done + [segment.text];
    }
    assert done + [] == done;
    thrown := None;
  }

  /**
   * `ReplaceSerializationTypeName` applied to a message array just handed
   * to the new dictionary, which stored it as its last entry (`stored`) or
   * did not store it at all.
   */
  method RenameAddedMessages(newErrors: ErrorDictionary, values: array<string>, originalName: string,
                             serializedName: string, ghost stored: bool)
    returns (thrown: Option<ExceptionKind>)
    requires stored ==> |newErrors.entries| > 0 && newErrors.entries[|newErrors.entries| - 1].1 == values
    requires stored ==> values !in Arrays(newErrors.entries[..|newErrors.entries| - 1])
    requires !stored ==> values !in Arrays(newErrors.entries)
    modifies values
    ensures var step := RenameStored(old(newErrors.Contents()), stored, old(values[..]), originalName, serializedName);
      newErrors.Contents() == step.out && values[..] == step.values && thrown == step.thrown
  {
    ghost var es := newErrors.entries;
    ghost var before := if stored then es[..|es| - 1] else es;
    if stored {
      assert es == before + [(es[|es| - 1].0, values)];
      SnapshotSnoc(before, es[|es| - 1].0, values);
    }
    label Renaming:
    thrown := ReplaceSerializationTypeName(values, originalName, serializedName);
    if stored {
      assert Snapshot(before) == old@Renaming(Snapshot(before));
      SnapshotSnoc(before, es[|es| - 1].0, values);
    } else {
      assert Snapshot(es) == old@Renaming(Snapshot(es));
    }
  }

  /** `DeepResolveSerializationNames`: a dotted key. */
  method DeepResolveSerializationNames(reg: Registry, type_: TypeId, key: string, newErrors: ErrorDictionary,
                                        values: array<string>, skip: bool)
    returns (thrown: Option<ExceptionKind>)
    requires newErrors.Valid()
    requires values !in Arrays(newErrors.entries)
    modifies newErrors, values
    ensures newErrors.Valid()
    ensures var step := DeepStep(reg, type_, skip, old(newErrors.Contents()), key, old(values[..]));
      newErrors.Contents() == step.out && values[..] == step.values && thrown == step.thrown
    ensures fresh(Arrays(newErrors.entries) - old(Arrays(newErrors.entries)) - {values})
  {
    var newKey, name, walkThrown := BuildSerializationKey(reg, type_, key);
    if walkThrown.Some? {
      return walkThrown;
    }
    ghost var path := ResolvePath(reg, type_, Split(key, '.')).value;
    thrown := AddResolvedErrors(newErrors, key, newKey, name, values, skip, path);
  }

  /** The rest of `DeepResolveSerializationNames` once the new key is
      built: add it, then rename the messages to the last property's
      serialization name. */
  method AddResolvedErrors(newErrors: ErrorDictionary, key: string, newKey: string, name: Option<string>,
                           values: array<string>, skip: bool, ghost path: PathResult)
    returns (thrown: Option<ExceptionKind>)
    requires newErrors.Valid()
    requires values !in Arrays(newErrors.entries)
    requires newKey == Join(path.segments, '.') && name == path.lastName
    modifies newErrors, values
    ensures newErrors.Valid()
    ensures var step := AddResolved(skip, old(newErrors.Contents()), key, old(values[..]), path);
      newErrors.Contents() == step.out && values[..] == step.values && thrown == step.thrown
    ensures fresh(Arrays(newErrors.entries) - old(Arrays(newErrors.entries)) - {values})
  {
    ghost var out0 := newErrors.Contents();
    ghost var v0 := values[..];
    ghost var before := newErrors.entries;
    ghost var stored := StoresInput(out0, newKey, skip);
    FormatAndAddValidationErrors(newErrors, newKey, values, skip);
    ghost var added := newErrors.entries;
    ghost var out1 := newErrors.Contents();
    assert values[..] == v0;
    thrown := None;
    var splitKey := Split(key, '.');
    AddResolvedCases(skip, out0, key, v0, path, out1, splitKey[|splitKey| - 1]);
    if name.Some? && |splitKey| > 0 && name.value != splitKey[|splitKey| - 1] {
      if stored {
        assert newErrors.entries[..|newErrors.entries| - 1] == before;
      }
      thrown := RenameAddedMessages(newErrors, values, splitKey[|splitKey| - 1], name.value, stored);
    }
    assert newErrors.entries == added;
  }

  /** `ResolveSerializationTypeNames`, the branch for a key without a dot. */
  method ResolveTopLevelName(reg: Registry, type_: TypeId, key: string, newErrors: ErrorDictionary,
                              values: array<string>)
    returns (thrown: Option<ExceptionKind>)
    requires newErrors.Valid()
    requires values !in Arrays(newErrors.entries)
    modifies newErrors, values
    ensures newErrors.Valid()
    ensures var step := TopLevelStep(reg, type_, old(newErrors.Contents()), key, old(values[..]));
      newErrors.Contents() == step.out && values[..] == step.values && thrown == step.thrown
    ensures fresh(Arrays(newErrors.entries) - old(Arrays(newErrors.entries)) - {values})
  {
    var propertyInfo := FirstProperty(Properties(reg, type_), key);
    if propertyInfo.None? {
      AddOrMergeErrors(newErrors, key, values);
      return None;
    }
    var newKey := WireName(propertyInfo.value);
    ghost var before := newErrors.entries;
    ghost var stored := newKey !in Keys(newErrors.Contents());
    AddOrMergeErrors(newErrors, newKey, values);
    ghost var added := newErrors.entries;
    thrown := None;
    if key != newKey {
      if stored {
        assert newErrors.entries[..|newErrors.entries| - 1] == before;
      }
      thrown := RenameAddedMessages(newErrors, values, key, newKey, stored);
    }
    assert newErrors.entries == added;
  }

  /** The body of the loop over the errors: a dotted key is resolved
      along its path, any other key among the root type's properties. */
  method ResolveKey(reg: Registry, type_: TypeId, key: string, newErrors: ErrorDictionary,
                    values: array<string>, skip: bool)
    returns (thrown: Option<ExceptionKind>)
    requires newErrors.Valid()
    requires values !in Arrays(newErrors.entries)
    modifies newErrors, values
    ensures newErrors.Valid()
    ensures var step := Step(reg, type_, skip, old(newErrors.Contents()), key, old(values[..]));
      newErrors.Contents() == step.out && values[..] == step.values && thrown == step.thrown
    ensures fresh(Arrays(newErrors.entries) - old(Arrays(newErrors.entries)) - {values})
  {
    if '.' in key {
      thrown := DeepResolveSerializationNames(reg, type_, key, newErrors, values, skip);
    } else {
      thrown := ResolveTopLevelName(reg, type_, key, newErrors, values);
    }
  }

  /**
   * `ResolveSerializationTypeNames<T>(errors, skip)` with `T` = `type_`:
   * each entry of `errors`, in order, is resolved into a new dictionary.
   * The input's message arrays are renamed in place as a side effect; an
   * exception ends the loop and is returned instead of a result.
   */
  method ResolveSerializationTypeNames(reg: Registry, type_: TypeId, errors: Entries, skip: bool)
    returns (newErrors: ErrorDictionary, thrown: Option<ExceptionKind>)
    requires SeparateArrays(errors)
    modifies Arrays(errors)
    ensures fresh(newErrors) && newErrors.Valid()
    ensures var r := Resolve(reg, type_, skip, old(Snapshot(errors)));
      newErrors.Contents() == r.out && thrown == r.thrown
  {
    ghost var input := Snapshot(errors);
    ghost var trace := ResolutionTrace(reg, type_, skip, input);
    newErrors := new ErrorDictionary();
    ghost var seen: set<array<string>> := {};
    var i := 0;
    while i < |errors|
      invariant 0 <= i <= |errors|
      invariant fresh(newErrors) && newErrors.Valid()
      invariant fresh(Arrays(newErrors.entries) - seen)
      invariant forall j :: i <= j < |errors| ==> errors[j].1 !in seen
      invariant forall j :: i <= j < |errors| ==> errors[j].1[..] == input[j].1
      invariant trace[i] == Resolution(newErrors.Contents(), None)
    {
      var (key, values) := errors[i];
      assert values !in Arrays(newErrors.entries);
      assert input[i] == (key, values[..]);
      var keyThrown := ResolveEntry(reg, type_, key, newErrors, values, skip, input, trace, i);
      seen := seen + {values};
      if keyThrown.Some? {
        HaltsAt(trace, i + 1, |errors|);
        return newErrors, keyThrown;
      }
      i := i + 1;
    }
    return newErrors, None;
  }

  /** One pass of the loop above, stated as one step of the resolution. */
  method ResolveEntry(reg: Registry, type_: TypeId, key: string, newErrors: ErrorDictionary,
                      values: array<string>, skip: bool, ghost input: ErrorMap,
                      ghost trace: seq<Resolution>, ghost i: nat)
    returns (thrown: Option<ExceptionKind>)
    requires newErrors.Valid()
    requires values !in Arrays(newErrors.entries)
    requires i < |input| && input[i] == (key, values[..])
    requires IsTrace(reg, type_, skip, input, trace)
    requires trace[i] == Resolution(newErrors.Contents(), None)
    modifies newErrors, values
    ensures newErrors.Valid()
    ensures trace[i + 1] == Resolution(newErrors.Contents(), thrown)
    ensures fresh(Arrays(newErrors.entries) - old(Arrays(newErrors.entries)) - {values})
  {
    TraceNext(reg, type_, skip, input, trace, i);
    thrown := ResolveKey(reg, type_, key, newErrors, values, skip);
  }

  /** `ResolveSerializationTypeNames<T>(validationProblem, skip)`: the same,
      on the errors of an existing validation problem. */
  method ResolveProblemSerializationTypeNames(reg: Registry, type_: TypeId, problem: ErrorDictionary, skip: bool)
    returns (newErrors: ErrorDictionary, thrown: Option<ExceptionKind>)
    requires SeparateArrays(problem.entries)
    modifies Arrays(problem.entries)
    ensures fresh(newErrors) && newErrors.Valid()
    ensures var r := Resolve(reg, type_, skip, old(problem.Contents()));
      newErrors.Contents() == r.out && thrown == r.thrown
  {
    newErrors, thrown := ResolveSerializationTypeNames(reg, type_, problem.entries, skip);
  }
}
