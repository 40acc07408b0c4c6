/**
 * What the serialization-name resolution promises, proved on the value
 * level description of module `SerializationNames`: the result is a
 * dictionary with no more keys than the input; a well-formed type registry
 * never makes it throw; plain names the root type does not know are kept;
 * and the indexer handling of path segments.
 */
module ResolutionProperties {
  import opened Wrappers
  import opened Exceptions
  import opened Strings
  import opened ErrorMaps
  import opened TypeRegistry
  import opened SerializationNames

  // ---------------------------------------------------------------------
  // Collection indexers
  // ---------------------------------------------------------------------

  /** A name without `[` has no indexer to remove. */
  lemma RemoveCollectionIndexerNoIndexer(errorName: string)
    requires '[' !in errorName
    ensures RemoveCollectionIndexer(errorName) == errorName
  {
    var lines := Split(errorName, '\n');
    SplitPiecesWithout(errorName, '\n', '[');
    var cleaned := seq(|lines|, i requires 0 <= i < |lines| => RemoveIndexerInLine(lines[i]));
    assert cleaned == lines;
    JoinSplit(errorName, '\n');
  }

  /** `Items[0]`, `Items[0][1]` and `Items[]` all look up `Items`: the
      greedy match runs from the first `[` to the last `]`. */
  lemma RemoveCollectionIndexerOfIndexed(name: string, inner: string)
    requires IsIdentifier(name) && '\n' !in inner
    ensures RemoveCollectionIndexer(name + "[" + inner + "]") == name
  {
    var s := name + "[" + inner + "]";
    assert '\n' !in s;
    assert Split(s, '\n') == [s];
    assert s[..|name|] == name;
    FirstIndexAt(s, '[', |name|);
    var open := FirstIndex(s, '[');
    assert s[open..][|s[open..]| - 1] == ']';
    assert LastIndex(s, ']') == |s| - 1;
    assert RemoveIndexerInLine(s) == name;
  }

  /** The indexer re-appended after the serialization name is the first
      bracketed part of the segment, brackets included. */
  lemma IndexerSuffixOfIndexed(name: string, indexer: string)
    requires IsIdentifier(name)
    requires |indexer| >= 2 && indexer[0] == '[' && indexer[|indexer| - 1] == ']'
    requires ']' !in indexer[..|indexer| - 1]
    ensures IndexerSuffix(name + indexer) == Completed(indexer)
  {
    var s := name + indexer;
    assert s[..|name|] == name;
    assert s[..|s| - 1] == name + indexer[..|indexer| - 1];
    assert s[|name|..|s|] == indexer;
    IndexerSuffixAt(s, |name|, |s| - 1);
  }

  /** The suffix runs from the first `[` to the first `]`. */
  lemma IndexerSuffixAt(s: string, open: nat, close: nat)
    requires open <= close < |s|
    requires s[open] == '[' && '[' !in s[..open]
    requires s[close] == ']' && ']' !in s[..close]
    ensures IndexerSuffix(s) == Completed(s[open..close + 1])
  {
    FirstIndexAt(s, '[', open);
    FirstIndexAt(s, ']', close);
  }

  /** A segment without brackets gets nothing appended. */
  lemma IndexerSuffixNoIndexer(errorName: string)
    requires '[' !in errorName
    ensures IndexerSuffix(errorName) == Completed("")
  {
  }

  // ---------------------------------------------------------------------
  // Adding to the new dictionary
  // ---------------------------------------------------------------------

  /** `AddOrMergeErrors` read as a dictionary update: the key gets the given
      messages when it is new, and the union with the stored ones when it is
      not; every other key keeps its messages. */
  lemma MergedLookup(m: ErrorMap, key: string, values: seq<string>, k: string)
    requires DistinctKeys(m)
    ensures Lookup(Merged(m, key, values), k) ==
      if k != key then Lookup(m, k)
      else if key in Keys(m) then Distinct(Lookup(m, key) + values)
      else values
  {
    var r := Merged(m, key, values);
    if key in Keys(m) {
      var i := IndexOf(Keys(m), key);
      assert r == m[i := (key, Distinct(m[i].1 + values))];
      LookupAt(m, i);
      assert Keys(r)[i] == key;
      if k == key {
        LookupAt(r, i);
      } else {
        LookupUpdate(m, i, (key, Distinct(m[i].1 + values)), k);
      }
    } else {
      LookupSnoc(m, key, values, k);
    }
  }

  /** Looking up in a dictionary with one more entry at the end. */
  lemma {:induction false} LookupSnoc(m: ErrorMap, key: string, values: seq<string>, k: string)
    requires key !in Keys(m)
    ensures Lookup(m + [(key, values)], k) == if k == key then values else Lookup(m, k)
    decreases |m|
  {
    if |m| == 0 {
    } else {
      assert (m + [(key, values)])[1..] == m[1..] + [(key, values)];
      assert Keys(m)[0] == m[0].0;
      assert Keys(m[1..]) == Keys(m)[1..];
      LookupSnoc(m[1..], key, values, k);
    }
  }

  /** Replacing entry `i` by one with the same key leaves the other keys. */
  lemma {:induction false} LookupUpdate(m: ErrorMap, i: nat, e: (string, seq<string>), k: string)
    requires i < |m| && e.0 == m[i].0 && k != e.0
    ensures Lookup(m[i := e], k) == Lookup(m, k)
    decreases i
  {
    if i > 0 {
      assert m[i := e][1..] == m[1..][i - 1 := e];
      LookupUpdate(m[1..], i - 1, e, k);
    }
  }

  // ---------------------------------------------------------------------
  // The shape of the result
  // ---------------------------------------------------------------------

  /** The in-place rename changes messages, never keys. */
  lemma RenameStoredKeys(out1: ErrorMap, stored: bool, values: seq<string>,
                         originalName: string, serializedName: string)
    requires stored ==> |out1| > 0
    ensures Keys(RenameStored(out1, stored, values, originalName, serializedName).out) == Keys(out1)
  {
    var r := RenameStored(out1, stored, values, originalName, serializedName).out;
    if stored && r != out1 {
      assert forall i :: 0 <= i < |r| ==> r[i].0 == out1[i].0;
    }
  }

  /** Adding one key, as `FormatAndAddValidationErrors` does, keeps the
      keys distinct and adds at most one. */
  lemma FormattedShape(m: ErrorMap, key: string, values: seq<string>, skip: bool)
    requires DistinctKeys(m)
    ensures DistinctKeys(Formatted(m, key, values, skip))
    ensures |Formatted(m, key, values, skip)| <= |m| + 1
  {
  }

  /** A dotted key whose path walk completed keeps the keys distinct and
      adds at most one. */
  lemma AddResolvedShape(skip: bool, out: ErrorMap, key: string, values: seq<string>, path: PathResult)
    requires DistinctKeys(out)
    ensures DistinctKeys(AddResolved(skip, out, key, values, path).out)
    ensures |AddResolved(skip, out, key, values, path).out| <= |out| + 1
  {
    var newKey := Join(path.segments, '.');
    var out1 := Formatted(out, newKey, values, skip);
    FormattedShape(out, newKey, values, skip);
    var original := Split(key, '.');
    RenameStoredKeys(out1, StoresInput(out, newKey, skip), values, original[|original| - 1], path.lastName.GetOr(""));
  }

  /** A key without a dot keeps the keys distinct and adds at most one. */
  lemma TopLevelShape(reg: Registry, root: TypeId, out: ErrorMap, key: string, values: seq<string>)
    requires DistinctKeys(out)
    ensures DistinctKeys(TopLevelStep(reg, root, out, key, values).out)
    ensures |TopLevelStep(reg, root, out, key, values).out| <= |out| + 1
  {
    var found := FirstProperty(Properties(reg, root), key);
    if found.Some? {
      var newKey := WireName(found.value);
      RenameStoredKeys(Merged(out, newKey, values), newKey !in Keys(out), values, key, newKey);
    }
  }

  /** One key of the loop keeps the keys distinct and adds at most one. */
  lemma StepShape(reg: Registry, root: TypeId, skip: bool, out: ErrorMap, key: string, values: seq<string>)
    requires DistinctKeys(out)
    ensures DistinctKeys(Step(reg, root, skip, out, key, values).out)
    ensures |Step(reg, root, skip, out, key, values).out| <= |out| + 1
  {
    if '.' in key {
      var walk := ResolvePath(reg, root, Split(key, '.'));
      if walk.Completed? {
        AddResolvedShape(skip, out, key, values, walk.value);
      }
    } else {
      TopLevelShape(reg, root, out, key, values);
    }
  }

  /** One more key of a trace keeps the keys distinct and adds at most one. */
  lemma TraceStepShape(reg: Registry, root: TypeId, skip: bool, errors: ErrorMap, trace: seq<Resolution>, n: nat)
    requires IsTrace(reg, root, skip, errors, trace) && n < |errors|
    requires DistinctKeys(trace[n].out) && |trace[n].out| <= n
    ensures DistinctKeys(trace[n + 1].out) && |trace[n + 1].out| <= n + 1
  {
    if trace[n].thrown.Some? {
      TraceThrown(reg, root, skip, errors, trace, n);
    } else {
      TraceNext(reg, root, skip, errors, trace, n);
      StepShape(reg, root, skip, trace[n].out, errors[n].0, errors[n].1);
    }
  }

  /** The resolved errors form a dictionary with no more keys than the input. */
  lemma ResolveShape(reg: Registry, root: TypeId, skip: bool, errors: ErrorMap)
    ensures DistinctKeys(Resolve(reg, root, skip, errors).out)
    ensures |Resolve(reg, root, skip, errors).out| <= |errors|
  {
    var trace := ResolutionTrace(reg, root, skip, errors);
    var n := 0;
    while n < |errors|
      invariant n <= |errors|
      invariant DistinctKeys(trace[n].out) && |trace[n].out| <= n
    {
      TraceStepShape(reg, root, skip, errors, trace, n);
      n := n + 1;
    }
  }

  /** A key that does not throw leaves at least one error. */
  lemma StepNonEmpty(reg: Registry, root: TypeId, skip: bool, out: ErrorMap, key: string, values: seq<string>)
    requires Step(reg, root, skip, out, key, values).thrown.None?
    ensures |Step(reg, root, skip, out, key, values).out| > 0
  {
    if '.' in key {
      var path := ResolvePath(reg, root, Split(key, '.')).value;
      StepResolved(reg, root, skip, out, key, values, path);
      AddResolvedNonEmpty(skip, out, key, values, path);
    } else {
      var found := FirstProperty(Properties(reg, root), key);
      if found.Some? {
        var newKey := WireName(found.value);
        RenameStoredKeys(Merged(out, newKey, values), newKey !in Keys(out), values, key, newKey);
      }
    }
  }

  lemma AddResolvedNonEmpty(skip: bool, out: ErrorMap, key: string, values: seq<string>, path: PathResult)
    ensures |AddResolved(skip, out, key, values, path).out| > 0
  {
    var newKey := Join(path.segments, '.');
    var out1 := Formatted(out, newKey, values, skip);
    var original := Split(key, '.');
    RenameStoredKeys(out1, StoresInput(out, newKey, skip), values, original[|original| - 1], path.lastName.GetOr(""));
  }

  lemma TraceStepNonEmpty(reg: Registry, root: TypeId, skip: bool, errors: ErrorMap, trace: seq<Resolution>, n: nat)
    requires IsTrace(reg, root, skip, errors, trace) && n < |errors|
    requires trace[n + 1].thrown.None?
    ensures |trace[n + 1].out| > 0
  {
    if trace[n].thrown.Some? {
      TraceThrown(reg, root, skip, errors, trace, n);
    } else {
      TraceNext(reg, root, skip, errors, trace, n);
      StepNonEmpty(reg, root, skip, trace[n].out, errors[n].0, errors[n].1);
    }
  }

  /** Errors that resolve without an exception never resolve to none. */
  lemma ResolveNonEmpty(reg: Registry, root: TypeId, skip: bool, errors: ErrorMap)
    requires |errors| > 0 && Resolve(reg, root, skip, errors).thrown.None?
    ensures |Resolve(reg, root, skip, errors).out| > 0
  {
    var trace := ResolutionTrace(reg, root, skip, errors);
    TraceStepNonEmpty(reg, root, skip, errors, trace, |errors| - 1);
  }

  // ---------------------------------------------------------------------
  // When the resolution throws
  // ---------------------------------------------------------------------

  /** A key that does not end with a dot; FluentValidation and data
      annotations only produce such keys. */
  predicate NoTrailingDot(key: string) {
    |key| == 0 || key[|key| - 1] != '.'
  }

  /** A path segment whose lookup name is an identifier has its first `]`
      after its first `[`, so cutting out the indexer cannot throw. */
  lemma IndexerSuffixCompletes(errorName: string)
    requires IsIdentifier(RemoveCollectionIndexer(errorName))
    ensures IndexerSuffix(errorName).Completed?
  {
    if '[' in errorName && ']' in errorName {
      var lines := Split(errorName, '\n');
      var cleaned := seq(|lines|, i requires 0 <= i < |lines| => RemoveIndexerInLine(lines[i]));
      SplitPieces(errorName, '\n');
      if '\n' in errorName {
        JoinHasSeparator(cleaned, '\n');
        assert false;
      }
      assert lines == [errorName];
      var r := RemoveIndexerInLine(errorName);
      assert RemoveCollectionIndexer(errorName) == r;
      var open := FirstIndex(errorName, '[');
      if ']' in errorName[open..] {
        assert r == errorName[..open] + errorName[LastIndex(errorName, ']') + 1..];
        assert ']' !in errorName[..open];
      } else {
        assert false;
      }
    }
  }

  /** In a well-formed registry one step of the path walk never throws. */
  lemma SegmentCompletes(reg: Registry, t: TypeId, errorName: string)
    requires WellFormed(reg)
    ensures ResolveSegment(reg, t, errorName).Completed?
  {
    var propertyName := RemoveCollectionIndexer(errorName);
    GetPropertyWellFormed(reg, t, propertyName);
    if GetProperty(reg, t, propertyName).value.Some? {
      IndexerSuffixCompletes(errorName);
    }
  }

  /** A segment that is a property's declared name becomes its
      serialization name, and the walk descends into its (element) type. */
  lemma SegmentOfProperty(reg: Registry, t: TypeId, i: nat)
    requires WellFormed(reg) && t in reg && i < |reg[t]|
    ensures var p := reg[t][i];
      ResolveSegment(reg, t, p.declared) == Completed(Segment(WireName(p), ElementType(p), Some(WireName(p))))
  {
    var p := reg[t][i];
    RemoveCollectionIndexerNoIndexer(p.declared);
    IndexerSuffixNoIndexer(p.declared);
    GetPropertyFinds(reg, t, i);
    assert WireName(p) + "" == WireName(p);
  }

  /** In a well-formed registry the path walk never throws. */
  lemma {:induction false} PathCompletes(reg: Registry, t: TypeId, segs: seq<string>)
    requires WellFormed(reg)
    ensures ResolvePath(reg, t, segs).Completed?
    decreases |segs|
  {
    if |segs| > 0 {
      SegmentCompletes(reg, t, segs[0]);
      var segment := ResolveSegment(reg, t, segs[0]).value;
      PathCompletes(reg, segment.next, segs[1..]);
    }
  }

  /** In a well-formed registry a key without a trailing dot never throws:
      lookups are unambiguous, indexers are well placed in every segment
      that names a property, and the name to rename is never empty. */
  lemma StepCompletes(reg: Registry, root: TypeId, skip: bool, out: ErrorMap, key: string, values: seq<string>)
    requires WellFormed(reg) && NoTrailingDot(key)
    ensures Step(reg, root, skip, out, key, values).thrown.None?
  {
    if '.' in key {
      DeepStepCompletes(reg, root, skip, out, key, values);
    } else {
      TopLevelStepCompletes(reg, root, out, key, values);
    }
  }

  /** A dotted key without a trailing dot never throws. */
  lemma DeepStepCompletes(reg: Registry, root: TypeId, skip: bool, out: ErrorMap, key: string, values: seq<string>)
    requires WellFormed(reg) && NoTrailingDot(key) && '.' in key
    ensures DeepStep(reg, root, skip, out, key, values).thrown.None?
  {
    PathCompletes(reg, root, Split(key, '.'));
    var path := ResolvePath(reg, root, Split(key, '.')).value;
    AddResolvedCompletes(skip, out, key, values, path);
  }

  /** The rename after a completed path walk has a non-empty name to look for. */
  lemma AddResolvedCompletes(skip: bool, out: ErrorMap, key: string, values: seq<string>, path: PathResult)
    requires NoTrailingDot(key) && '.' in key
    ensures AddResolved(skip, out, key, values, path).thrown.None?
  {
    var segs := Split(key, '.');
    SplitLastNonEmpty(key, '.');
    AddResolvedCases(skip, out, key, values, path, Formatted(out, Join(path.segments, '.'), values, skip), segs[|segs| - 1]);
  }

  /** A key without a dot never throws: a property it names has an
      identifier, never an empty name, for a name. */
  lemma TopLevelStepCompletes(reg: Registry, root: TypeId, out: ErrorMap, key: string, values: seq<string>)
    requires WellFormed(reg)
    ensures TopLevelStep(reg, root, out, key, values).thrown.None?
  {
    var found := FirstProperty(Properties(reg, root), key);
    if found.Some? {
      var props := Properties(reg, root);
      var i :| 0 <= i < |props| && props[i] == found.value;
      assert IsIdentifier(props[i].declared);
    }
  }

  /** One more key of a trace does not throw. */
  lemma TraceStepCompletes(reg: Registry, root: TypeId, skip: bool, errors: ErrorMap, trace: seq<Resolution>, n: nat)
    requires IsTrace(reg, root, skip, errors, trace) && n < |errors|
    requires WellFormed(reg) && NoTrailingDot(errors[n].0)
    requires trace[n].thrown.None?
    ensures trace[n + 1].thrown.None?
  {
    TraceNext(reg, root, skip, errors, trace, n);
    StepCompletes(reg, root, skip, trace[n].out, errors[n].0, errors[n].1);
  }

  /** With a well-formed registry and no key ending in a dot, the resolution
      never throws, whatever the root type. */
  lemma ResolveCompletes(reg: Registry, root: TypeId, skip: bool, errors: ErrorMap)
    requires WellFormed(reg)
    requires forall i :: 0 <= i < |errors| ==> NoTrailingDot(errors[i].0)
    ensures Resolve(reg, root, skip, errors).thrown.None?
  {
    var trace := ResolutionTrace(reg, root, skip, errors);
    var n := 0;
    while n < |errors|
      invariant n <= |errors|
      invariant trace[n].thrown.None?
    {
      TraceStepCompletes(reg, root, skip, errors, trace, n);
      n := n + 1;
    }
  }

  // ---------------------------------------------------------------------
  // Names the root type does not know
  // ---------------------------------------------------------------------

  /** A plain key that names no property of the root type. */
  predicate Unknown(reg: Registry, root: TypeId, key: string) {
    '.' !in key && FirstProperty(Properties(reg, root), key).None?
  }

  lemma TraceStepUnknown(reg: Registry, root: TypeId, skip: bool, errors: ErrorMap, trace: seq<Resolution>, n: nat)
    requires IsTrace(reg, root, skip, errors, trace) && n < |errors|
    requires DistinctKeys(errors) && Unknown(reg, root, errors[n].0)
    requires trace[n] == Resolution(errors[..n], None)
    ensures trace[n + 1] == Resolution(errors[..n + 1], None)
  {
    TraceNext(reg, root, skip, errors, trace, n);
    var prefix := errors[..n];
    assert errors[n].0 !in Keys(prefix) by {
      forall i | 0 <= i < n ensures Keys(prefix)[i] != errors[n].0 {
        assert Keys(errors)[i] == prefix[i].0;
        assert Keys(errors)[n] == errors[n].0;
      }
    }
    assert errors[..n + 1] == prefix + [errors[n]];
  }

  /** Errors whose keys name nothing on the root type come back unchanged,
      in their order, with their messages as they were. */
  lemma ResolveKeepsUnknownNames(reg: Registry, root: TypeId, skip: bool, errors: ErrorMap)
    requires DistinctKeys(errors)
    requires forall i :: 0 <= i < |errors| ==> Unknown(reg, root, errors[i].0)
    ensures Resolve(reg, root, skip, errors) == Resolution(errors, None)
  {
    var trace := ResolutionTrace(reg, root, skip, errors);
    var n := 0;
    while n < |errors|
      invariant n <= |errors|
      invariant trace[n] == Resolution(errors[..n], None)
    {
      TraceStepUnknown(reg, root, skip, errors, trace, n);
      n := n + 1;
    }
    assert errors[..n] == errors;
  }

  /** Skipping the first level never applies to a key without a dot. */
  lemma PlainKeyIgnoresSkip(reg: Registry, root: TypeId, out: ErrorMap, key: string, values: seq<string>)
    requires '.' !in key
    ensures Step(reg, root, true, out, key, values) == Step(reg, root, false, out, key, values)
  {
  }

  // ---------------------------------------------------------------------
  // When an in-place rename shows
  // ---------------------------------------------------------------------

  /** A plain key renamed to a serialization name not yet in the new
      dictionary: the stored array is the caller's, so the renamed
      messages show. */
  lemma TopLevelRenameShown(reg: Registry, root: TypeId, skip: bool, out: ErrorMap,
                            key: string, values: seq<string>, p: Prop)
    requires '.' !in key && |key| > 0
    requires FirstProperty(Properties(reg, root), key) == Some(p)
    requires WireName(p) != key && WireName(p) !in Keys(out)
    ensures Step(reg, root, skip, out, key, values) ==
      KeyStep(out + [(WireName(p), Renamed(values, key, WireName(p)).value)],
              Renamed(values, key, WireName(p)).value, None)
  {
  }

  /** A plain key renamed to a serialization name already present: the
      caller's array is only merged in, so the dictionary keeps the messages
      as they were before the rename while the caller's array changes. */
  lemma TopLevelRenameHidden(reg: Registry, root: TypeId, skip: bool, out: ErrorMap,
                             key: string, values: seq<string>, p: Prop)
    requires '.' !in key && |key| > 0
    requires FirstProperty(Properties(reg, root), key) == Some(p)
    requires WireName(p) != key && WireName(p) in Keys(out)
    ensures Step(reg, root, skip, out, key, values) ==
      KeyStep(Merged(out, WireName(p), values), Renamed(values, key, WireName(p)).value, None)
  {
  }

  /** A dotted key whose path walk completes is added by `AddResolved`. */
  lemma StepResolved(reg: Registry, root: TypeId, skip: bool, out: ErrorMap,
                     key: string, values: seq<string>, path: PathResult)
    requires '.' in key
    requires ResolvePath(reg, root, Split(key, '.')) == Completed(path)
    ensures Step(reg, root, skip, out, key, values) == AddResolved(skip, out, key, values, path)
  {
  }

  /** With the first level skipped, a dotted key's messages go to the
      dictionary as a new array, so no later rename reaches them: what is
      stored under the resolved key less its first level is the caller's
      messages with that level's wrapper prefix removed. */
  lemma SkippedRenameHidden(reg: Registry, root: TypeId, out: ErrorMap,
                            key: string, values: seq<string>, path: PathResult)
    requires '.' in key
    requires ResolvePath(reg, root, Split(key, '.')) == Completed(path)
    ensures '.' in Join(path.segments, '.')
    ensures var newKey := Join(path.segments, '.');
      var dot := FirstIndex(newKey, '.');
      Step(reg, root, true, out, key, values).out ==
        Merged(out, newKey[dot + 1..], StripAll(values, newKey[..dot]))
  {
    SplitPieces(key, '.');
    JoinHasSeparator(path.segments, '.');
    StepResolved(reg, root, true, out, key, values, path);
    AddResolvedSkipped(out, key, values, path);
  }

  lemma AddResolvedSkipped(out: ErrorMap, key: string, values: seq<string>, path: PathResult)
    requires '.' in Join(path.segments, '.')
    ensures var newKey := Join(path.segments, '.');
      AddResolved(true, out, key, values, path).out == Formatted(out, newKey, values, true)
  {
    var segs := Split(key, '.');
    var newKey := Join(path.segments, '.');
    var out1 := Formatted(out, newKey, values, true);
    AddResolvedCases(true, out, key, values, path, out1, segs[|segs| - 1]);
  }

  /** Without skipping, a dotted key resolved to a new key whose last
      property is renamed: the caller's array is stored, and the renamed
      messages show. */
  lemma DeepRenameShown(reg: Registry, root: TypeId, out: ErrorMap,
                        key: string, values: seq<string>, path: PathResult)
    requires '.' in key && NoTrailingDot(key)
    requires ResolvePath(reg, root, Split(key, '.')) == Completed(path)
    requires path.lastName.Some? && Join(path.segments, '.') !in Keys(out)
    requires path.lastName.value != Split(key, '.')[|Split(key, '.')| - 1]
    ensures var renamed := Renamed(values, Split(key, '.')[|Split(key, '.')| - 1], path.lastName.value);
      renamed.Completed? &&
      Step(reg, root, false, out, key, values) ==
        KeyStep(out + [(Join(path.segments, '.'), renamed.value)], renamed.value, None)
  {
    StepResolved(reg, root, false, out, key, values, path);
    AddResolvedShown(out, key, values, path);
  }

  lemma AddResolvedShown(out: ErrorMap, key: string, values: seq<string>, path: PathResult)
    requires '.' in key && NoTrailingDot(key)
    requires path.lastName.Some? && Join(path.segments, '.') !in Keys(out)
    requires path.lastName.value != Split(key, '.')[|Split(key, '.')| - 1]
    ensures var renamed := Renamed(values, Split(key, '.')[|Split(key, '.')| - 1], path.lastName.value);
      renamed.Completed? &&
      AddResolved(false, out, key, values, path) ==
        KeyStep(out + [(Join(path.segments, '.'), renamed.value)], renamed.value, None)
  {
    var segs := Split(key, '.');
    var newKey := Join(path.segments, '.');
    var out1 := Formatted(out, newKey, values, false);
    assert out1 == out + [(newKey, values)];
    SplitLastNonEmpty(key, '.');
    AddResolvedCases(false, out, key, values, path, out1, segs[|segs| - 1]);
  }
}
