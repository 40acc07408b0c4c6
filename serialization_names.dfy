/**
 * What `ValidationProblemExtensions.ResolveSerializationTypeNames` computes,
 * stated on values: how each error key is rewritten into its serialization
 * (JSON) name, how its messages are rewritten, and how the rewritten entries
 * are merged into the new error dictionary.
 *
 * The .NET code rewrites a message array in place AFTER that array may
 * already have been stored in the new dictionary, so whether the rename is
 * visible in the output depends on whether the very same array was stored.
 * The specification tracks that with a `stored` flag; the imperative model
 * in module `ValidationProblemExtensions` works on real arrays and is proved
 * to agree with it.
 */
module SerializationNames {
  import opened Wrappers
  import opened Exceptions
  import opened Strings
  import opened ErrorMaps
  import opened TypeRegistry

  // ---------------------------------------------------------------------
  // Collection indexers
  // ---------------------------------------------------------------------

  /**
   * `Regex.Replace(line, @"\[.*\]", "")` on one line: `.` does not match a
   * line break and `*` is greedy, so the one match runs from the first `[`
   * to the last `]` of the line, provided that `]` comes after the `[`.
   */
  function RemoveIndexerInLine(line: string): (r: string)
    ensures '[' !in line ==> r == line
    ensures |r| <= |line|
  {
    if '[' in line then
      var open := FirstIndex(line, '[');
      if ']' in line[open..] then
        var close := LastIndex(line, ']');
        assert line[open..][FirstIndex(line[open..], ']')] == line[open + FirstIndex(line[open..], ']')];
        line[..open] + line[close + 1..]
      else line
    else line
  }

  /** `RemoveCollectionIndexer`: the regex applied to every line of the name. */
  function RemoveCollectionIndexer(errorName: string): string {
    var lines := Split(errorName, '\n');
    Join(seq(|lines|, i requires 0 <= i < |lines| => RemoveIndexerInLine(lines[i])), '\n')
  }

  /**
   * The text from the first `[` to the first `]` of a path segment that
   * contains both, which the path walk appends after the property's name
   * (`errorName.AsSpan(start, close - start + 1)`). A `]` more than one
   * place before the first `[` makes the length negative, and `AsSpan`
   * throws.
   */
  function IndexerSuffix(errorName: string): (r: Outcome<string>)
    ensures r.Completed? ==> |r.value| <= |errorName|
    ensures r.Completed? && |r.value| > 0 ==> r.value[0] == '['
  {
    if '[' in errorName && ']' in errorName then
      var start := FirstIndex(errorName, '[');
      var close := FirstIndex(errorName, ']');
      var length: int := close - start + 1;
      if length < 0 then Threw(ArgumentOutOfRangeException)
      else Completed(errorName[start..start + length])
    else Completed("")
  }

  // ---------------------------------------------------------------------
  // The path walk of DeepResolveSerializationNames
  // ---------------------------------------------------------------------

  /** The rewritten segments of a dotted key, and the serialization name of
      the last segment that matched a property (`name`), if any did. */
  datatype PathResult = PathResult(segments: seq<string>, lastName: Option<string>)

  /** What one segment of a dotted key becomes: its new text, the type the
      walk continues in, and the serialization name if it named a property. */
  datatype Segment = Segment(text: string, next: TypeId, wire: Option<string>)

  /**
   * One iteration of the path walk at type `t`: a segment that names no
   * property of `t` is kept with its indexer removed and the walk stays on
   * `t`; a segment that names a property becomes the property's
   * serialization name followed by the segment's indexer, and the walk
   * descends into the property's (element) type.
   */
  function ResolveSegment(reg: Registry, t: TypeId, errorName: string): (r: Outcome<Segment>)
    ensures r.Completed? && r.value.wire.None? ==> r.value.next == t
    ensures r.Completed? && r.value.wire.None? ==> r.value.text == RemoveCollectionIndexer(errorName)
    ensures r.Completed? && r.value.wire.Some? ==>
      IndexerSuffix(errorName).Completed? && r.value.text == r.value.wire.value + IndexerSuffix(errorName).value
  {
    var propertyName := RemoveCollectionIndexer(errorName);
    match GetProperty(reg, t, propertyName)
    case Threw(e) => Threw(e)
    case Completed(None) => Completed(Segment(propertyName, t, None))
    case Completed(Some(p)) =>
      match IndexerSuffix(errorName)
      case Threw(e) => Threw(e)
      case Completed(suffix) => Completed(Segment(WireName(p) + suffix, ElementType(p), Some(WireName(p))))
  }

  /** Walks all segments of a key from type `t`; the first exception ends it. */
  function ResolvePath(reg: Registry, t: TypeId, segs: seq<string>): (r: Outcome<PathResult>)
    ensures r.Completed? ==> |r.value.segments| == |segs|
    decreases |segs|
  {
    if |segs| == 0 then Completed(PathResult([], None))
    else
      match ResolveSegment(reg, t, segs[0])
      case Threw(e) => Threw(e)
      case Completed(segment) => Prepend(segment, ResolvePath(reg, segment.next, segs[1..]))
  }

  /** A resolved segment in front of the rest of the walk; the last name is
      the rest's, or this segment's when the rest named no property. */
  function Prepend(segment: Segment, rest: Outcome<PathResult>): (r: Outcome<PathResult>)
    ensures rest.Completed? <==> r.Completed?
    ensures r.Completed? ==> |r.value.segments| == |rest.value.segments| + 1
  {
    match rest
    case Threw(e) => Threw(e)
    case Completed(tail) =>
      Completed(PathResult([segment.text] + tail.segments,
                           if tail.lastName.Some? then tail.lastName else segment.wire))
  }

  // ---------------------------------------------------------------------
  // Message rewriting
  // ---------------------------------------------------------------------

  /**
   * `ReplaceSerializationTypeName`: every message containing `originalName`
   * gets each occurrence replaced by `serializedName`. An empty original
   * name is contained in every message, and `string.Replace` throws an
   * `ArgumentException` for it on the first message.
   */
  function Renamed(values: seq<string>, originalName: string, serializedName: string): (r: Outcome<seq<string>>)
    ensures r.Threw? <==> |originalName| == 0 && |values| > 0
    ensures r.Threw? ==> r.exception == ArgumentException
    ensures r.Completed? ==> |r.value| == |values|
  {
    if |originalName| == 0 then
      if |values| == 0 then Completed([]) else Threw(ArgumentException)
    else
      Completed(seq(|values|, i requires 0 <= i < |values| => RenameMessage(values[i], originalName, serializedName)))
  }

  /** One message of `ReplaceSerializationTypeName`, for a non-empty name. */
  function RenameMessage(value: string, originalName: string, serializedName: string): string
    requires |originalName| > 0
  {
    if Contains(value, originalName) then ReplaceAll(value, originalName, serializedName) else value
  }

  /** The prefix FluentValidation writes in front of a nested property's
      display name when no message is configured: `'Request `. */
  function WrapperPrefix(depthKeyToSkip: string): string {
    "'" + depthKeyToSkip + " "
  }

  /** One message with the skipped level's wrapper prefix removed: a message
      that starts with the prefix has every occurrence of it replaced by `'`. */
  function StripWrapperPrefix(value: string, depthKeyToSkip: string): string {
    var prefix := WrapperPrefix(depthKeyToSkip);
    if StartsWith(value, prefix) then ReplaceAll(value, prefix, "'") else value
  }

  function StripAll(values: seq<string>, depthKeyToSkip: string): (r: seq<string>)
    ensures |r| == |values|
    ensures forall i :: 0 <= i < |values| ==> r[i] == StripWrapperPrefix(values[i], depthKeyToSkip)
  {
    seq(|values|, i requires 0 <= i < |values| => StripWrapperPrefix(values[i], depthKeyToSkip))
  }

  // ---------------------------------------------------------------------
  // Adding to the new dictionary
  // ---------------------------------------------------------------------

  /** The position of a key in a sequence of keys. */
  function IndexOf(ks: seq<string>, k: string): (i: nat)
    requires k in ks
    ensures i < |ks| && ks[i] == k && k !in ks[..i]
  {
    if ks[0] == k then 0
    else
      assert k in ks[1..];
      1 + IndexOf(ks[1..], k)
  }

  /**
   * `AddOrMergeErrors`: a new key is added at the end with its messages;
   * an existing key keeps its place and gets the ordinal union of its
   * messages and the new ones.
   */
  function Merged(m: ErrorMap, key: string, values: seq<string>): (r: ErrorMap)
    ensures |r| == if key in Keys(m) then |m| else |m| + 1
    ensures key in Keys(r)
    ensures key !in Keys(m) ==> r[..|m|] == m && r[|m|] == (key, values)
    ensures DistinctKeys(m) ==> DistinctKeys(r)
  {
    if key in Keys(m) then
      var i := IndexOf(Keys(m), key);
      var r := m[i := (key, Distinct(m[i].1 + values))];
      assert Keys(r) == Keys(m);
      r
    else
      var r := m + [(key, values)];
      assert Keys(r) == Keys(m) + [key];
      r
  }

  /**
   * `FormatAndAddValidationErrors`: with `skipFirstLevelOnValidationKeys`
   * and a dotted key, the part up to the first dot is dropped from the key,
   * its wrapper prefix is removed from the messages, and the result goes to
   * the dictionary as a NEW array; otherwise the key and messages are added
   * as they are.
   */
  function Formatted(m: ErrorMap, key: string, values: seq<string>, skip: bool): ErrorMap {
    if skip && '.' in key then
      var dot := FirstIndex(key, '.');
      Merged(m, key[dot + 1..], StripAll(values, key[..dot]))
    else Merged(m, key, values)
  }

  /** Whether the array handed to `FormatAndAddValidationErrors` is itself
      stored in the dictionary (and so shares later in-place renames). */
  predicate StoresInput(m: ErrorMap, key: string, skip: bool) {
    !(skip && '.' in key) && key !in Keys(m)
  }

  // ---------------------------------------------------------------------
  // One key
  // ---------------------------------------------------------------------

  /** A key's effect: the new dictionary, the key's own message array after
      the in-place rename, and the exception that ended the resolution. */
  datatype KeyStep = KeyStep(out: ErrorMap, values: seq<string>, thrown: Option<ExceptionKind>)

  /** The in-place rename of a message array that was just added: it shows
      in the dictionary exactly when that array is the last entry's. */
  function RenameStored(out1: ErrorMap, stored: bool, values: seq<string>,
                        originalName: string, serializedName: string): KeyStep
    requires stored ==> |out1| > 0
  {
    match Renamed(values, originalName, serializedName)
    case Threw(e) => KeyStep(out1, values, Some(e))
    case Completed(renamed) =>
      KeyStep(if stored then out1[|out1| - 1 := (out1[|out1| - 1].0, renamed)] else out1, renamed, None)
  }

  /** A key without a dot: looked up among the root type's properties. */
  function TopLevelStep(reg: Registry, root: TypeId, out: ErrorMap, key: string, values: seq<string>): KeyStep {
    match FirstProperty(Properties(reg, root), key)
    case None => KeyStep(Merged(out, key, values), values, None)
    case Some(p) =>
      var newKey := WireName(p);
      var out1 := Merged(out, newKey, values);
      if key != newKey then RenameStored(out1, newKey !in Keys(out), values, key, newKey)
      else KeyStep(out1, values, None)
  }

  /** A dotted key: `DeepResolveSerializationNames`. */
  function DeepStep(reg: Registry, root: TypeId, skip: bool, out: ErrorMap, key: string, values: seq<string>): KeyStep {
    match ResolvePath(reg, root, Split(key, '.'))
    case Threw(e) => KeyStep(out, values, Some(e))
    case Completed(path) => AddResolved(skip, out, key, values, path)
  }

  /** A dotted key whose path walk completed: the rewritten key is added,
      and the messages are renamed when the last property's serialization
      name differs from the key's last segment. */
  function AddResolved(skip: bool, out: ErrorMap, key: string, values: seq<string>, path: PathResult): KeyStep {
    var original := Split(key, '.');
    var newKey := Join(path.segments, '.');
    var out1 := Formatted(out, newKey, values, skip);
    var last := original[|original| - 1];
    if path.lastName.Some? && path.lastName.value != last then
      RenameStored(out1, StoresInput(out, newKey, skip), values, last, path.lastName.value)
    else KeyStep(out1, values, None)
  }

  /** The two outcomes of `AddResolved`, by whether the last property's
      name differs from the key's last segment `last`, given the dictionary
      `out1` after the new key was added. */
  lemma AddResolvedCases(skip: bool, out: ErrorMap, key: string, values: seq<string>, path: PathResult,
                         out1: ErrorMap, last: string)
    requires out1 == Formatted(out, Join(path.segments, '.'), values, skip)
    requires last == Split(key, '.')[|Split(key, '.')| - 1]
    ensures path.lastName.Some? && path.lastName.value != last ==>
      AddResolved(skip, out, key, values, path) ==
        RenameStored(out1, StoresInput(out, Join(path.segments, '.'), skip), values, last, path.lastName.value)
    ensures !(path.lastName.Some? && path.lastName.value != last) ==>
      AddResolved(skip, out, key, values, path) == KeyStep(out1, values, None)
  {
  }

  /** One iteration of the loop over the errors. */
  function Step(reg: Registry, root: TypeId, skip: bool, out: ErrorMap, key: string, values: seq<string>): KeyStep {
    if '.' in key then DeepStep(reg, root, skip, out, key, values)
    else TopLevelStep(reg, root, out, key, values)
  }

  // ---------------------------------------------------------------------
  // All keys
  // ---------------------------------------------------------------------

  /** The state after the first keys: the new dictionary, each processed
      key's message array as the caller sees it afterwards, and the
      exception that stopped the loop, if one did. */
  datatype Resolution = Resolution(out: ErrorMap, thrown: Option<ExceptionKind>)

  function ResolutionPrefix(reg: Registry, root: TypeId, skip: bool, errors: ErrorMap, n: nat): Resolution
    requires n <= |errors|
  {
    if n == 0 then Resolution([], None)
    else
      var st := ResolutionPrefix(reg, root, skip, errors, n - 1);
      if st.thrown.Some? then st
      else
        var step := Step(reg, root, skip, st.out, errors[n - 1].0, errors[n - 1].1);
        Resolution(step.out, step.thrown)
  }

  /** `ResolveSerializationTypeNames<T>(errors, skip)` with `T` = `root`. */
  function Resolve(reg: Registry, root: TypeId, skip: bool, errors: ErrorMap): Resolution {
    ResolutionPrefix(reg, root, skip, errors, |errors|)
  }

  /** A key after a state that has thrown changes nothing: the loop has ended. */
  lemma PrefixThrown(reg: Registry, root: TypeId, skip: bool, errors: ErrorMap, n: nat)
    requires n < |errors| && ResolutionPrefix(reg, root, skip, errors, n).thrown.Some?
    ensures ResolutionPrefix(reg, root, skip, errors, n + 1) == ResolutionPrefix(reg, root, skip, errors, n)
  {
  }

  /** A key after a state that has not thrown is one `Step`. */
  lemma PrefixNext(reg: Registry, root: TypeId, skip: bool, errors: ErrorMap, n: nat)
    requires n < |errors| && ResolutionPrefix(reg, root, skip, errors, n).thrown.None?
    ensures var step := Step(reg, root, skip, ResolutionPrefix(reg, root, skip, errors, n).out, errors[n].0, errors[n].1);
      ResolutionPrefix(reg, root, skip, errors, n + 1) == Resolution(step.out, step.thrown)
  {
  }

  /** In a sequence of states, a state that has thrown is repeated. */
  ghost predicate Halts(trace: seq<Resolution>) {
    forall n :: 0 <= n < |trace| - 1 && trace[n].thrown.Some? ==> trace[n + 1] == trace[n]
  }

  /** Once a state has thrown, it is the last one. */
  lemma {:induction false} HaltsAt(trace: seq<Resolution>, n: nat, m: nat)
    requires Halts(trace)
    requires n <= m < |trace| && trace[n].thrown.Some?
    ensures trace[m] == trace[n]
    decreases m
  {
    if m > n {
      HaltsAt(trace, n, m - 1);
    }
  }

  /** Every intermediate state of the resolution, one per number of keys done. */
  ghost predicate IsTrace(reg: Registry, root: TypeId, skip: bool, errors: ErrorMap, trace: seq<Resolution>) {
    |trace| == |errors| + 1 &&
    forall n {:trigger ResolutionPrefix(reg, root, skip, errors, n)} ::
      0 <= n <= |errors| ==> trace[n] == ResolutionPrefix(reg, root, skip, errors, n)
  }

  /** The states of the resolution, from the empty dictionary to the result;
      once a key has thrown, later keys change nothing. */
  lemma ResolutionTrace(reg: Registry, root: TypeId, skip: bool, errors: ErrorMap) returns (trace: seq<Resolution>)
    ensures IsTrace(reg, root, skip, errors, trace)
    ensures trace[0] == Resolution([], None)
    ensures trace[|errors|] == Resolve(reg, root, skip, errors)
    ensures Halts(trace)
  {
    trace := seq(|errors| + 1, n requires 0 <= n <= |errors| => ResolutionPrefix(reg, root, skip, errors, n));
    assert trace[0] == ResolutionPrefix(reg, root, skip, errors, 0);
    TraceHalts(reg, root, skip, errors, trace);
  }

  /** A trace repeats a state that has thrown. */
  lemma TraceHalts(reg: Registry, root: TypeId, skip: bool, errors: ErrorMap, trace: seq<Resolution>)
    requires IsTrace(reg, root, skip, errors, trace)
    ensures Halts(trace)
  {
    forall n | 0 <= n < |trace| - 1 && trace[n].thrown.Some? ensures trace[n + 1] == trace[n] {
      TraceThrown(reg, root, skip, errors, trace, n);
    }
  }

  /** `PrefixThrown` on the states of a trace. */
  lemma TraceThrown(reg: Registry, root: TypeId, skip: bool, errors: ErrorMap, trace: seq<Resolution>, n: nat)
    requires IsTrace(reg, root, skip, errors, trace)
    requires n < |errors| && trace[n].thrown.Some?
    ensures trace[n + 1] == trace[n]
  {
    assert trace[n] == ResolutionPrefix(reg, root, skip, errors, n);
    assert trace[n + 1] == ResolutionPrefix(reg, root, skip, errors, n + 1);
    PrefixThrown(reg, root, skip, errors, n);
  }

  /** `PrefixNext` on the states of a trace. */
  lemma TraceNext(reg: Registry, root: TypeId, skip: bool, errors: ErrorMap, trace: seq<Resolution>, n: nat)
    requires IsTrace(reg, root, skip, errors, trace)
    requires n < |errors| && trace[n].thrown.None?
    ensures var step := Step(reg, root, skip, trace[n].out, errors[n].0, errors[n].1);
      trace[n + 1] == Resolution(step.out, step.thrown)
  {
    assert trace[n] == ResolutionPrefix(reg, root, skip, errors, n);
    assert trace[n + 1] == ResolutionPrefix(reg, root, skip, errors, n + 1);
    PrefixNext(reg, root, skip, errors, n);
  }
}
