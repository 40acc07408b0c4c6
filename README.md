# atc-rest-minimalapi: validation errors and error responses, in Dafny

This project models the request-validation and error-handling core of
`Atc.Rest.MinimalApi`, an ASP.NET Core minimal-API helper library, together
with one of the sample's request handlers. It also proves properties of the
model.

- **`DictionaryExtensions.MergeErrors`** (`error_maps.dfy`) merges the
  data-annotation errors with the FluentValidation errors.
  - An error dictionary is an insertion-ordered sequence of
    `(key, messages)` pairs, because `Dictionary<string, string[]>`
    enumerates in insertion order.
  - Keys and messages are compared ordinally.
  - Each key's messages are made distinct, first appearance first.
- **`ValidationProblemExtensions`** is the serialization-name resolver. It
  rewrites every key, and the property name inside every message, to the
  `[JsonPropertyName]` the client sees.
  - `serialization_names.dfy` gives the value-level specification: one
    `Step` per key, folded by `ResolutionPrefix` and `Resolve`.
  - `validation_problem_extensions.dfy` is the imperative code, proved
    against that specification:
    - the new dictionary is a class whose entries hold real `array<string>`
      message arrays;
    - `ReplaceSerializationTypeName` renames an array in place, so a rename
      shows in the new dictionary exactly when that very array was stored
      there.
  - Reflection is a build-once registry from type names to their properties
    (`type_registry.dfy`).
  - The .NET exceptions the resolver can raise are modelled as results:
    - `GetProperty` on two properties of one name;
    - `AsSpan` with a negative length, when a segment's first `]` lies
      more than one position before its first `[`;
    - `string.Replace` with an empty old value, when a dotted key ends in
      `.` and has messages.
  - `resolution_properties.dfy` proves what the resolver promises:
    - distinct keys, and never more keys than the input;
    - no exception for well-formed input;
    - unknown names pass through unchanged;
    - when a rename shows and when it does not.
  - `resolver_examples.dfy` replays the library's own resolver scenarios on
    the test models:
    - `[JsonPropertyName]` on nested properties;
    - a wrapper with and without `skipFirstLevelOnValidationKeys`.
- **`ValidationFilter<T>`** (`validation_filter.dfy`) finds the argument,
  runs both validators, merges their errors and answers in one of four ways:
  - a bad request;
  - a validation problem with resolved names;
  - the next filter;
  - an exception.
- **`GlobalErrorHandlingMiddleware`** (`global_error_handling_middleware.dfy`)
  turns an exception into a status code and a body:
  - the body is either a serialized `ProblemDetails` or the flat
    `{ ... }` text;
  - both paths carry the same detail and the same identifier fields;
  - the flat text reads back, line by line, as the fields of the problem.
- **`UpdateUserByIdHandler`** (`update_user_by_id_handler.dfy`) is the
  sample handler.
  - Tracked user entities are objects whose fields the handler assigns.
  - `ExecuteAsync` is proved against a specification function `Execute`.
  - Lemmas state the order of the checks, what an update writes and leaves
    alone, and that it is idempotent.

`wrappers.dfy` (Option) and `exceptions.dfy` (the exception kinds and
`Outcome`) are shared definitions; `strings.dfy` holds ordinal string
operations (`Split`, `Join`, `ReplaceAll`, `IndexOf`) and their lemmas.

Nested validation follows the code. `ValidationFilter.InvokeAsync` looks up
a FluentValidation validator only for the argument whose type is exactly
`T` (src/Atc.Rest.MinimalApi/Filters/Endpoints/ValidationFilter.cs:36-44).
It does not look one up for a `[FromBody]` property inside that argument.
The test `InvokeAsync_WithNestedFromBodyProperty_ValidatesNestedType`
(test/Atc.Rest.MinimalApi.Tests/Filters/Endpoints/ValidationFilterTests.cs:130-155)
expects nested errors. Only the data-annotation pass could report them,
because `MiniValidator` recurses into properties. Its result is an input of
the model.

## Model

| member | source | states |
|---|---|---|
| ErrorMaps.MergeErrors | src/Atc.Rest.MinimalApi/Extensions/DictionaryExtensions.cs:12-32 | the merge has pairwise distinct keys and no repeated message under any key |
| ErrorMaps.Distinct | src/Atc.Rest.MinimalApi/Extensions/DictionaryExtensions.cs:29 | `Distinct` keeps exactly the elements of its input, each once, and never grows |
| ErrorMaps.DistinctOfNoDuplicates | src/Atc.Rest.MinimalApi/Extensions/DictionaryExtensions.cs:29 | a sequence without repeats is its own `Distinct` |
| ErrorMaps.DistinctPrefix | src/Atc.Rest.MinimalApi/Extensions/DictionaryExtensions.cs:29 | `Distinct(x)` is a prefix of `Distinct(x + y)`: first appearances keep their order |
| ErrorMaps.DistinctAbsorbs | src/Atc.Rest.MinimalApi/Extensions/DictionaryExtensions.cs:29 | appending elements already present does not change `Distinct` |
| ErrorMaps.CollectIsLookup | src/Atc.Rest.MinimalApi/Extensions/DictionaryExtensions.cs:22-24 | in a map with distinct keys, grouping by a key gives that key's one entry |
| ErrorMaps.MergeEmpty | src/Atc.Rest.MinimalApi/Extensions/DictionaryExtensions.cs:16-20 | two empty maps merge to an empty map |
| ErrorMaps.MergeKeySet | src/Atc.Rest.MinimalApi/Extensions/DictionaryExtensions.cs:22-25 | a key is in the merge exactly when it is in either input |
| ErrorMaps.MergeKeyOrder | src/Atc.Rest.MinimalApi/Extensions/DictionaryExtensions.cs:22-25 | the first map's keys come first, in their order |
| ErrorMaps.MergeMessages | src/Atc.Rest.MinimalApi/Extensions/DictionaryExtensions.cs:27-30 | each key's messages are those of both inputs, the first map's first, made distinct |
| ErrorMaps.MergeLookup | src/Atc.Rest.MinimalApi/Extensions/DictionaryExtensions.cs:12-32 | for dictionaries, looking up any key in the merge gives `Distinct(a[k] + b[k])` |
| ErrorMaps.MergeIdempotent | src/Atc.Rest.MinimalApi/Extensions/DictionaryExtensions.cs:12-32 | merging the same second map again changes nothing, not even the order |
| ErrorMaps.MergeAgainKeys | src/Atc.Rest.MinimalApi/Extensions/DictionaryExtensions.cs:22-25 | the keys of a merge followed by the second map again are the merge's keys |
| ErrorMaps.MergeAgainMessages | src/Atc.Rest.MinimalApi/Extensions/DictionaryExtensions.cs:27-30 | the second map's messages are already among the merged messages of their key |
| ErrorMaps.MergeCommutesAsSets | src/Atc.Rest.MinimalApi/Extensions/DictionaryExtensions.cs:12-32 | swapping the inputs changes only the order of keys and messages |
| ErrorMaps.MergeIsCaseSensitive | src/Atc.Rest.MinimalApi/Extensions/DictionaryExtensions.cs:29 | messages that differ only in case are both kept (ordinal comparison) |
| ErrorMaps.MergeDeduplicates | src/Atc.Rest.MinimalApi/Extensions/DictionaryExtensions.cs:29 | the same message for the same key from both validators is kept once |
| TypeRegistry.Named | src/Atc.Rest.MinimalApi/Extensions/ValidationProblemExtensions.cs:96 | the properties of a given name are exactly those of the type with that name |
| TypeRegistry.FirstProperty | src/Atc.Rest.MinimalApi/Extensions/ValidationProblemExtensions.cs:54 | `FirstOrDefault` by ordinal name: none exactly when no property has the name, otherwise one that has it |
| TypeRegistry.GetProperty | src/Atc.Rest.MinimalApi/Extensions/ValidationProblemExtensions.cs:96 | `GetProperty` finds nothing exactly when no property has the name, finds the single one when exactly one has it, and throws `AmbiguousMatchException` exactly when several have it |
| TypeRegistry.GetPropertyWellFormed | src/Atc.Rest.MinimalApi/Extensions/ValidationProblemExtensions.cs:96 | with unique identifier names a lookup never throws, and a name it finds is an identifier |
| TypeRegistry.NamedAtMostOne | src/Atc.Rest.MinimalApi/Extensions/ValidationProblemExtensions.cs:96 | with unique names at most one property matches a name |
| TypeRegistry.GetPropertyFinds | src/Atc.Rest.MinimalApi/Extensions/ValidationProblemExtensions.cs:96 | in a well-formed type a property's own name finds that property |
| Strings.FirstIndexAt | src/Atc.Rest.MinimalApi/Extensions/ValidationProblemExtensions.cs:169 | `IndexOf('.')` is the one position holding a dot with none before it |
| Strings.JoinSplit | src/Atc.Rest.MinimalApi/Extensions/ValidationProblemExtensions.cs:86 | joining the pieces of `Split` with the separator gives the key back |
| Strings.SplitPieces | src/Atc.Rest.MinimalApi/Extensions/ValidationProblemExtensions.cs:86 | no piece of a split holds the separator, and a key splits into two or more pieces exactly when it holds a dot |
| Strings.SplitJoin | src/Atc.Rest.MinimalApi/Extensions/ValidationProblemExtensions.cs:146 | splitting a joined key gives the pieces back when no piece holds a dot |
| Strings.SplitLastNonEmpty | src/Atc.Rest.MinimalApi/Extensions/ValidationProblemExtensions.cs:146-150 | a key not ending in a dot has a non-empty last segment |
| Strings.JoinHasSeparator | src/Atc.Rest.MinimalApi/Extensions/ValidationProblemExtensions.cs:123-128 | a new key of two or more segments holds a dot |
| Strings.ReplaceAllAbsent | src/Atc.Rest.MinimalApi/Extensions/ValidationProblemExtensions.cs:222-224 | a message not containing the name is left as it is |
| Strings.ReplaceAllSelf | src/Atc.Rest.MinimalApi/Extensions/ValidationProblemExtensions.cs:68-71 | renaming a name to itself changes nothing |
| Strings.ReplaceAllOnce | src/Atc.Rest.MinimalApi/Extensions/ValidationProblemExtensions.cs:224 | a message naming the property once has exactly that occurrence replaced |
| Strings.ReplaceAllLeading | src/Atc.Rest.MinimalApi/Extensions/ValidationProblemExtensions.cs:177 | a leading occurrence is replaced and the scan goes on after it |
| Strings.ReplaceAllNotAtStart | src/Atc.Rest.MinimalApi/Extensions/ValidationProblemExtensions.cs:176-178 | a message not starting with the wrapper prefix (and not holding its first character later) is kept |
| SerializationNames.RemoveIndexerInLine | src/Atc.Rest.MinimalApi/Extensions/ValidationProblemExtensions.cs:212-213 | the regex `\[.*\]` on one line: a line without `[` is kept, and nothing grows |
| SerializationNames.IndexerSuffix | src/Atc.Rest.MinimalApi/Extensions/ValidationProblemExtensions.cs:131-137 | the indexer re-appended is no longer than the segment and starts with `[` |
| SerializationNames.ResolveSegment | src/Atc.Rest.MinimalApi/Extensions/ValidationProblemExtensions.cs:94-137 | an unknown segment keeps the current type and becomes its text with the indexer removed; a known one becomes its serialization name followed by the segment's indexer |
| SerializationNames.ResolvePath | src/Atc.Rest.MinimalApi/Extensions/ValidationProblemExtensions.cs:92-138 | a completed walk writes one new segment per segment of the key |
| SerializationNames.Prepend | src/Atc.Rest.MinimalApi/Extensions/ValidationProblemExtensions.cs:120-129 | one more resolved segment in front: the walk completes exactly when its rest does, with one more segment |
| SerializationNames.Renamed | src/Atc.Rest.MinimalApi/Extensions/ValidationProblemExtensions.cs:215-227 | the rename throws `ArgumentException` exactly when the old name is empty and there are messages, and otherwise keeps the number of messages |
| SerializationNames.StripAll | src/Atc.Rest.MinimalApi/Extensions/ValidationProblemExtensions.cs:171-179 | each message, and only it, loses a leading `'<level> ` wrapper prefix |
| SerializationNames.Merged | src/Atc.Rest.MinimalApi/Extensions/ValidationProblemExtensions.cs:192-209 | `AddOrMergeErrors`: a new key is appended with its messages, an existing key keeps its place, and distinct keys stay distinct |
| SerializationNames.AddResolvedCases | src/Atc.Rest.MinimalApi/Extensions/ValidationProblemExtensions.cs:140-151 | after the walk, the messages are renamed exactly when the last serialization name differs from the last segment |
| SerializationNames.PrefixThrown | src/Atc.Rest.MinimalApi/Extensions/ValidationProblemExtensions.cs:46-73 | an exception ends the loop over the errors |
| SerializationNames.PrefixNext | src/Atc.Rest.MinimalApi/Extensions/ValidationProblemExtensions.cs:46-73 | without an exception, the next key is one step |
| SerializationNames.HaltsAt | src/Atc.Rest.MinimalApi/Extensions/ValidationProblemExtensions.cs:46-73 | once a state has thrown, every later state is that state |
| SerializationNames.ResolutionTrace | src/Atc.Rest.MinimalApi/Extensions/ValidationProblemExtensions.cs:44-75 | the states of the loop run from the empty dictionary to the result, and stop at an exception |
| SerializationNames.TraceThrown | src/Atc.Rest.MinimalApi/Extensions/ValidationProblemExtensions.cs:46-73 | in any trace of the loop, a state that has thrown is repeated |
| SerializationNames.TraceNext | src/Atc.Rest.MinimalApi/Extensions/ValidationProblemExtensions.cs:46-73 | in any trace of the loop, a state that has not thrown is followed by one `Step` |
| SerializationNames.TraceHalts | src/Atc.Rest.MinimalApi/Extensions/ValidationProblemExtensions.cs:46-73 | every trace of the loop stops at its first exception |
| ValidationProblemExtensions.AddOrMergeErrors | src/Atc.Rest.MinimalApi/Extensions/ValidationProblemExtensions.cs:192-209 | the dictionary becomes `Merged`: a new key stores the very array passed in, and an existing key gets a fresh array with the union of the messages |
| ValidationProblemExtensions.ReplaceSerializationTypeName | src/Atc.Rest.MinimalApi/Extensions/ValidationProblemExtensions.cs:215-227 | the array is renamed in place as `Renamed` says, or the exception it names is raised |
| ValidationProblemExtensions.FormatAndAddValidationErrors | src/Atc.Rest.MinimalApi/Extensions/ValidationProblemExtensions.cs:161-190 | the dictionary becomes `Formatted`; the caller's array is stored only when nothing is skipped and the key is new |
| ValidationProblemExtensions.AddWithoutFirstLevel | src/Atc.Rest.MinimalApi/Extensions/ValidationProblemExtensions.cs:167-185 | the key less its first level is merged with the stripped messages, in fresh arrays |
| ValidationProblemExtensions.StripWrapperPrefixes | src/Atc.Rest.MinimalApi/Extensions/ValidationProblemExtensions.cs:171-179 | a fresh array holding `StripAll` of the messages |
| ValidationProblemExtensions.ResolveSegmentName | src/Atc.Rest.MinimalApi/Extensions/ValidationProblemExtensions.cs:94-137 | one iteration of the walk computes `ResolveSegment` |
| ValidationProblemExtensions.BuildSerializationKey | src/Atc.Rest.MinimalApi/Extensions/ValidationProblemExtensions.cs:85-138 | the `StringBuilder` loop builds `Join` of the walk's segments and the last name, or stops with the walk's exception |
| ValidationProblemExtensions.RenameAddedMessages | src/Atc.Rest.MinimalApi/Extensions/ValidationProblemExtensions.cs:146-151 | the in-place rename shows in the dictionary exactly when the renamed array is the one just stored |
| ValidationProblemExtensions.DeepResolveSerializationNames | src/Atc.Rest.MinimalApi/Extensions/ValidationProblemExtensions.cs:78-152 | a dotted key changes the dictionary, the caller's array and the outcome as `DeepStep` says |
| ValidationProblemExtensions.AddResolvedErrors | src/Atc.Rest.MinimalApi/Extensions/ValidationProblemExtensions.cs:140-151 | the end of a dotted key after a completed walk is `AddResolved` |
| ValidationProblemExtensions.ResolveTopLevelName | src/Atc.Rest.MinimalApi/Extensions/ValidationProblemExtensions.cs:54-71 | a plain key is `TopLevelStep`: an unknown key is merged as it is, and a known one under its serialization name with its messages renamed |
| ValidationProblemExtensions.ResolveKey | src/Atc.Rest.MinimalApi/Extensions/ValidationProblemExtensions.cs:46-72 | one pass of the loop is one `Step` |
| ValidationProblemExtensions.ResolveEntry | src/Atc.Rest.MinimalApi/Extensions/ValidationProblemExtensions.cs:46-72 | one pass of the loop is the next state of the resolution |
| ValidationProblemExtensions.ResolveSerializationTypeNames | src/Atc.Rest.MinimalApi/Extensions/ValidationProblemExtensions.cs:37-76 | the new dictionary and the exception are those of `Resolve` on the errors as they were |
| ValidationProblemExtensions.ResolveProblemSerializationTypeNames | src/Atc.Rest.MinimalApi/Extensions/ValidationProblemExtensions.cs:22-28 | the same, on the errors of a validation problem |
| ValidationProblemExtensions.SnapshotSnoc | src/Atc.Rest.MinimalApi/Extensions/ValidationProblemExtensions.cs:207 | adding an entry to the dictionary adds its key and messages at the end |
| ResolutionProperties.RemoveCollectionIndexerNoIndexer | src/Atc.Rest.MinimalApi/Extensions/ValidationProblemExtensions.cs:212-213 | a name without `[` is looked up as it is |
| ResolutionProperties.RemoveCollectionIndexerOfIndexed | src/Atc.Rest.MinimalApi/Extensions/ValidationProblemExtensions.cs:212-213 | `Items[...]` is looked up as `Items` |
| ResolutionProperties.IndexerSuffixOfIndexed | src/Atc.Rest.MinimalApi/Extensions/ValidationProblemExtensions.cs:131-137 | the indexer of `name[i]` is re-appended after the serialization name |
| ResolutionProperties.IndexerSuffixAt | src/Atc.Rest.MinimalApi/Extensions/ValidationProblemExtensions.cs:131-137 | the appended text runs from the first `[` to the first `]` |
| ResolutionProperties.IndexerSuffixNoIndexer | src/Atc.Rest.MinimalApi/Extensions/ValidationProblemExtensions.cs:131-137 | a segment without brackets gets nothing appended |
| ResolutionProperties.MergedLookup | src/Atc.Rest.MinimalApi/Extensions/ValidationProblemExtensions.cs:192-209 | as a dictionary, merging gives the key the union of its old and new messages and leaves every other key alone |
| ResolutionProperties.LookupSnoc | src/Atc.Rest.MinimalApi/Extensions/ValidationProblemExtensions.cs:207 | `errors.Add` makes the new key find its messages and leaves other keys alone |
| ResolutionProperties.LookupUpdate | src/Atc.Rest.MinimalApi/Extensions/ValidationProblemExtensions.cs:203 | `errors[key] = merged` leaves other keys alone |
| ResolutionProperties.RenameStoredKeys | src/Atc.Rest.MinimalApi/Extensions/ValidationProblemExtensions.cs:146-151 | the in-place rename changes messages, never keys |
| ResolutionProperties.FormattedShape | src/Atc.Rest.MinimalApi/Extensions/ValidationProblemExtensions.cs:161-190 | adding one key keeps the keys distinct and adds at most one |
| ResolutionProperties.AddResolvedShape | src/Atc.Rest.MinimalApi/Extensions/ValidationProblemExtensions.cs:140-151 | the same for the end of a dotted key |
| ResolutionProperties.TopLevelShape | src/Atc.Rest.MinimalApi/Extensions/ValidationProblemExtensions.cs:54-71 | the same for a plain key |
| ResolutionProperties.StepShape | src/Atc.Rest.MinimalApi/Extensions/ValidationProblemExtensions.cs:46-72 | the same for any key |
| ResolutionProperties.TraceStepShape | src/Atc.Rest.MinimalApi/Extensions/ValidationProblemExtensions.cs:46-72 | one pass of the loop keeps the keys distinct and adds at most one |
| ResolutionProperties.ResolveShape | src/Atc.Rest.MinimalApi/Extensions/ValidationProblemExtensions.cs:37-76 | the resolved errors have distinct keys and no more keys than the input |
| ResolutionProperties.StepNonEmpty | src/Atc.Rest.MinimalApi/Extensions/ValidationProblemExtensions.cs:46-72 | a key that does not throw leaves at least one entry |
| ResolutionProperties.AddResolvedNonEmpty | src/Atc.Rest.MinimalApi/Extensions/ValidationProblemExtensions.cs:140-151 | the end of a dotted key always leaves an entry |
| ResolutionProperties.TraceStepNonEmpty | src/Atc.Rest.MinimalApi/Extensions/ValidationProblemExtensions.cs:46-72 | a pass of the loop that has not thrown leaves at least one entry |
| ResolutionProperties.ResolveNonEmpty | src/Atc.Rest.MinimalApi/Extensions/ValidationProblemExtensions.cs:37-76 | errors that resolve without an exception never resolve to no errors |
| ResolutionProperties.IndexerSuffixCompletes | src/Atc.Rest.MinimalApi/Extensions/ValidationProblemExtensions.cs:131-137 | a segment whose looked-up name is an identifier never makes `AsSpan` throw |
| ResolutionProperties.SegmentCompletes | src/Atc.Rest.MinimalApi/Extensions/ValidationProblemExtensions.cs:94-137 | in a well-formed registry one step of the walk never throws |
| ResolutionProperties.SegmentOfProperty | src/Atc.Rest.MinimalApi/Extensions/ValidationProblemExtensions.cs:112-128 | a segment naming a property becomes its serialization name, and the walk goes on into its (element) type |
| ResolutionProperties.PathCompletes | src/Atc.Rest.MinimalApi/Extensions/ValidationProblemExtensions.cs:92-138 | in a well-formed registry the whole walk never throws |
| ResolutionProperties.StepCompletes | src/Atc.Rest.MinimalApi/Extensions/ValidationProblemExtensions.cs:46-72 | a key not ending in a dot never throws |
| ResolutionProperties.TraceStepCompletes | src/Atc.Rest.MinimalApi/Extensions/ValidationProblemExtensions.cs:46-72 | in a well-formed registry a pass of the loop on a key not ending in a dot does not throw |
| ResolutionProperties.DeepStepCompletes | src/Atc.Rest.MinimalApi/Extensions/ValidationProblemExtensions.cs:78-152 | the same for a dotted key |
| ResolutionProperties.AddResolvedCompletes | src/Atc.Rest.MinimalApi/Extensions/ValidationProblemExtensions.cs:146-151 | the rename after a walk has a non-empty name to look for |
| ResolutionProperties.TopLevelStepCompletes | src/Atc.Rest.MinimalApi/Extensions/ValidationProblemExtensions.cs:54-71 | a plain key never throws |
| ResolutionProperties.ResolveCompletes | src/Atc.Rest.MinimalApi/Extensions/ValidationProblemExtensions.cs:37-76 | with a well-formed registry and no key ending in a dot the resolver never throws |
| ResolutionProperties.ResolveKeepsUnknownNames | src/Atc.Rest.MinimalApi/Extensions/ValidationProblemExtensions.cs:54-58 | errors whose plain keys name nothing on the type come back unchanged, in order |
| ResolutionProperties.TraceStepUnknown | src/Atc.Rest.MinimalApi/Extensions/ValidationProblemExtensions.cs:54-58 | a pass of the loop on an unknown plain key appends it unchanged |
| ResolutionProperties.PlainKeyIgnoresSkip | src/Atc.Rest.MinimalApi/Extensions/ValidationProblemExtensions.cs:48-72 | skipping the first level never affects a key without a dot |
| ResolutionProperties.TopLevelRenameShown | src/Atc.Rest.MinimalApi/Extensions/ValidationProblemExtensions.cs:61-71 | a renamed plain key new to the dictionary is added with its renamed messages |
| ResolutionProperties.TopLevelRenameHidden | src/Atc.Rest.MinimalApi/Extensions/ValidationProblemExtensions.cs:61-71 | a renamed plain key already present keeps the messages as they were before the rename |
| ResolutionProperties.StepResolved | src/Atc.Rest.MinimalApi/Extensions/ValidationProblemExtensions.cs:48-51 | a dotted key whose walk completes is handled by `AddResolved` |
| ResolutionProperties.SkippedRenameHidden | src/Atc.Rest.MinimalApi/Extensions/ValidationProblemExtensions.cs:167-185 | with the first level skipped, the resolved key less its first level gets the stripped messages, untouched by the later rename |
| ResolutionProperties.DeepRenameShown | src/Atc.Rest.MinimalApi/Extensions/ValidationProblemExtensions.cs:140-151 | without skipping, a dotted key whose last property is renamed is added with its renamed messages |
| ResolutionProperties.AddResolvedShown | src/Atc.Rest.MinimalApi/Extensions/ValidationProblemExtensions.cs:140-151 | without skipping, a new key whose last serialization name differs gets the renamed messages |
| ResolutionProperties.AddResolvedSkipped | src/Atc.Rest.MinimalApi/Extensions/ValidationProblemExtensions.cs:167-185 | with skipping, the dictionary after a dotted key is `Formatted` with the original messages: the later rename does not show |
| ResolverExamples.TopShown | src/Atc.Rest.MinimalApi/Extensions/ValidationProblemExtensions.cs:61-71 | a plain key naming a renamed property is added under its serialization name |
| ResolverExamples.DeepShown | src/Atc.Rest.MinimalApi/Extensions/ValidationProblemExtensions.cs:140-151 | a dotted key whose last property is renamed is added under the new key with renamed messages |
| ResolverExamples.DeepKept | src/Atc.Rest.MinimalApi/Extensions/ValidationProblemExtensions.cs:140-151 | a dotted key whose last property keeps its name is added under the new key with its messages |
| ResolverExamples.DeepSkipped | src/Atc.Rest.MinimalApi/Extensions/ValidationProblemExtensions.cs:167-185 | with the first level skipped, the new key less its first level is merged with stripped messages |
| ResolverExamples.ResolveOfTwo | src/Atc.Rest.MinimalApi/Extensions/ValidationProblemExtensions.cs:46-75 | two keys that do not throw resolve one after the other |
| ResolverExamples.PathOfThree | src/Atc.Rest.MinimalApi/Extensions/ValidationProblemExtensions.cs:92-138 | a three-segment walk is its three segment steps |
| ResolverExamples.CountryKeyStep | test/Atc.Rest.MinimalApi.Tests/Extensions/ValidationProblemExtensionsTests.cs:79-130 | `Address.CountryCodeA3` becomes `address.country_code_a3`, with both messages renamed |
| ResolverExamples.TelephoneKeyStep | test/Atc.Rest.MinimalApi.Tests/Extensions/ValidationProblemExtensionsTests.cs:79-130 | `Telephone` becomes `telephone`, after the first key |
| ResolverExamples.JsonPropertyNamesResolved | test/Atc.Rest.MinimalApi.Tests/Extensions/ValidationProblemExtensionsTests.cs:79-130 | the request with `[JsonPropertyName]` attributes resolves to the wire names, in order, with renamed messages |
| ResolverExamples.WrappedTelephoneStep | test/Atc.Rest.MinimalApi.Tests/Extensions/ValidationProblemExtensionsTests.cs:186-236 | `Request.Telephone` becomes `Request.telephone`, renamed inside the message's display name |
| ResolverExamples.WrappedCityStep | test/Atc.Rest.MinimalApi.Tests/Extensions/ValidationProblemExtensionsTests.cs:186-236 | `Request.Address.City` becomes `Request.address.City`, its message unchanged |
| ResolverExamples.WrapperResolved | test/Atc.Rest.MinimalApi.Tests/Extensions/ValidationProblemExtensionsTests.cs:186-236 | without skipping, the wrapper's errors keep the `Request` level |
| ResolverExamples.SkippedTelephoneStep | test/Atc.Rest.MinimalApi.Tests/Extensions/ValidationProblemExtensionsTests.cs:133-183 | skipping gives key `telephone`, and the message keeps `Telephone` because the rename goes to the caller's array |
| ResolverExamples.SkippedCityStep | test/Atc.Rest.MinimalApi.Tests/Extensions/ValidationProblemExtensionsTests.cs:133-183 | skipping gives key `address.City` |
| ResolverExamples.WrapperResolvedSkippingFirstLevel | test/Atc.Rest.MinimalApi.Tests/Extensions/ValidationProblemExtensionsTests.cs:133-183 | with skipping, the keys lose `Request.` and the messages their `Request ` prefix |
| ValidationFilter.SingleOrDefault | src/Atc.Rest.MinimalApi/Filters/Endpoints/ValidationFilter.cs:36 | throws `InvalidOperationException` exactly when two or more arguments have type `T`, finds nothing exactly when none has, and otherwise finds the one that has |
| ValidationFilter.ValidateUsingFluentValidation | src/Atc.Rest.MinimalApi/Filters/Endpoints/ValidationFilter.cs:62-86 | no validator or a valid result gives no errors, otherwise the validator's errors, with distinct keys |
| ValidationFilter.InvokeAsync | src/Atc.Rest.MinimalApi/Filters/Endpoints/ValidationFilter.cs:32-54 | the filter answers as `Filter` says |
| ValidationFilter.RespondTo | src/Atc.Rest.MinimalApi/Filters/Endpoints/ValidationFilter.cs:46-53 | errors give the resolved validation problem or the resolver's exception; no errors call `next` |
| ValidationFilter.FilterErrorsEmpty | src/Atc.Rest.MinimalApi/Filters/Endpoints/ValidationFilter.cs:42-46 | the merged errors are empty exactly when both validators report none |
| ValidationFilter.FilterBadRequest | src/Atc.Rest.MinimalApi/Filters/Endpoints/ValidationFilter.cs:36-40 | the fixed bad request is the answer exactly when no argument has type `T` |
| ValidationFilter.RespondIsNotBadRequest | src/Atc.Rest.MinimalApi/Filters/Endpoints/ValidationFilter.cs:46-53 | once the argument is found the answer is never the bad request |
| ValidationFilter.FilterAmbiguousArgument | src/Atc.Rest.MinimalApi/Filters/Endpoints/ValidationFilter.cs:36 | two arguments of type `T` make the filter throw `InvalidOperationException` |
| ValidationFilter.FilterNext | src/Atc.Rest.MinimalApi/Filters/Endpoints/ValidationFilter.cs:46-53 | `next` runs exactly when the argument is found and neither validator reports an error |
| ValidationFilter.ResolvedIsNotNext | src/Atc.Rest.MinimalApi/Filters/Endpoints/ValidationFilter.cs:46-50 | errors never reach `next` |
| ValidationFilter.FilterProblem | src/Atc.Rest.MinimalApi/Filters/Endpoints/ValidationFilter.cs:46-50 | a validation problem holds the resolved merged errors: distinct keys, at least one |
| ValidationFilter.RespondProblem | src/Atc.Rest.MinimalApi/Filters/Endpoints/ValidationFilter.cs:46-50 | a validation problem holds exactly the resolver's output, which is never empty |
| ValidationFilter.FilterKeepsUnknownNames | src/Atc.Rest.MinimalApi/Filters/Endpoints/ValidationFilter.cs:42-50 | errors under keys that name nothing on `T` reach the problem exactly as merged |
| ValidationFilter.FilterCompletes | src/Atc.Rest.MinimalApi/Filters/Endpoints/ValidationFilter.cs:32-54 | with a well-formed type, at most one argument of type `T` and no key ending in a dot, the filter never throws |
| ValidationFilter.FilterDefaultOptions | src/Atc.Rest.MinimalApi/Filters/Endpoints/ValidationFilterOptions.cs:18 | without options the filter behaves as with `SkipFirstLevelOnValidationKeys = false` |
| GlobalErrorHandlingMiddleware.GetHttpStatusCodeByExceptionType | src/Atc.Rest.MinimalApi/Middleware/GlobalErrorHandlingMiddleware.cs:70-96 | 400 exactly for the two validation exceptions and `BadHttpRequestException`; 401, 409 and 501 exactly for unauthorized access, invalid operation and not implemented; 500 exactly for every other exception |
| GlobalErrorHandlingMiddleware.ExtensionFields | src/Atc.Rest.MinimalApi/Middleware/GlobalErrorHandlingMiddleware.cs:202-224 | at most three identifiers are added |
| GlobalErrorHandlingMiddleware.Assign | src/Atc.Rest.MinimalApi/Middleware/GlobalErrorHandlingMiddleware.cs:212 | the indexer appends a new key at the end and keeps the length for an existing key |
| GlobalErrorHandlingMiddleware.KeyIndex | src/Atc.Rest.MinimalApi/Middleware/GlobalErrorHandlingMiddleware.cs:212 | the first position holding the key, or -1 exactly when no entry holds it |
| GlobalErrorHandlingMiddleware.AssignExisting | src/Atc.Rest.MinimalApi/Middleware/GlobalErrorHandlingMiddleware.cs:212 | for an existing key the indexer overwrites that key's entry in place and leaves every other entry as it was |
| GlobalErrorHandlingMiddleware.SetExtensionFields | src/Atc.Rest.MinimalApi/Middleware/GlobalErrorHandlingMiddleware.cs:202-224 | each present identifier is assigned in turn; status, title and detail are untouched |
| GlobalErrorHandlingMiddleware.AssignAllSnoc | src/Atc.Rest.MinimalApi/Middleware/GlobalErrorHandlingMiddleware.cs:210-223 | one more assignment after several |
| GlobalErrorHandlingMiddleware.AssignAllFresh | src/Atc.Rest.MinimalApi/Middleware/GlobalErrorHandlingMiddleware.cs:210-223 | assigning new distinct keys appends them in order |
| GlobalErrorHandlingMiddleware.ExtensionFieldsDistinct | src/Atc.Rest.MinimalApi/Middleware/GlobalErrorHandlingMiddleware.cs:212-222 | the three identifier names differ |
| GlobalErrorHandlingMiddleware.DecimalString | src/Atc.Rest.MinimalApi/Middleware/GlobalErrorHandlingMiddleware.cs:151 | the status code is written as a non-empty string of digits |
| GlobalErrorHandlingMiddleware.DecimalStringValue | src/Atc.Rest.MinimalApi/Middleware/GlobalErrorHandlingMiddleware.cs:151 | the digits written for the status spell the status code back, with no leading zero |
| GlobalErrorHandlingMiddleware.ConflictStatusDigits | src/Atc.Rest.MinimalApi/Middleware/GlobalErrorHandlingMiddleware.cs:86-88 | an `InvalidOperationException` gives the status line `409` |
| GlobalErrorHandlingMiddleware.FieldLines | src/Atc.Rest.MinimalApi/Middleware/GlobalErrorHandlingMiddleware.cs:171-190 | one `name: value` line per field, in order |
| GlobalErrorHandlingMiddleware.LinesSnoc | src/Atc.Rest.MinimalApi/Middleware/GlobalErrorHandlingMiddleware.cs:150-151 | `AppendLine` adds the line and a line break at the end |
| GlobalErrorHandlingMiddleware.AppendField | src/Atc.Rest.MinimalApi/Middleware/GlobalErrorHandlingMiddleware.cs:174-175 | the builder's text gains one field line |
| GlobalErrorHandlingMiddleware.AppendIdentifier | src/Atc.Rest.MinimalApi/Middleware/GlobalErrorHandlingMiddleware.cs:171-190 | an identifier's line is appended exactly when it is neither null nor empty |
| GlobalErrorHandlingMiddleware.AppendHeader | src/Atc.Rest.MinimalApi/Middleware/GlobalErrorHandlingMiddleware.cs:147-169 | the opening brace, then the status, title and detail lines |
| GlobalErrorHandlingMiddleware.CreateMessage | src/Atc.Rest.MinimalApi/Middleware/GlobalErrorHandlingMiddleware.cs:142-195 | the flat text is the brace, the problem's lines and the closing brace |
| GlobalErrorHandlingMiddleware.CreateProblemDetails | src/Atc.Rest.MinimalApi/Middleware/GlobalErrorHandlingMiddleware.cs:105-133 | a fresh problem with the status, title, detail and identifiers of `Problem` |
| GlobalErrorHandlingMiddleware.Middleware.constructor | src/Atc.Rest.MinimalApi/Middleware/GlobalErrorHandlingMiddleware.cs:16-23 | missing options become the default options |
| GlobalErrorHandlingMiddleware.Middleware.HandleExceptionAsync | src/Atc.Rest.MinimalApi/Middleware/GlobalErrorHandlingMiddleware.cs:50-63 | JSON content type, the classified status code, and one body written: serialized problem or flat text as the options say |
| GlobalErrorHandlingMiddleware.Middleware.Invoke | src/Atc.Rest.MinimalApi/Middleware/GlobalErrorHandlingMiddleware.cs:31-42 | a completed pipeline leaves the response alone; an exception is answered exactly once |
| GlobalErrorHandlingMiddleware.FlatTextMatchesProblem | src/Atc.Rest.MinimalApi/Middleware/GlobalErrorHandlingMiddleware.cs:142-195 | the flat text lists exactly the fields of the problem body, in order |
| GlobalErrorHandlingMiddleware.FieldLinesAppend | src/Atc.Rest.MinimalApi/Middleware/GlobalErrorHandlingMiddleware.cs:171-190 | the lines of two field lists are the lines of each |
| GlobalErrorHandlingMiddleware.JoinedLines | src/Atc.Rest.MinimalApi/Middleware/GlobalErrorHandlingMiddleware.cs:149-192 | the builder's text is its lines joined by line breaks |
| GlobalErrorHandlingMiddleware.FlatTextLines | src/Atc.Rest.MinimalApi/Middleware/GlobalErrorHandlingMiddleware.cs:149-194 | a flat text whose lines hold no line break splits back into its lines |
| GlobalErrorHandlingMiddleware.FieldLineBreaks | src/Atc.Rest.MinimalApi/Middleware/GlobalErrorHandlingMiddleware.cs:174-175 | a field line holds a line break only where its name or value does |
| GlobalErrorHandlingMiddleware.FlatTextReadsAsProblem | src/Atc.Rest.MinimalApi/Middleware/GlobalErrorHandlingMiddleware.cs:142-195 | without line breaks in the texts, the flat text reads back, line by line, as the fields of the problem body |
| GlobalErrorHandlingMiddleware.DecimalDigits | src/Atc.Rest.MinimalApi/Middleware/GlobalErrorHandlingMiddleware.cs:151 | the status line holds no line break |
| GlobalErrorHandlingMiddleware.ExtensionFieldsPresent | src/Atc.Rest.MinimalApi/Middleware/GlobalErrorHandlingMiddleware.cs:202-224 | each identifier is in the body exactly when it is neither null nor empty, with its own value |
| GlobalErrorHandlingMiddleware.VerboseDetail | src/Atc.Rest.MinimalApi/Middleware/GlobalErrorHandlingMiddleware.cs:116-128 | the verbose detail is used exactly when exceptions are included and the kind is not one of the simple ones |
| GlobalErrorHandlingMiddleware.DefaultOptionsHideException | src/Atc.Rest.MinimalApi/Options/GlobalErrorHandlingOptions.cs:14-23 | with default options the body is a problem whose detail is only the exception's message |
| UpdateUserByIdHandler.MapCountry | sample/src/Demo.Domain/Users/Handlers/UpdateUserByIdHandler.cs:121-134 | null maps to null, and only null does |
| UpdateUserByIdHandler.MapAddress | sample/src/Demo.Domain/Users/Handlers/UpdateUserByIdHandler.cs:104-119 | null maps to null, and only null does |
| UpdateUserByIdHandler.ExecuteAsync | sample/src/Demo.Domain/Users/Handlers/UpdateUserByIdHandler.cs:13-53 | the answer and the users afterwards are those of `Execute` on the users before; the store stays keyed by id |
| UpdateUserByIdHandler.CountryModifiedIffMapDiffers | sample/src/Demo.Domain/Users/Handlers/UpdateUserByIdHandler.cs:85-102 | a country is modified exactly when mapping it does not give the stored entity |
| UpdateUserByIdHandler.AddressModifiedIffMapDiffers | sample/src/Demo.Domain/Users/Handlers/UpdateUserByIdHandler.cs:64-83 | an address is modified exactly when mapping it does not give the stored entity |
| UpdateUserByIdHandler.NullAddresses | sample/src/Demo.Domain/Users/Handlers/UpdateUserByIdHandler.cs:68-76 | null against null is unchanged; null against a value, either way, is a change |
| UpdateUserByIdHandler.AddressRoundTrip | sample/src/Demo.Domain/Users/Handlers/UpdateUserByIdHandler.cs:64-119 | a mapped address is never modified against its source |
| UpdateUserByIdHandler.ModifiedIffUpdateChanges | sample/src/Demo.Domain/Users/Handlers/UpdateUserByIdHandler.cs:55-62 | a request is modified exactly when applying it changes the user |
| UpdateUserByIdHandler.EmailCaseChangeIsModified | sample/src/Demo.Domain/Users/Handlers/UpdateUserByIdHandler.cs:61 | an email that differs only in case is a modification |
| UpdateUserByIdHandler.ConflictMessageContainsEmail | sample/src/Demo.Domain/Users/Handlers/UpdateUserByIdHandler.cs:34 | the conflict message quotes the requested email |
| UpdateUserByIdHandler.ExecuteCheckOrder | sample/src/Demo.Domain/Users/Handlers/UpdateUserByIdHandler.cs:17-40 | not found first, then conflict, then unchanged; none of them changes any user |
| UpdateUserByIdHandler.ExecuteFrame | sample/src/Demo.Domain/Users/Handlers/UpdateUserByIdHandler.cs:42-46 | an update writes only the five assigned fields of that user, and the users change exactly when it is found, free of conflict and modifying |
| UpdateUserByIdHandler.ExecuteSave | sample/src/Demo.Domain/Users/Handlers/UpdateUserByIdHandler.cs:48-52 | after the save, `Ok` with the updated user when something was saved, the fixed bad request otherwise |
| UpdateUserByIdHandler.ExecuteIdempotent | sample/src/Demo.Domain/Users/Handlers/UpdateUserByIdHandler.cs:13-53 | the same request again after a success answers `Ok` with the user as it is, and changes nothing |
| UpdateUserByIdHandler.IgnoreCaseWeakerThanOrdinal | sample/src/Demo.Domain/Users/Handlers/UpdateUserByIdHandler.cs:28 | the conflict check ignores case where the modification check does not |

## Left out

- I/O, `async`/`await` and cancellation tokens are not modelled. Each awaited result is a parameter:
  - the validators' results;
  - the exception the rest of the pipeline threw;
  - the count `SaveChangesAsync` returns.
- JSON serialization of `ProblemDetails` and `HttpStatusCode.ToNormalizedString` are not modelled. They are parameters (`serialize`, `titleOf`).
- `Exception.GetMessage` is not modelled: an exception carries its plain message and its detailed message as given.
- `HttpContext.GetCorrelationId`, `GetRequestId` and `TraceIdentifier` are not modelled; their values are given in `RequestInfo`.
- `HttpResponse.WriteAsync` is not modelled; it appends the text to the response's written bodies.
- Whatever the rest of the pipeline wrote to the response before it threw is not modelled.
- `MiniValidator.TryValidate` and FluentValidation's rule evaluation are not modelled; their results are inputs.
- Reflection is not modelled directly: a build-once registry stands in for `GetProperties`, `GetProperty` and `GetCustomAttributes`. Attributes other than `[JsonPropertyName]` are not modelled.
- Swagger filters, endpoint definitions, startup wiring and the other sample handlers are not part of this model.
- `Mapster`'s `Adapt<User>` is not modelled: `Ok` carries the stored entity's value.
- A `Guid` is a natural number, because only its equality matters.
- `StringComparison.OrdinalIgnoreCase` is modelled as ASCII case folding only.
- The regex `\[.*\]` is modelled per line, without the .NET regex engine: `.` does not match `\n`.
- ValidationProblemExtensions.ResolveSerializationTypeNames: does not state the renamed contents of the caller's message arrays after the call, only that they may change. The callers discard the original problem, and a long in-place trace was too costly to state.
- ValidationProblemExtensions.ResolveSerializationTypeNames: requires that the caller's entries hold pairwise different arrays. `ValidationFilter` always builds fresh ones; two keys sharing one array are not modelled.
- ValidationFilter.InvokeAsync: requires that the FluentValidation errors have distinct keys. `ValidationResult.ToDictionary` groups by property name, so the `result.Add` that would throw on a repeated key is not modelled.
- GlobalErrorHandlingMiddleware.FlatTextReadsAsProblem: reads the flat text back only as lines of fields. Whether the text is valid JSON is not stated, and it is not.
- The resolver scenarios start from already-merged errors: the messages the validators would produce for the test models are written out, not derived.
- The flat text uses a single line feed for `Environment.NewLine` and a two-space indent for `Append(2, ...)`. The `"\r\n"` line break of Windows hosts is not modelled.
- An `OtherException` is assumed never to name one of the six listed exception kinds. The model does not enforce this.
