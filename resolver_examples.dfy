/**
 * The serialization-name resolver on the request types of the library's
 * own test suite (test/Atc.Rest.MinimalApi.Tests/Models): a location
 * request whose properties carry `[JsonPropertyName]` attributes, its
 * address, and a wrapper whose `Request` property holds the location
 * request. Each scenario starts from the merged errors the data
 * annotations and the FluentValidation validators report for an invalid
 * request, and states the dictionary the resolver produces.
 *
 * The general lemmas come first; the scenarios only instantiate them, so
 * that the resolver is never unfolded on the literals themselves.
 */
module ResolverExamples {
  import opened Wrappers
  import opened Exceptions
  import opened Strings
  import opened ErrorMaps
  import opened TypeRegistry
  import opened SerializationNames
  import opened ResolutionProperties

  // ---------------------------------------------------------------------
  // Keys
  // ---------------------------------------------------------------------

  /** A key made of a first segment and the rest of the path. */
  function Dotted(parent: string, child: string): string {
    parent + "." + child
  }

  lemma JoinDotted(a: string, b: string)
    ensures Join([a, b], '.') == Dotted(a, b)
  {
    assert [a, b][1..] == [b];
  }

  lemma JoinDotted3(a: string, b: string, c: string)
    ensures Join([a, b, c], '.') == Dotted(a, Dotted(b, c))
  {
    assert [a, b, c][1..] == [b, c];
    JoinDotted(b, c);
  }

  /** The first dot of a key is the one after its first segment. */
  lemma FirstDot(a: string, b: string)
    requires '.' !in a
    ensures '.' in Dotted(a, b)
    ensures FirstIndex(Dotted(a, b), '.') == |a|
    ensures Dotted(a, b)[..|a|] == a && Dotted(a, b)[|a| + 1..] == b
  {
    var s := Dotted(a, b);
    assert s[..|a|] == a;
    FirstIndexAt(s, '.', |a|);
  }

  lemma DottedKey(a: string, b: string)
    requires '.' !in a && '.' !in b && |b| > 0
    ensures '.' in Dotted(a, b) && NoTrailingDot(Dotted(a, b))
    ensures Split(Dotted(a, b), '.') == [a, b]
  {
    FirstDot(a, b);
    JoinDotted(a, b);
    SplitJoin([a, b], '.');
  }

  lemma DottedKey3(a: string, b: string, c: string)
    requires '.' !in a && '.' !in b && '.' !in c && |c| > 0
    ensures '.' in Dotted(a, Dotted(b, c)) && NoTrailingDot(Dotted(a, Dotted(b, c)))
    ensures Split(Dotted(a, Dotted(b, c)), '.') == [a, b, c]
  {
    FirstDot(a, Dotted(b, c));
    JoinDotted3(a, b, c);
    SplitJoin([a, b, c], '.');
  }

  // ---------------------------------------------------------------------
  // Messages
  // ---------------------------------------------------------------------

  /** A message quoting a display name, as FluentValidation's own messages do. */
  function Quoted(displayName: string, text: string): string {
    "'" + displayName + "'" + text
  }

  /** The display name FluentValidation gives a property reached through
      the property `level`: `Request Telephone`. */
  function NestedName(level: string, name: string): string {
    level + " " + name
  }

  /** A message naming the property once, where nothing else could start
      the name: the name is replaced. */
  lemma RenameOne(pre: string, name: string, post: string, wire: string)
    requires |name| > 0 && name[0] !in pre && name[0] !in post
    ensures Renamed([pre + name + post], name, wire) == Completed([pre + wire + post])
  {
    ReplaceAllOnce(pre, post, name, wire);
    assert OccursAt(pre + name + post, name, |pre|);
    var r := Renamed([pre + name + post], name, wire);
    assert r.value == [r.value[0]];
  }

  /** Two such messages. */
  lemma RenameTwo(pre1: string, post1: string, pre2: string, post2: string, name: string, wire: string)
    requires |name| > 0 && name[0] !in pre1 && name[0] !in post1 && name[0] !in pre2 && name[0] !in post2
    ensures Renamed([pre1 + name + post1, pre2 + name + post2], name, wire)
         == Completed([pre1 + wire + post1, pre2 + wire + post2])
  {
    ReplaceAllOnce(pre1, post1, name, wire);
    assert OccursAt(pre1 + name + post1, name, |pre1|);
    ReplaceAllOnce(pre2, post2, name, wire);
    assert OccursAt(pre2 + name + post2, name, |pre2|);
    var r := Renamed([pre1 + name + post1, pre2 + name + post2], name, wire);
    assert r.value == [r.value[0], r.value[1]];
  }

  /** The property name inside a nested display name is renamed. */
  lemma RenameNested(level: string, name: string, wire: string, text: string)
    requires |name| > 0 && name[0] !in level && name[0] != ' ' && name[0] != '\'' && name[0] !in text
    ensures Renamed([Quoted(NestedName(level, name), text)], name, wire)
         == Completed([Quoted(NestedName(level, wire), text)])
  {
    var pre, post := "'" + level + " ", "'" + text;
    assert Quoted(NestedName(level, name), text) == pre + name + post;
    assert Quoted(NestedName(level, wire), text) == pre + wire + post;
    RenameOne(pre, name, post, wire);
  }

  /** Skipping the level `level` removes it from a nested display name. */
  lemma StripNested(level: string, name: string, text: string)
    requires |level| > 0 && '\'' !in name && '\'' !in text && |text| > 0 && text[0] != level[0]
    ensures StripAll([Quoted(NestedName(level, name), text)], level) == [Quoted(name, text)]
  {
    var prefix, rest := WrapperPrefix(level), "'" + text;
    var message := Quoted(NestedName(level, name), text);
    assert message == prefix + (name + rest);
    assert StartsWith(message, prefix);
    ReplaceAllLeading(name + rest, prefix, "'");
    ReplaceAllSkips(name, rest, prefix, "'");
    assert rest[1..] == text;
    assert prefix[1] == level[0];
    assert |prefix| <= |rest| ==> rest[..|prefix|][1] == text[0];
    ReplaceAllNotAtStart(rest, prefix, "'");
    assert "'" + (name + rest) == Quoted(name, text);
    var r := StripAll([message], level);
    assert r == [r[0]];
  }

  /** A message that does not start with a quote is kept when a level is
      skipped. */
  lemma StripUnquoted(message: string, level: string)
    requires |message| > 0 && message[0] != '\''
    ensures StripAll([message], level) == [message]
  {
    var prefix := WrapperPrefix(level);
    if |prefix| <= |message| {
      assert message[..|prefix|][0] != prefix[0];
    }
    var r := StripAll([message], level);
    assert r == [r[0]];
  }

  // ---------------------------------------------------------------------
  // Path walks and steps
  // ---------------------------------------------------------------------

  /** One step of the path walk. */
  lemma PathStep(reg: Registry, t: TypeId, segs: seq<string>, segment: Segment)
    requires |segs| > 0 && ResolveSegment(reg, t, segs[0]) == Completed(segment)
    ensures ResolvePath(reg, t, segs) == Prepend(segment, ResolvePath(reg, segment.next, segs[1..]))
  {
  }

  /** A resolved segment in front of a walk that named a property. */
  lemma PrependNamed(segment: Segment, segments: seq<string>, last: string)
    ensures Prepend(segment, Completed(PathResult(segments, Some(last))))
         == Completed(PathResult([segment.text] + segments, Some(last)))
  {
  }

  lemma PathOfOne(reg: Registry, t: TypeId, a: string, s1: Segment)
    requires ResolveSegment(reg, t, a) == Completed(s1) && s1.wire.Some?
    ensures ResolvePath(reg, t, [a]) == Completed(PathResult([s1.text], s1.wire))
  {
    assert [a][1..] == [];
    PathStep(reg, t, [a], s1);
    assert [s1.text] + [] == [s1.text];
  }

  lemma PathOfTwo(reg: Registry, t: TypeId, a: string, b: string, s1: Segment, s2: Segment)
    requires ResolveSegment(reg, t, a) == Completed(s1)
    requires ResolveSegment(reg, s1.next, b) == Completed(s2) && s2.wire.Some?
    ensures ResolvePath(reg, t, [a, b]) == Completed(PathResult([s1.text, s2.text], s2.wire))
  {
    PathOfOne(reg, s1.next, b, s2);
    assert [a, b][1..] == [b];
    PathStep(reg, t, [a, b], s1);
    PrependNamed(s1, [s2.text], s2.wire.value);
    assert [s1.text] + [s2.text] == [s1.text, s2.text];
  }

  lemma PathOfThree(reg: Registry, t: TypeId, a: string, b: string, c: string, s1: Segment, s2: Segment, s3: Segment)
    requires ResolveSegment(reg, t, a) == Completed(s1)
    requires ResolveSegment(reg, s1.next, b) == Completed(s2)
    requires ResolveSegment(reg, s2.next, c) == Completed(s3) && s3.wire.Some?
    ensures ResolvePath(reg, t, [a, b, c]) == Completed(PathResult([s1.text, s2.text, s3.text], s3.wire))
  {
    PathOfTwo(reg, s1.next, b, c, s2, s3);
    PathCons(reg, t, a, [b, c], s1, [s2.text, s3.text], s3.wire.value);
    ConsOfTwo(a, b, c);
    ConsOfTwo(s1.text, s2.text, s3.text);
  }

  /** A resolved segment in front of a walk that named a property. */
  lemma PathCons(reg: Registry, t: TypeId, a: string, rest: seq<string>, s1: Segment, segments: seq<string>, last: string)
    requires ResolveSegment(reg, t, a) == Completed(s1)
    requires ResolvePath(reg, s1.next, rest) == Completed(PathResult(segments, Some(last)))
    ensures ResolvePath(reg, t, [a] + rest) == Completed(PathResult([s1.text] + segments, Some(last)))
  {
    assert ([a] + rest)[1..] == rest;
    PathStep(reg, t, [a] + rest, s1);
  }

  lemma ConsOfTwo<T>(x: T, y: T, z: T)
    ensures [x] + [y, z] == [x, y, z]
  {
  }

  lemma MergedNew(m: ErrorMap, key: string, values: seq<string>)
    requires key !in Keys(m)
    ensures Merged(m, key, values) == m + [(key, values)]
  {
    var r := Merged(m, key, values);
    assert r == r[..|m|] + [r[|m|]];
  }

  /** A key that was handled without an exception, leaving `out`. */
  predicate Completes(s: KeyStep, out: ErrorMap) {
    s.thrown.None? && s.out == out
  }

  /** A plain key naming the `i`-th property of the root type, whose
      serialization name differs and is not yet in the new dictionary: the
      new key is added with the renamed messages. */
  lemma TopShown(reg: Registry, root: TypeId, i: nat, out: ErrorMap, values: seq<string>, renamed: seq<string>)
    requires WellFormed(reg) && root in reg && i < |reg[root]|
    requires WireName(reg[root][i]) != reg[root][i].declared && WireName(reg[root][i]) !in Keys(out)
    requires Renamed(values, reg[root][i].declared, WireName(reg[root][i])) == Completed(renamed)
    ensures Completes(Step(reg, root, false, out, reg[root][i].declared, values), out + [(WireName(reg[root][i]), renamed)])
  {
    var p := reg[root][i];
    GetPropertyFinds(reg, root, i);
    TopLevelRenameShown(reg, root, false, out, p.declared, values, p);
  }

  /** A dotted key whose path walk completes ends as `AddResolved` does. */
  lemma StepCompletesAs(reg: Registry, root: TypeId, skip: bool, out: ErrorMap, key: string, values: seq<string>,
                        path: PathResult, out2: ErrorMap)
    requires '.' in key && ResolvePath(reg, root, Split(key, '.')) == Completed(path)
    requires Completes(AddResolved(skip, out, key, values, path), out2)
    ensures Completes(Step(reg, root, skip, out, key, values), out2)
  {
    StepResolved(reg, root, skip, out, key, values, path);
  }

  /** A dotted key whose last property is renamed, without skipping: the
      rewritten key is added with the renamed messages. */
  lemma DeepShown(reg: Registry, root: TypeId, out: ErrorMap, key: string, values: seq<string>,
                  last: string, path: PathResult, newKey: string, renamed: seq<string>)
    requires '.' in key && NoTrailingDot(key) && Split(key, '.')[|Split(key, '.')| - 1] == last
    requires ResolvePath(reg, root, Split(key, '.')) == Completed(path)
    requires Join(path.segments, '.') == newKey && newKey !in Keys(out)
    requires path.lastName.Some? && path.lastName.value != last
    requires Renamed(values, last, path.lastName.value) == Completed(renamed)
    ensures Completes(Step(reg, root, false, out, key, values), out + [(newKey, renamed)])
  {
    AddResolvedRenamed(out, key, values, path, newKey, last, renamed);
    StepCompletesAs(reg, root, false, out, key, values, path, out + [(newKey, renamed)]);
  }

  lemma AddResolvedRenamed(out: ErrorMap, key: string, values: seq<string>, path: PathResult,
                           newKey: string, last: string, renamed: seq<string>)
    requires '.' in key && NoTrailingDot(key) && Split(key, '.')[|Split(key, '.')| - 1] == last
    requires Join(path.segments, '.') == newKey && newKey !in Keys(out)
    requires path.lastName.Some? && path.lastName.value != last
    requires Renamed(values, last, path.lastName.value) == Completed(renamed)
    ensures Completes(AddResolved(false, out, key, values, path), out + [(newKey, renamed)])
  {
    AddResolvedShown(out, key, values, path);
  }

  /** A dotted key whose last property keeps its name, without skipping:
      the rewritten key is added with the messages as they are. */
  lemma DeepKept(reg: Registry, root: TypeId, out: ErrorMap, key: string, values: seq<string>,
                 last: string, path: PathResult, newKey: string)
    requires '.' in key && Split(key, '.')[|Split(key, '.')| - 1] == last
    requires ResolvePath(reg, root, Split(key, '.')) == Completed(path)
    requires Join(path.segments, '.') == newKey && newKey !in Keys(out)
    requires path.lastName == Some(last)
    ensures Completes(Step(reg, root, false, out, key, values), out + [(newKey, values)])
  {
    AddResolvedKept(out, key, values, path, newKey, last);
    StepCompletesAs(reg, root, false, out, key, values, path, out + [(newKey, values)]);
  }

  lemma AddResolvedKept(out: ErrorMap, key: string, values: seq<string>, path: PathResult, newKey: string, last: string)
    requires Split(key, '.')[|Split(key, '.')| - 1] == last
    requires Join(path.segments, '.') == newKey && newKey !in Keys(out)
    requires path.lastName == Some(last)
    ensures Completes(AddResolved(false, out, key, values, path), out + [(newKey, values)])
  {
    AddResolvedCases(false, out, key, values, path, Formatted(out, newKey, values, false), last);
    MergedNew(out, newKey, values);
  }

  /** A dotted key with the first level skipped: the rewritten key less its
      first level is merged in, with that level's wrapper prefix stripped
      from the messages, whatever the rename does to the caller's array. */
  lemma DeepSkipped(reg: Registry, root: TypeId, out: ErrorMap, key: string, values: seq<string>,
                    path: PathResult, level: string, rest: string)
    requires '.' in key && NoTrailingDot(key) && ResolvePath(reg, root, Split(key, '.')) == Completed(path)
    requires Join(path.segments, '.') == Dotted(level, rest) && '.' !in level
    ensures Completes(Step(reg, root, true, out, key, values), Merged(out, rest, StripAll(values, level)))
  {
    FirstDot(level, rest);
    AddResolvedCompletes(true, out, key, values, path);
    SkippedRenameHidden(reg, root, out, key, values, path);
  }

  lemma AppendPair<T>(x: T, y: T)
    ensures [x] + [y] == [x, y]
  {
  }

  /** Two keys, neither of which throws. */
  lemma ResolveOfTwo(reg: Registry, root: TypeId, skip: bool, k1: string, v1: seq<string>, k2: string, v2: seq<string>,
                     out1: ErrorMap, out2: ErrorMap)
    requires Completes(Step(reg, root, skip, [], k1, v1), out1)
    requires Completes(Step(reg, root, skip, out1, k2, v2), out2)
    ensures Resolve(reg, root, skip, [(k1, v1), (k2, v2)]) == Resolution(out2, None)
  {
    var errors := [(k1, v1), (k2, v2)];
    assert ResolutionPrefix(reg, root, skip, errors, 0) == Resolution([], None);
    PrefixNext(reg, root, skip, errors, 0);
    PrefixNext(reg, root, skip, errors, 1);
  }


  // ---------------------------------------------------------------------
  // The test types
  // ---------------------------------------------------------------------

  const Wrapper := "CreateLocationRequestWithRequest"
  const Request := "CreateLocationRequestWithJsonPropertyNames"
  const AddressType := "AddressWithJsonPropertyNames"

  /** A string property without a `[JsonPropertyName]` attribute. */
  function Plain(name: string): Prop {
    Prop(name, None, "string", false, "")
  }

  const WrapperProps := [Plain("LocationId"), Prop("Request", None, Request, false, "")]
  const RequestProps := [Prop("Address", Some("address"), AddressType, false, ""),
                         Prop("Telephone", Some("telephone"), "string", false, "")]
  const AddressProps := [Prop("CountryCodeA3", Some("country_code_a3"), "string", false, ""),
                         Plain("Place"), Plain("Street"), Plain("PostalCode"), Plain("City")]

  const Types: Registry := map[Wrapper := WrapperProps, Request := RequestProps, AddressType := AddressProps]

  /** What reflection guarantees of one type's properties. */
  ghost predicate WellNamed(props: seq<Prop>) {
    (forall i :: 0 <= i < |props| ==> IsIdentifier(props[i].declared)) &&
    (forall i, j :: 0 <= i < j < |props| ==> props[i].declared != props[j].declared)
  }

  /** Declared names of pairwise different lengths are pairwise different. */
  lemma WellNamedByLength(props: seq<Prop>)
    requires forall i :: 0 <= i < |props| ==> IsIdentifier(props[i].declared)
    requires forall i, j :: 0 <= i < j < |props| ==> |props[i].declared| != |props[j].declared|
    ensures WellNamed(props)
  {
  }

  lemma WrapperWellNamed()
    ensures WellNamed(WrapperProps)
  {
    assert IsIdentifier("LocationId") && IsIdentifier("Request");
    WellNamedByLength(WrapperProps);
  }

  lemma RequestIdentifiers()
    ensures IsIdentifier("Address") && IsIdentifier("Telephone")
  {
  }

  lemma RequestWellNamed()
    ensures WellNamed(RequestProps)
  {
    RequestIdentifiers();
    WellNamedByLength(RequestProps);
  }

  lemma AddressIdentifiers()
    ensures IsIdentifier("CountryCodeA3") && IsIdentifier("Place") && IsIdentifier("Street")
    ensures IsIdentifier("PostalCode") && IsIdentifier("City")
  {
  }

  lemma AddressWellNamed()
    ensures WellNamed(AddressProps)
  {
    AddressIdentifiers();
    WellNamedByLength(AddressProps);
  }

  /** The test types are what reflection could report. */
  lemma TypesWellFormed()
    ensures WellFormed(Types)
  {
    WrapperWellNamed();
    RequestWellNamed();
    AddressWellNamed();
    assert forall t :: t in Types ==> Types[t] == WrapperProps || Types[t] == RequestProps || Types[t] == AddressProps;
  }

  /** A segment naming the `i`-th property of test type `t`. */
  lemma SegmentOf(t: TypeId, i: nat, name: string, wire: string, next: TypeId)
    requires t in Types && i < |Types[t]| && Types[t][i].declared == name
    requires WireName(Types[t][i]) == wire && ElementType(Types[t][i]) == next
    ensures ResolveSegment(Types, t, name) == Completed(Segment(wire, next, Some(wire)))
  {
    TypesWellFormed();
    SegmentOfProperty(Types, t, i);
  }

  // ---------------------------------------------------------------------
  // The test messages
  // ---------------------------------------------------------------------

  /** The `[MinLength(3)]` message of the data annotations, for a property
      shown as `name`. */
  function MinLengthMessage(name: string): string {
    "The field " + name + MinLengthText
  }

  const MinLengthText := " must be a string or array" + " type with a minimum length of '3'."

  /** The messages the test validators configure. */
  function LengthMessage(name: string): string {
    "" + name + " must be 3 characters long."
  }

  function RequiredMessage(name: string): string {
    "" + name + " is required."
  }

  const CityMessage := "CityName is too short."

  /** FluentValidation's own `Length(2, 10)` message. */
  function LengthRangeMessage(displayName: string): string {
    Quoted(displayName, LengthRangeText)
  }

  const LengthRangeText := " must be between 2 and 10" + " characters." + " You entered 1 characters."

  lemma LengthRangeTextFacts()
    ensures 'T' !in LengthRangeText && '\'' !in LengthRangeText
    ensures |LengthRangeText| > 0 && LengthRangeText[0] == ' '
  {
    NeitherIn(" must be between 2 and 10");
    NeitherIn(" characters.");
    NeitherIn(" You entered 1 characters.");
  }

  lemma NeitherIn(text: string)
    requires forall i :: 0 <= i < |text| ==> text[i] == ' ' || text[i] == '.' || 'a' <= text[i] <= 'z' || '0' <= text[i] <= '9' || text[i] == 'Y'
    ensures 'T' !in text && '\'' !in text
  {
  }

  lemma MinLengthTextFacts()
    ensures 'C' !in MinLengthText
  {
    assert 'C' !in " must be a string or array" && 'C' !in " type with a minimum length of '3'.";
  }

  // ---------------------------------------------------------------------
  // A request with `[JsonPropertyName]` attributes
  // ---------------------------------------------------------------------

  /** The errors for a location request with a two-letter country code
      and a blank telephone, as the data annotations and the validator
      report them. */
  const CountryKey := Dotted("Address", "CountryCodeA3")
  const CountryErrors := [MinLengthMessage("CountryCodeA3"), LengthMessage("CountryCodeA3")]
  const TelephoneErrors := [RequiredMessage("Telephone")]
  const LocationErrors: ErrorMap := [(CountryKey, CountryErrors), ("Telephone", TelephoneErrors)]

  /** What the resolver should make of them. */
  const CountryWireKey := Dotted("address", "country_code_a3")
  const CountryWireErrors := [MinLengthMessage("country_code_a3"), LengthMessage("country_code_a3")]
  const TelephoneWireErrors := [RequiredMessage("telephone")]

  lemma CountryPath()
    ensures ResolvePath(Types, Request, ["Address", "CountryCodeA3"])
         == Completed(PathResult(["address", "country_code_a3"], Some("country_code_a3")))
  {
    SegmentOf(Request, 0, "Address", "address", AddressType);
    SegmentOf(AddressType, 0, "CountryCodeA3", "country_code_a3", "string");
    PathOfTwo(Types, Request, "Address", "CountryCodeA3",
              Segment("address", AddressType, Some("address")),
              Segment("country_code_a3", "string", Some("country_code_a3")));
  }

  /** Both messages of the country code name it once. */
  lemma CountryErrorsRenamed()
    ensures Renamed(CountryErrors, "CountryCodeA3", "country_code_a3") == Completed(CountryWireErrors)
  {
    MinLengthTextFacts();
    RenameTwo("The field ", MinLengthText, "", " must be 3 characters long.", "CountryCodeA3", "country_code_a3");
  }

  /** The dotted key: both segments are renamed, and so are the messages. */
  lemma CountryKeyStep()
    ensures Completes(Step(Types, Request, false, [], CountryKey, CountryErrors), [(CountryWireKey, CountryWireErrors)])
  {
    DottedKey("Address", "CountryCodeA3");
    CountryPath();
    JoinDotted("address", "country_code_a3");
    CountryErrorsRenamed();
    DeepShown(Types, Request, [], CountryKey, CountryErrors, "CountryCodeA3",
              PathResult(["address", "country_code_a3"], Some("country_code_a3")), CountryWireKey, CountryWireErrors);
  }

  /** The plain key after it: renamed, added after the first, and its
      message renamed. */
  lemma TelephoneKeyStep()
    ensures Completes(Step(Types, Request, false, [(CountryWireKey, CountryWireErrors)], "Telephone", TelephoneErrors),
                      [(CountryWireKey, CountryWireErrors), ("telephone", TelephoneWireErrors)])
  {
    TypesWellFormed();
    NotSingleKey(CountryWireKey, CountryWireErrors, "telephone");
    RenameOne("", "Telephone", " is required.", "telephone");
    AppendPair((CountryWireKey, CountryWireErrors), ("telephone", TelephoneWireErrors));
    TopShown(Types, Request, 1, [(CountryWireKey, CountryWireErrors)], TelephoneErrors, TelephoneWireErrors);
  }

  /** Every key, and the property name inside every message, is replaced
      by its `[JsonPropertyName]`; the order of the keys is kept. */
  lemma JsonPropertyNamesResolved()
    ensures Resolve(Types, Request, false, LocationErrors)
         == Resolution([(CountryWireKey, CountryWireErrors), ("telephone", TelephoneWireErrors)], None)
  {
    CountryKeyStep();
    TelephoneKeyStep();
    ResolveOfTwo(Types, Request, false, CountryKey, CountryErrors, "Telephone", TelephoneErrors,
                 [(CountryWireKey, CountryWireErrors)], [(CountryWireKey, CountryWireErrors), ("telephone", TelephoneWireErrors)]);
  }

  // ---------------------------------------------------------------------
  // A wrapper whose `Request` property holds the location request
  // ---------------------------------------------------------------------

  /** The errors for a wrapped request with a one-character telephone and
      a one-character city, as the validators report them. */
  const WrappedTelephoneKey := Dotted("Request", "Telephone")
  const WrappedTelephoneErrors := [LengthRangeMessage(NestedName("Request", "Telephone"))]
  const WrappedCityKey := Dotted("Request", Dotted("Address", "City"))
  const CityErrors := [CityMessage]
  const WrapperErrors: ErrorMap := [(WrappedTelephoneKey, WrappedTelephoneErrors), (WrappedCityKey, CityErrors)]

  /** What the resolver should make of them, keeping the first level ... */
  const WrappedTelephoneWireKey := Dotted("Request", "telephone")
  const WrappedTelephoneWireErrors := [LengthRangeMessage(NestedName("Request", "telephone"))]
  const WrappedCityWireKey := Dotted("Request", Dotted("address", "City"))

  /** ... and skipping it. */
  const SkippedTelephoneErrors := [LengthRangeMessage("Telephone")]
  const SkippedCityKey := Dotted("address", "City")

  lemma TelephonePath()
    ensures ResolvePath(Types, Wrapper, ["Request", "Telephone"])
         == Completed(PathResult(["Request", "telephone"], Some("telephone")))
  {
    SegmentOf(Wrapper, 1, "Request", "Request", Request);
    SegmentOf(Request, 1, "Telephone", "telephone", "string");
    PathOfTwo(Types, Wrapper, "Request", "Telephone",
              Segment("Request", Request, Some("Request")), Segment("telephone", "string", Some("telephone")));
  }

  lemma CityPath()
    ensures ResolvePath(Types, Wrapper, ["Request", "Address", "City"])
         == Completed(PathResult(["Request", "address", "City"], Some("City")))
  {
    SegmentOf(Wrapper, 1, "Request", "Request", Request);
    SegmentOf(Request, 0, "Address", "address", AddressType);
    SegmentOf(AddressType, 4, "City", "City", "string");
    PathOfThree(Types, Wrapper, "Request", "Address", "City",
                Segment("Request", Request, Some("Request")), Segment("address", AddressType, Some("address")),
                Segment("City", "string", Some("City")));
  }

  /** The telephone message names the property inside its display name. */
  lemma WrappedTelephoneErrorsRenamed()
    ensures Renamed(WrappedTelephoneErrors, "Telephone", "telephone") == Completed(WrappedTelephoneWireErrors)
  {
    LengthRangeTextFacts();
    RenameNested("Request", "Telephone", "telephone", LengthRangeText);
  }

  /** The telephone key keeps every level and is renamed inside the
      display name of its message. */
  lemma WrappedTelephoneStep()
    ensures Completes(Step(Types, Wrapper, false, [], WrappedTelephoneKey, WrappedTelephoneErrors),
                      [(WrappedTelephoneWireKey, WrappedTelephoneWireErrors)])
  {
    DottedKey("Request", "Telephone");
    TelephonePath();
    JoinDotted("Request", "telephone");
    WrappedTelephoneErrorsRenamed();
    DeepShown(Types, Wrapper, [], WrappedTelephoneKey, WrappedTelephoneErrors, "Telephone",
              PathResult(["Request", "telephone"], Some("telephone")), WrappedTelephoneWireKey, WrappedTelephoneWireErrors);
  }

  /** Skipping `Request` removes it from the display name. */
  lemma WrappedTelephoneErrorsStripped()
    ensures StripAll(WrappedTelephoneErrors, "Request") == SkippedTelephoneErrors
  {
    LengthRangeTextFacts();
    StripNested("Request", "Telephone", LengthRangeText);
  }

  /** With the first level skipped, the telephone key loses `Request.`,
      and its message loses the `Request ` of the display name. The rename
      to `telephone` goes to the caller's array, which the new dictionary
      does not hold, so the dictionary shows the declared name. */
  lemma SkippedTelephoneStep()
    ensures Completes(Step(Types, Wrapper, true, [], WrappedTelephoneKey, WrappedTelephoneErrors),
                      [("telephone", SkippedTelephoneErrors)])
  {
    DottedKey("Request", "Telephone");
    TelephonePath();
    JoinDotted("Request", "telephone");
    WrappedTelephoneErrorsStripped();
    MergedNew([], "telephone", SkippedTelephoneErrors);
    DeepSkipped(Types, Wrapper, [], WrappedTelephoneKey, WrappedTelephoneErrors,
                PathResult(["Request", "telephone"], Some("telephone")), "Request", "telephone");
  }

  /** Where the walk takes the city key's three segments. */
  const CityWalk := PathResult(["Request", "address", "City"], Some("City"))

  /** The city key, in the terms the lemmas about one step ask for. */
  lemma CityKey()
    ensures '.' !in "Request" && '.' in WrappedCityKey && NoTrailingDot(WrappedCityKey)
    ensures Split(WrappedCityKey, '.')[|Split(WrappedCityKey, '.')| - 1] == "City"
    ensures ResolvePath(Types, Wrapper, Split(WrappedCityKey, '.')) == Completed(CityWalk)
    ensures Join(CityWalk.segments, '.') == WrappedCityWireKey == Dotted("Request", SkippedCityKey)
  {
    DottedKey3("Request", "Address", "City");
    CityPath();
    JoinDotted3("Request", "address", "City");
  }

  /** A one-entry dictionary does not hold a key of another length. */
  lemma NotSingleKey(k: string, v: seq<string>, key: string)
    requires |k| != |key|
    ensures key !in Keys([(k, v)])
  {
    assert Keys([(k, v)]) == [k];
  }

  /** What the city step needs to know when the telephone key went first. */
  lemma WrappedCityFacts()
    ensures '.' in WrappedCityKey && Split(WrappedCityKey, '.')[|Split(WrappedCityKey, '.')| - 1] == "City"
    ensures ResolvePath(Types, Wrapper, Split(WrappedCityKey, '.')) == Completed(CityWalk)
    ensures Join(CityWalk.segments, '.') == WrappedCityWireKey
    ensures WrappedCityWireKey !in Keys([(WrappedTelephoneWireKey, WrappedTelephoneWireErrors)])
    ensures CityWalk.lastName == Some("City")
  {
    CityKey();
    NotSingleKey(WrappedTelephoneWireKey, WrappedTelephoneWireErrors, WrappedCityWireKey);
  }

  /** The city key: the wrapper level is kept and the address level is
      renamed; `City` has no attribute, so its message is left as it is. */
  lemma WrappedCityStep()
    ensures Completes(Step(Types, Wrapper, false, [(WrappedTelephoneWireKey, WrappedTelephoneWireErrors)], WrappedCityKey, CityErrors),
                      [(WrappedTelephoneWireKey, WrappedTelephoneWireErrors), (WrappedCityWireKey, CityErrors)])
  {
    WrappedCityFacts();
    AppendPair((WrappedTelephoneWireKey, WrappedTelephoneWireErrors), (WrappedCityWireKey, CityErrors));
    DeepKept(Types, Wrapper, [(WrappedTelephoneWireKey, WrappedTelephoneWireErrors)], WrappedCityKey, CityErrors, "City",
             CityWalk, WrappedCityWireKey);
  }

  /** What the skipping city step needs to know when the telephone key
      went first. */
  lemma SkippedCityFacts()
    ensures '.' in WrappedCityKey && NoTrailingDot(WrappedCityKey)
    ensures ResolvePath(Types, Wrapper, Split(WrappedCityKey, '.')) == Completed(CityWalk)
    ensures Join(CityWalk.segments, '.') == Dotted("Request", SkippedCityKey) && '.' !in "Request"
    ensures StripAll(CityErrors, "Request") == CityErrors
    ensures Merged([("telephone", SkippedTelephoneErrors)], SkippedCityKey, CityErrors)
         == [("telephone", SkippedTelephoneErrors)] + [(SkippedCityKey, CityErrors)]
  {
    CityKey();
    StripUnquoted(CityMessage, "Request");
    NotSingleKey("telephone", SkippedTelephoneErrors, SkippedCityKey);
    MergedNew([("telephone", SkippedTelephoneErrors)], SkippedCityKey, CityErrors);
  }

  /** The same with the first level skipped: the key loses `Request.`. */
  lemma SkippedCityStep()
    ensures Completes(Step(Types, Wrapper, true, [("telephone", SkippedTelephoneErrors)], WrappedCityKey, CityErrors),
                      [("telephone", SkippedTelephoneErrors), (SkippedCityKey, CityErrors)])
  {
    SkippedCityFacts();
    AppendPair(("telephone", SkippedTelephoneErrors), (SkippedCityKey, CityErrors));
    DeepSkipped(Types, Wrapper, [("telephone", SkippedTelephoneErrors)], WrappedCityKey, CityErrors,
                CityWalk, "Request", SkippedCityKey);
  }

  /** Without skipping: every key keeps its first level, and only the
      segments and display names that have a `[JsonPropertyName]` change. */
  lemma WrapperResolved()
    ensures Resolve(Types, Wrapper, false, WrapperErrors)
         == Resolution([(WrappedTelephoneWireKey, WrappedTelephoneWireErrors), (WrappedCityWireKey, CityErrors)], None)
  {
    WrappedTelephoneStep();
    WrappedCityStep();
    ResolveOfTwo(Types, Wrapper, false, WrappedTelephoneKey, WrappedTelephoneErrors, WrappedCityKey, CityErrors,
                 [(WrappedTelephoneWireKey, WrappedTelephoneWireErrors)],
                 [(WrappedTelephoneWireKey, WrappedTelephoneWireErrors), (WrappedCityWireKey, CityErrors)]);
  }

  /** With `skipFirstLevelOnValidationKeys`: the keys lose `Request.`, and
      the telephone message keeps the declared name `Telephone`. */
  lemma WrapperResolvedSkippingFirstLevel()
    ensures Resolve(Types, Wrapper, true, WrapperErrors)
         == Resolution([("telephone", SkippedTelephoneErrors), (SkippedCityKey, CityErrors)], None)
  {
    SkippedTelephoneStep();
    SkippedCityStep();
    ResolveOfTwo(Types, Wrapper, true, WrappedTelephoneKey, WrappedTelephoneErrors, WrappedCityKey, CityErrors,
                 [("telephone", SkippedTelephoneErrors)], [("telephone", SkippedTelephoneErrors), (SkippedCityKey, CityErrors)]);
  }
}
