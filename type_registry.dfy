/**
 * The reflection the serialization-name resolver performs, made explicit:
 * a registry from a type to its public properties, in declaration order.
 * A property carries its declared name, the name given by a
 * `[JsonPropertyName]` attribute if it has one, its type, and - when that
 * type is generic - the first generic type argument.
 */
module TypeRegistry {
  import opened Wrappers
  import opened Exceptions

  type TypeId = string

  datatype Prop = Prop(
    declared: string,
    wire: Option<string>,
    propType: TypeId,
    isGeneric: bool,
    firstTypeArg: TypeId)

  type Registry = map<TypeId, seq<Prop>>

  /** `type.GetProperties()`; a type the registry does not describe has none. */
  function Properties(reg: Registry, t: TypeId): seq<Prop> {
    if t in reg then reg[t] else []
  }

  /** The properties whose declared name is exactly `name`, in order. */
  function Named(props: seq<Prop>, name: string): (r: seq<Prop>)
    ensures forall i :: 0 <= i < |r| ==> r[i] in props && r[i].declared == name
    ensures forall p :: p in props && p.declared == name ==> p in r
    decreases |props|
  {
    if |props| == 0 then []
    else (if props[0].declared == name then [props[0]] else []) + Named(props[1..], name)
  }

  /** `propertyInfos.FirstOrDefault(x => x.Name.Equals(name, StringComparison.Ordinal))`. */
  function FirstProperty(props: seq<Prop>, name: string): (r: Option<Prop>)
    ensures r.None? <==> forall p :: p in props ==> p.declared != name
    ensures r.Some? ==> r.value in props && r.value.declared == name
  {
    var found := Named(props, name);
    if |found| == 0 then None else Some(found[0])
  }

  /**
   * `type.GetProperty(name)`: null when no property has that name, the
   * property when exactly one has it, and an `AmbiguousMatchException` when
   * several do (a property hidden with `new` in a derived type).
   */
  function GetProperty(reg: Registry, t: TypeId, name: string): (r: Outcome<Option<Prop>>)
    ensures r == Completed(None) <==> forall p :: p in Properties(reg, t) ==> p.declared != name
    ensures r.Completed? && r.value.Some? ==> r.value == FirstProperty(Properties(reg, t), name)
    ensures r.Threw? <==> |Named(Properties(reg, t), name)| >= 2
    ensures r.Threw? ==> r.exception == AmbiguousMatchException
    ensures |Named(Properties(reg, t), name)| == 1 ==> r == Completed(FirstProperty(Properties(reg, t), name))
  {
    var found := Named(Properties(reg, t), name);
    assert |found| > 0 ==> found[0] in Properties(reg, t);
    if |found| == 0 then Completed(None)
    else if |found| == 1 then Completed(Some(found[0]))
    else Threw(AmbiguousMatchException)
  }

  /** `jsonPropertyNameAttribute?.Name ?? declaredName`. */
  function WireName(p: Prop): string {
    p.wire.GetOr(p.declared)
  }

  /** The type the path walk descends into: the first generic argument of a
      generic property type (a `List<Address>` descends into `Address`),
      otherwise the property type itself. */
  function ElementType(p: Prop): TypeId {
    if p.isGeneric then p.firstTypeArg else p.propType
  }

  /** A C# identifier: non-empty, and none of the characters that the key
      syntax gives a meaning to. */
  predicate IsIdentifier(name: string) {
    |name| > 0 && '.' !in name && '[' !in name && ']' !in name && '\n' !in name
  }

  /** What reflection guarantees: every declared name is an identifier, and
      no type has two properties with the same name. */
  ghost predicate WellFormed(reg: Registry) {
    forall t :: t in reg ==>
      (forall i :: 0 <= i < |reg[t]| ==> IsIdentifier(reg[t][i].declared)) &&
      (forall i, j :: 0 <= i < j < |reg[t]| ==> reg[t][i].declared != reg[t][j].declared)
  }

  /** In a well-formed registry a lookup never throws, and what it finds has
      an identifier for a name. */
  lemma GetPropertyWellFormed(reg: Registry, t: TypeId, name: string)
    requires WellFormed(reg)
    ensures GetProperty(reg, t, name).Completed?
    ensures GetProperty(reg, t, name).value.Some? ==> IsIdentifier(name)
  {
    var props := Properties(reg, t);
    NamedAtMostOne(props, name);
    var found := Named(props, name);
    if |found| == 1 {
      var i :| 0 <= i < |props| && props[i] == found[0];
    }
  }

  /** A registry entry without repeated names has at most one match. */
  lemma {:induction false} NamedAtMostOne(props: seq<Prop>, name: string)
    requires forall i, j :: 0 <= i < j < |props| ==> props[i].declared != props[j].declared
    ensures |Named(props, name)| <= 1
    decreases |props|
  {
    if |props| > 0 {
      var rest := Named(props[1..], name);
      assert forall i, j :: 0 <= i < j < |props[1..]| ==> props[1..][i].declared != props[1..][j].declared by {
        forall i, j | 0 <= i < j < |props[1..]| ensures props[1..][i].declared != props[1..][j].declared {
          assert props[1..][i] == props[i + 1] && props[1..][j] == props[j + 1];
        }
      }
      NamedAtMostOne(props[1..], name);
      assert |rest| > 0 ==> rest[0] in props[1..];
      if props[0].declared == name && |rest| == 1 {
        assert false;
      }
    }
  }

  /** In a well-formed registry, a property's own declared name finds that
      property. */
  lemma GetPropertyFinds(reg: Registry, t: TypeId, i: nat)
    requires WellFormed(reg) && t in reg && i < |reg[t]|
    ensures GetProperty(reg, t, reg[t][i].declared) == Completed(Some(reg[t][i]))
  {
    var props, name := reg[t], reg[t][i].declared;
    NamedAtMostOne(props, name);
    var found := Named(props, name);
    assert props[i] in found;
    var j :| 0 <= j < |props| && props[j] == found[0];
  }
}
