/**
 * The sample's `UpdateUserByIdHandler`: finds the user, refuses an email
 * another user already has (ignoring case), answers an unchanged request
 * without saving, and otherwise overwrites the user's name, gender, email
 * and work address in place and saves.
 *
 * The database is the map of tracked `UserEntity` objects by key;
 * `SaveChangesAsync` is outside this model and its count is an input.
 * Strings and nested records that the C# code may hold as `null` are
 * `Option`s; `string.Equals(a, b, StringComparison.Ordinal)` is then `==`,
 * which like the C# call holds for two nulls and fails for one.
 */
module UpdateUserByIdHandler {
  import opened Wrappers
  import opened Strings

  /** A `Guid` key; only its equality matters. */
  type Guid = nat

  /** `GenderType`; its first member, `None`, is `NoGender` here. */
  datatype GenderType = NoGender | NonBinary | Male | Female

  // ---------------------------------------------------------------------
  // The request (contract records)
  // ---------------------------------------------------------------------

  datatype Country = Country(name: Option<string>, alpha2Code: Option<string>, alpha3Code: Option<string>)

  datatype Address = Address(
    streetName: Option<string>,
    streetNumber: Option<string>,
    postalCode: Option<string>,
    cityName: Option<string>,
    country: Option<Country>)

  datatype UpdateUserRequest = UpdateUserRequest(
    gender: GenderType,
    firstName: string,
    lastName: string,
    email: string,
    workAddress: Option<Address>)

  datatype UpdateUserByIdParameters = UpdateUserByIdParameters(userId: Guid, request: UpdateUserRequest)

  // ---------------------------------------------------------------------
  // The stored entities
  // ---------------------------------------------------------------------

  /** `CountryEntity`. Its strings are declared non-null, but `MapCountry`
      copies possibly-null request strings into them. */
  datatype CountryEntity = CountryEntity(name: Option<string>, alpha2Code: Option<string>, alpha3Code: Option<string>)

  /** `AddressEntity`, with the same caveat about null strings. */
  datatype AddressEntity = AddressEntity(
    streetName: Option<string>,
    streetNumber: Option<string>,
    postalCode: Option<string>,
    cityName: Option<string>,
    country: Option<CountryEntity>)

  /** The fields of a `UserEntity` at one moment. */
  datatype UserValue = UserValue(
    id: Guid,
    gender: GenderType,
    firstName: string,
    lastName: string,
    email: string,
    telephone: string,
    homePage: Option<string>,
    homeAddress: Option<AddressEntity>,
    workAddress: Option<AddressEntity>)

  /** `UserEntity`, a tracked object whose fields the handler assigns. Its
      key never changes. */
  class UserEntity {
    const id: Guid
    var gender: GenderType
    var firstName: string
    var lastName: string
    var email: string
    var telephone: string
    var homePage: Option<string>
    var homeAddress: Option<AddressEntity>
    var workAddress: Option<AddressEntity>

    constructor(v: UserValue)
      ensures Value() == v
    {
      id := v.id;
      gender := v.gender;
      firstName := v.firstName;
      lastName := v.lastName;
      email := v.email;
      telephone := v.telephone;
      homePage := v.homePage;
      homeAddress := v.homeAddress;
      workAddress := v.workAddress;
    }

    function Value(): UserValue
      reads this
    {
      UserValue(id, gender, firstName, lastName, email, telephone, homePage, homeAddress, workAddress)
    }
  }

  /** The users' values by key. */
  function Snapshot(users: map<Guid, UserEntity>): (m: map<Guid, UserValue>)
    reads users.Values
    ensures m.Keys == users.Keys
  {
    map id | id in users :: users[id].Value()
  }

  /** What the database guarantees: each entity is stored under its own key,
      so no two keys share an object. */
  ghost predicate StoreValid(users: map<Guid, UserEntity>) {
    forall id | id in users :: users[id].id == id
  }

  // ---------------------------------------------------------------------
  // Comparing and mapping
  // ---------------------------------------------------------------------

  /** `IsCountryModified`: two nulls are the same, one null differs, and two
      countries differ when any of their strings differs ordinally. */
  predicate IsCountryModified(request: Option<Country>, entity: Option<CountryEntity>) {
    if request.None? && entity.None? then false
    else if request.None? || entity.None? then true
    else
      request.value.name != entity.value.name ||
      request.value.alpha2Code != entity.value.alpha2Code ||
      request.value.alpha3Code != entity.value.alpha3Code
  }

  /** `IsAddressModified`: as for countries, with the country compared too. */
  predicate IsAddressModified(request: Option<Address>, entity: Option<AddressEntity>) {
    if request.None? && entity.None? then false
    else if request.None? || entity.None? then true
    else
      request.value.streetName != entity.value.streetName ||
      request.value.streetNumber != entity.value.streetNumber ||
      request.value.postalCode != entity.value.postalCode ||
      request.value.cityName != entity.value.cityName ||
      IsCountryModified(request.value.country, entity.value.country)
  }

  /** `IsModified`: a request differs from the stored user when its first
      name, last name, gender, email (ordinally, so case counts) or work
      address does. */
  predicate IsModified(request: UpdateUserRequest, user: UserValue) {
    request.firstName != user.firstName ||
    request.lastName != user.lastName ||
    request.gender != user.gender ||
    request.email != user.email ||
    IsAddressModified(request.workAddress, user.workAddress)
  }

  /** `MapCountry`: null stays null, otherwise every field is copied. */
  function MapCountry(country: Option<Country>): (r: Option<CountryEntity>)
    ensures r.None? <==> country.None?
  {
    match country
    case None => None
    case Some(c) => Some(CountryEntity(c.name, c.alpha2Code, c.alpha3Code))
  }

  /** `MapAddress`: null stays null, otherwise every field is copied and the
      country mapped. */
  function MapAddress(address: Option<Address>): (r: Option<AddressEntity>)
    ensures r.None? <==> address.None?
  {
    match address
    case None => None
    case Some(a) =>
      Some(AddressEntity(a.streetName, a.streetNumber, a.postalCode, a.cityName, MapCountry(a.country)))
  }

  /** The user after the assignments of `ExecuteAsync`: the request's
      first name, last name, gender, email and mapped work address. */
  function Updated(user: UserValue, request: UpdateUserRequest): UserValue {
    user.(firstName := request.firstName, lastName := request.lastName, gender := request.gender,
          email := request.email, workAddress := MapAddress(request.workAddress))
  }

  // ---------------------------------------------------------------------
  // The email check
  // ---------------------------------------------------------------------

  /** `char.ToUpperInvariant` on the ASCII letters; other characters are kept. */
  function ToUpperAscii(c: char): char {
    if 'a' <= c <= 'z' then (c as int - 32) as char else c
  }

  /** `a.Equals(b, StringComparison.OrdinalIgnoreCase)`, with ASCII case folding. */
  predicate EqualsIgnoreCase(a: string, b: string) {
    |a| == |b| && forall i :: 0 <= i < |a| ==> ToUpperAscii(a[i]) == ToUpperAscii(b[i])
  }

  /** The `FirstOrDefaultAsync` query found a user: another user has the
      email, ignoring case. */
  predicate EmailTaken(users: map<Guid, UserValue>, userId: Guid, email: string) {
    exists id | id in users :: id != userId && EqualsIgnoreCase(users[id].email, email)
  }

  function ConflictMessage(email: string): string {
    "A user already exists with the email '" + email + "'"
  }

  const CouldNotUpdate: string := "Could not update user."

  // ---------------------------------------------------------------------
  // The handler
  // ---------------------------------------------------------------------

  /** `Results<Ok<User>, BadRequest<string>, NotFound, Conflict<string>>`;
      `Ok` carries the entity that `Adapt<User>` maps. */
  datatype UpdateResult = Ok(user: UserValue) | BadRequest(message: string) | NotFound | Conflict(message: string)

  /** What `ExecuteAsync` answers and what the tracked users hold afterwards,
      given the count `SaveChangesAsync` reports. */
  function Execute(users: map<Guid, UserValue>, parameters: UpdateUserByIdParameters, saved: int)
    : (UpdateResult, map<Guid, UserValue>)
  {
    var userId, request := parameters.userId, parameters.request;
    if userId !in users then (NotFound, users)
    else if EmailTaken(users, userId, request.email) then (Conflict(ConflictMessage(request.email)), users)
    else if !IsModified(request, users[userId]) then (Ok(users[userId]), users)
    else
      var user := Updated(users[userId], request);
      (if saved > 0 then Ok(user) else BadRequest(CouldNotUpdate), users[userId := user])
  }

  /** `ExecuteAsync`, with the database's answer to `SaveChangesAsync` given. */
  method ExecuteAsync(users: map<Guid, UserEntity>, parameters: UpdateUserByIdParameters, saveChangesResult: int)
    returns (r: UpdateResult)
    requires StoreValid(users)
    modifies if parameters.userId in users then {users[parameters.userId]} else {}
    ensures StoreValid(users)
    ensures (r, Snapshot(users)) == Execute(old(Snapshot(users)), parameters, saveChangesResult)
  {
    if parameters.userId !in users {
      return NotFound;
    }
    var user := users[parameters.userId];
    var request := parameters.request;
    if EmailTaken(Snapshot(users), parameters.userId, request.email) {
      return Conflict(ConflictMessage(request.email));
    }
    if !IsModified(request, user.Value()) {
      return Ok(user.Value());
    }
    ghost var before := Snapshot(users);
    user.firstName := request.firstName;
    user.lastName := request.lastName;
    user.gender := request.gender;
    user.email := request.email;
    user.workAddress := MapAddress(request.workAddress);
    assert user.Value() == Updated(before[parameters.userId], request);
    forall id | id in users
      ensures Snapshot(users)[id] == before[parameters.userId := user.Value()][id]
    {
      if id != parameters.userId {
        assert users[id].id == id;
      }
    }
    assert Snapshot(users) == before[parameters.userId := user.Value()];
    if saveChangesResult > 0 {
      return Ok(user.Value());
    }
    return BadRequest(CouldNotUpdate);
  }

  // ---------------------------------------------------------------------
  // What the handler promises
  // ---------------------------------------------------------------------

  /** A country differs from an entity exactly when mapping it does not
      give that entity. */
  lemma CountryModifiedIffMapDiffers(request: Option<Country>, entity: Option<CountryEntity>)
    ensures IsCountryModified(request, entity) <==> MapCountry(request) != entity
  {
  }

  /** An address differs from an entity exactly when mapping it does not
      give that entity. */
  lemma AddressModifiedIffMapDiffers(request: Option<Address>, entity: Option<AddressEntity>)
    ensures IsAddressModified(request, entity) <==> MapAddress(request) != entity
  {
    if request.Some? && entity.Some? {
      CountryModifiedIffMapDiffers(request.value.country, entity.value.country);
    }
  }

  /** Null against null is unchanged; null against a value is a change. */
  lemma NullAddresses(a: Address, e: AddressEntity, c: Country, ce: CountryEntity)
    ensures !IsAddressModified(None, None) && IsAddressModified(Some(a), None) && IsAddressModified(None, Some(e))
    ensures !IsCountryModified(None, None) && IsCountryModified(Some(c), None) && IsCountryModified(None, Some(ce))
  {
  }

  /** A mapped address never counts as modified against its source. */
  lemma AddressRoundTrip(a: Option<Address>)
    ensures !IsAddressModified(a, MapAddress(a))
  {
    AddressModifiedIffMapDiffers(a, MapAddress(a));
  }

  /** A request is modified exactly when applying it changes the user. */
  lemma ModifiedIffUpdateChanges(request: UpdateUserRequest, user: UserValue)
    ensures IsModified(request, user) <==> Updated(user, request) != user
  {
    AddressModifiedIffMapDiffers(request.workAddress, user.workAddress);
  }

  /** An email that differs only in case is a modification. */
  lemma EmailCaseChangeIsModified(request: UpdateUserRequest, user: UserValue)
    requires request.email != user.email && EqualsIgnoreCase(request.email, user.email)
    ensures IsModified(request, user)
  {
  }

  /** The conflict message quotes the requested email. */
  lemma ConflictMessageContainsEmail(email: string)
    ensures Contains(ConflictMessage(email), email)
  {
    var prefix := "A user already exists with the email '";
    assert ConflictMessage(email)[|prefix|..|prefix| + |email|] == email;
    assert OccursAt(ConflictMessage(email), email, |prefix|);
  }

  /** The checks come in order: an unknown user is not found, whatever the
      request; then a taken email is a conflict, even for a request that
      changes nothing; then an unchanged request is answered with the stored
      user. None of these changes any user. */
  lemma ExecuteCheckOrder(users: map<Guid, UserValue>, parameters: UpdateUserByIdParameters, saved: int)
    ensures parameters.userId !in users ==> Execute(users, parameters, saved) == (NotFound, users)
    ensures parameters.userId in users && EmailTaken(users, parameters.userId, parameters.request.email) ==>
      Execute(users, parameters, saved) == (Conflict(ConflictMessage(parameters.request.email)), users)
    ensures (parameters.userId in users && !EmailTaken(users, parameters.userId, parameters.request.email) &&
             !IsModified(parameters.request, users[parameters.userId])) ==>
      Execute(users, parameters, saved) == (Ok(users[parameters.userId]), users)
  {
  }

  /** An update writes only the user's first name, last name, gender, email
      and work address; its key, telephone, home page and home address, and
      every other user, are untouched. The users change exactly when the
      request is found, free of conflict, and modifying. */
  lemma ExecuteFrame(users: map<Guid, UserValue>, parameters: UpdateUserByIdParameters, saved: int)
    ensures var after := Execute(users, parameters, saved).1;
      after.Keys == users.Keys &&
      (forall id | id in users && id != parameters.userId :: after[id] == users[id]) &&
      (parameters.userId in users ==>
        var u, v := users[parameters.userId], after[parameters.userId];
        v.id == u.id && v.telephone == u.telephone && v.homePage == u.homePage && v.homeAddress == u.homeAddress)
    ensures (Execute(users, parameters, saved).1 != users) <==>
      parameters.userId in users && !EmailTaken(users, parameters.userId, parameters.request.email) &&
      IsModified(parameters.request, users[parameters.userId])
  {
    if parameters.userId in users {
      var u := users[parameters.userId];
      ModifiedIffUpdateChanges(parameters.request, u);
      if Updated(u, parameters.request) != u {
        assert users[parameters.userId := Updated(u, parameters.request)][parameters.userId] != users[parameters.userId];
      }
    }
  }

  /** An update that reaches the save answers `Ok` with the updated user
      when something was saved, and the fixed bad request otherwise. */
  lemma ExecuteSave(users: map<Guid, UserValue>, parameters: UpdateUserByIdParameters, saved: int)
    requires parameters.userId in users && !EmailTaken(users, parameters.userId, parameters.request.email)
    requires IsModified(parameters.request, users[parameters.userId])
    ensures var user := Updated(users[parameters.userId], parameters.request);
      Execute(users, parameters, saved).0 == if saved > 0 then Ok(user) else BadRequest(CouldNotUpdate)
  {
  }

  /** Sending the same request again after it was handled changes nothing
      more: the second call answers `Ok` with the user as it is, without
      saving. */
  lemma ExecuteIdempotent(users: map<Guid, UserValue>, parameters: UpdateUserByIdParameters, saved: int, saved': int)
    requires Execute(users, parameters, saved).0.Ok?
    ensures var after := Execute(users, parameters, saved).1;
      Execute(after, parameters, saved') == (Ok(after[parameters.userId]), after)
  {
    var userId, request := parameters.userId, parameters.request;
    var after := Execute(users, parameters, saved).1;
    assert userId in users;
    assert !EmailTaken(users, userId, request.email);
    assert !EmailTaken(after, userId, request.email) by {
      forall id | id in after && id != userId ensures !EqualsIgnoreCase(after[id].email, request.email) {
        assert after[id] == users[id];
      }
    }
    ModifiedIffUpdateChanges(request, after[userId]);
    if IsModified(request, users[userId]) {
      var u := Updated(users[userId], request);
      assert Updated(u, request) == u;
    }
  }

  /** Ordinal equality implies equality ignoring case, and the converse
      fails: `A` and `a` are equal ignoring case only. */
  lemma IgnoreCaseWeakerThanOrdinal(a: string)
    ensures EqualsIgnoreCase(a, a)
    ensures EqualsIgnoreCase("A", "a") && "A" != "a"
  {
  }
}
