/**
 * `UserSerializer` (declared fields, the password constraints, `validate`,
 * `create`, `update`) and the claim mapping of `MyTokenObtainPairSerializer`.
 */
module AccountSerializers {
  import opened Wrappers
  import opened Models
  import opened Text

  /** `UserSerializer.Meta.fields`, in declaration order. */
  const UserFields: seq<string> :=
    ["id", "email", "password", "first_name", "last_name", "company", "branch",
     "image", "is_creator", "is_active", "is_staff", "managers"]

  /** The serializer's `extra_kwargs` for the password: write-only, at least five characters. */
  const WriteOnlyFields: seq<string> := ["password"]
  const PasswordMinLength: nat := 5

  /** The fields of `fields` that are not write-only, in their given order. */
  function Readable(fields: seq<string>): (r: seq<string>)
    ensures forall f :: f in r <==> f in fields && f !in WriteOnlyFields
  {
    if fields == [] then []
    else if fields[0] in WriteOnlyFields then Readable(fields[1..])
    else [fields[0]] + Readable(fields[1..])
  }

  /**
   * The field names a rendered user carries: the declared list with the
   * password taken out and the rest in declaration order, which are the
   * components of `UserView` below.
   */
  lemma RenderedFieldsOmitPassword()
    ensures Readable(UserFields) == UserFields[..2] + UserFields[3..]
    ensures "password" !in Readable(UserFields)
  {
    var front, rest := UserFields[..2], UserFields[3..];
    forall i | 0 <= i < |front| ensures front[i] !in WriteOnlyFields {
      assert front[i][0] != WriteOnlyFields[0][0];
    }
    forall i | 0 <= i < |rest| ensures rest[i] !in WriteOnlyFields {
      assert rest[i][0] != WriteOnlyFields[0][0];
    }
    assert UserFields[2] in WriteOnlyFields;
    assert UserFields == front + [UserFields[2]] + rest;
    ReadableSkipsWriteOnly(front, UserFields[2], rest);
  }

  /** Between lists with no write-only field, one write-only field is dropped and the rest kept in order. */
  lemma {:induction false} ReadableSkipsWriteOnly(front: seq<string>, x: string, rest: seq<string>)
    requires forall i :: 0 <= i < |front| ==> front[i] !in WriteOnlyFields
    requires x in WriteOnlyFields
    requires forall i :: 0 <= i < |rest| ==> rest[i] !in WriteOnlyFields
    ensures Readable(front + [x] + rest) == front + rest
  {
    if front == [] {
      assert front + [x] + rest == [x] + rest;
      ReadableKeepsAll(rest);
    } else {
      assert (front + [x] + rest)[1..] == front[1..] + [x] + rest;
      ReadableSkipsWriteOnly(front[1..], x, rest);
    }
  }

  /** A list with no write-only field is rendered whole. */
  lemma {:induction false} ReadableKeepsAll(fields: seq<string>)
    requires forall i :: 0 <= i < |fields| ==> fields[i] !in WriteOnlyFields
    ensures Readable(fields) == fields
  {
    if fields != [] {
      ReadableKeepsAll(fields[1..]);
    }
  }

  /** A user as `UserSerializer` renders it: the readable fields, `managers` as their ids. */
  datatype UserView = UserView(
    id: nat,
    email: string,
    firstName: string,
    lastName: string,
    company: Option<string>,
    branch: Option<string>,
    image: Option<string>,
    isCreator: bool,
    isActive: bool,
    isStaff: bool,
    managers: set<nat>)

  /** The rendering of user `id` with its stored row `u` and the ids of its managers. */
  function Serialize(id: nat, u: User, managerIds: set<nat>): (v: UserView)
    ensures v.id == id && v.email == u.email && v.managers == managerIds
    ensures v.firstName == u.firstName && v.lastName == u.lastName
    ensures v.company == u.company && v.branch == u.branch && v.image == u.image
    ensures v.isCreator == u.isCreator && v.isActive == u.isActive && v.isStaff == u.isStaff
  {
    UserView(id, u.email, u.firstName, u.lastName, u.company, u.branch, u.image,
             u.isCreator, u.isActive, u.isStaff, managerIds)
  }

  /** The writable fields a client may send; an absent key is `None`. */
  datatype UserAttrs = UserAttrs(
    email: Option<string>,
    password: Option<string>,
    firstName: Option<string>,
    lastName: Option<string>,
    company: Option<string>,
    branch: Option<string>,
    image: Option<string>,
    isCreator: Option<bool>,
    isActive: Option<bool>,
    isStaff: Option<bool>,
    managers: Option<seq<nat>>)

  /** The requesting user: an anonymous visitor or an authenticated account. */
  datatype Principal = Anonymous | Authenticated(user: User)

  datatype ValidationFailure =
    | FieldErrors(fields: set<Field>)  // declared field constraints, all reported together
    | OnlyCreators                     // 'Only creators can assign managers.'
    | NoCreatorAttribute               // the anonymous user has no `is_creator` attribute

  /** `trim_whitespace`, on by default for every string field: the value is stripped before it is checked or saved. */
  function StripField(v: Option<string>): (r: Option<string>)
    ensures r.None? <==> v.None?
    ensures v.Some? ==> r.value == Strip(v.value)
  {
    match v
    case None => None
    case Some(s) => Some(Strip(s))
  }

  /** The data after each string field was stripped; flags, images and manager ids are kept. */
  function Cleaned(attrs: UserAttrs): (c: UserAttrs)
    ensures c.email == StripField(attrs.email) && c.password == StripField(attrs.password)
    ensures c.firstName == StripField(attrs.firstName) && c.lastName == StripField(attrs.lastName)
    ensures c.company == StripField(attrs.company) && c.branch == StripField(attrs.branch)
    ensures c.image == attrs.image && c.managers == attrs.managers
    ensures c.isCreator == attrs.isCreator && c.isActive == attrs.isActive && c.isStaff == attrs.isStaff
  {
    attrs.(email := StripField(attrs.email), password := StripField(attrs.password),
           firstName := StripField(attrs.firstName), lastName := StripField(attrs.lastName),
           company := StripField(attrs.company), branch := StripField(attrs.branch))
  }

  /**
   * A string field built from a model column without `blank=True`, given
   * its value after stripping: an absent key fails when the field is
   * required, an empty value always fails, and a shorter value than
   * `minLength` fails.
   */
  predicate CharFieldFails(v: Option<string>, required: bool, minLength: nat) {
    if v.None? then required else v.value == [] || |v.value| < minLength
  }

  /**
   * The writable fields that carry checks of their own: `email`,
   * `password`, `first_name`, `last_name`, `company`, `branch`, `managers`.
   */
  datatype Field = Email | Password | FirstName | LastName | Company | Branch | Managers

  predicate UnknownManager(store: Store, attrs: UserAttrs)
    reads store
  {
    attrs.managers.Some? && exists i :: 0 <= i < |attrs.managers.value| && attrs.managers.value[i] !in store.users
  }

  /** The email is stored, as given, on a user other than the one being updated. */
  predicate EmailTaken(store: Store, instance: Option<nat>, attrs: UserAttrs)
    reads store
  {
    attrs.email.Some? &&
    exists o :: o in store.users && Some(o) != instance && store.users[o].email == attrs.email.value
  }

  /**
   * The field validation that runs before `validate`, on the data after
   * stripping (see `Cleaned`). Email, first name,
   * last name and password come from columns with neither a default nor
   * `null=True`, so on create (no `instance`) each must be present; company
   * and branch are nullable and optional. No string field may be blank,
   * the password needs five characters, every listed manager id must name
   * a user, and the email must not be another user's (compared exactly,
   * before normalization).
   */
  function FieldValidation(store: Store, instance: Option<nat>, attrs: UserAttrs): (bad: set<Field>)
    reads store
    ensures Email in bad <==>
      CharFieldFails(attrs.email, instance.None?, 0) || EmailTaken(store, instance, attrs)
    ensures Password in bad <==> CharFieldFails(attrs.password, instance.None?, PasswordMinLength)
    ensures FirstName in bad <==> CharFieldFails(attrs.firstName, instance.None?, 0)
    ensures LastName in bad <==> CharFieldFails(attrs.lastName, instance.None?, 0)
    ensures Company in bad <==> CharFieldFails(attrs.company, false, 0)
    ensures Branch in bad <==> CharFieldFails(attrs.branch, false, 0)
    ensures Managers in bad <==> UnknownManager(store, attrs)
  {
    var bad := set f | f in CheckedFields && FieldFails(store, instance, attrs, f);
    assert Email in CheckedFields && Password in CheckedFields && FirstName in CheckedFields && LastName in CheckedFields;
    assert Company in CheckedFields && Branch in CheckedFields && Managers in CheckedFields;
    bad
  }

  const CheckedFields: set<Field> := {Email, Password, FirstName, LastName, Company, Branch, Managers}

  /** Whether the checks of field `f` fail on `attrs`. */
  predicate FieldFails(store: Store, instance: Option<nat>, attrs: UserAttrs, f: Field)
    reads store
  {
    match f
    case Email => CharFieldFails(attrs.email, instance.None?, 0) || EmailTaken(store, instance, attrs)
    case Password => CharFieldFails(attrs.password, instance.None?, PasswordMinLength)
    case FirstName => CharFieldFails(attrs.firstName, instance.None?, 0)
    case LastName => CharFieldFails(attrs.lastName, instance.None?, 0)
    case Company => CharFieldFails(attrs.company, false, 0)
    case Branch => CharFieldFails(attrs.branch, false, 0)
    case Managers => UnknownManager(store, attrs)
  }

  /** On create, each of the four required keys that is absent is reported. */
  lemma MissingRequiredFieldsReported(store: Store, attrs: UserAttrs)
    ensures attrs.email.None? ==> Email in FieldValidation(store, None, Cleaned(attrs))
    ensures attrs.password.None? ==> Password in FieldValidation(store, None, Cleaned(attrs))
    ensures attrs.firstName.None? ==> FirstName in FieldValidation(store, None, Cleaned(attrs))
    ensures attrs.lastName.None? ==> LastName in FieldValidation(store, None, Cleaned(attrs))
  {
  }

  /** A value made only of whitespace, the empty string included, is refused as blank. */
  lemma WhitespaceValueRefused(v: string, required: bool, minLength: nat)
    requires forall k :: 0 <= k < |v| ==> IsSpace(v[k])
    ensures CharFieldFails(StripField(Some(v)), required, minLength)
  {
    StripEmptyIff(v);
  }

  /**
   * `UserSerializer.validate` as written: it reads `is_creator` on the
   * request's user, which an anonymous user does not have, and refuses a
   * `managers` key from a non-creator. Otherwise it returns `attrs`.
   */
  function ValidateAsWritten(p: Principal, attrs: UserAttrs): (r: Result<UserAttrs, ValidationFailure>)
    ensures p.Anonymous? ==> r == Failure(NoCreatorAttribute)
    ensures p.Authenticated? ==> (r.Failure? <==> !p.user.isCreator && attrs.managers.Some?)
    ensures p.Authenticated? && r.Failure? ==> r.error == OnlyCreators
    ensures r.Success? ==> r.value == attrs
  {
    match p
    case Anonymous => Failure(NoCreatorAttribute)
    case Authenticated(u) =>
      if !u.isCreator && attrs.managers.Some? then Failure(OnlyCreators) else Success(attrs)
  }

  /** `validate` with an anonymous requester treated as a non-creator. */
  function Validate(p: Principal, attrs: UserAttrs): (r: Result<UserAttrs, ValidationFailure>)
    ensures r.Failure? <==> attrs.managers.Some? && (p.Anonymous? || !p.user.isCreator)
    ensures r.Failure? ==> r.error == OnlyCreators
    ensures r.Success? ==> r.value == attrs
  {
    if attrs.managers.Some? && (p.Anonymous? || !p.user.isCreator) then Failure(OnlyCreators)
    else Success(attrs)
  }

  /** The two agree on every authenticated request. */
  lemma ValidateAgreesWhenAuthenticated(u: User, attrs: UserAttrs)
    ensures ValidateAsWritten(Authenticated(u), attrs) == Validate(Authenticated(u), attrs)
  {
  }

  /** An anonymous sign-up without managers is refused as written and accepted as intended. */
  lemma AnonymousSignUpRefused(attrs: UserAttrs)
    requires attrs.managers.None?
    ensures ValidateAsWritten(Anonymous, attrs).Failure?
    ensures Validate(Anonymous, attrs) == Success(attrs)
  {
  }

  /**
   * `is_valid` as written: every string field stripped, field validation
   * next, then `validate` as written, which fails on every anonymous
   * request whose fields passed.
   */
  function IsValidAsWritten(store: Store, p: Principal, instance: Option<nat>, attrs: UserAttrs): (r: Result<UserAttrs, ValidationFailure>)
    reads store
    ensures var bad := FieldValidation(store, instance, Cleaned(attrs));
      && (bad != {} ==> r == Failure(FieldErrors(bad)))
      && (bad == {} ==> r == ValidateAsWritten(p, Cleaned(attrs)))
    ensures p.Anonymous? ==> r.Failure?
  {
    var clean := Cleaned(attrs);
    var bad := FieldValidation(store, instance, clean);
    if bad != {} then Failure(FieldErrors(bad)) else ValidateAsWritten(p, clean)
  }

  /** The two pipelines agree on every authenticated request; they differ only for anonymous ones. */
  lemma IsValidVersionsAgreeWhenAuthenticated(store: Store, u: User, instance: Option<nat>, attrs: UserAttrs)
    ensures IsValidAsWritten(store, Authenticated(u), instance, attrs) == IsValid(store, Authenticated(u), instance, attrs)
  {
    ValidateAgreesWhenAuthenticated(u, Cleaned(attrs));
  }

  /**
   * `is_valid` with the corrected `validate`: every string field stripped,
   * field validation next; `validate` only when every field passed.
   */
  function IsValid(store: Store, p: Principal, instance: Option<nat>, attrs: UserAttrs): (r: Result<UserAttrs, ValidationFailure>)
    reads store
    ensures var bad := FieldValidation(store, instance, Cleaned(attrs));
      && (r.Success? ==> r.value == Cleaned(attrs) && bad == {})
      && (bad != {} ==> r == Failure(FieldErrors(bad)))
      && (bad == {} ==> r == Validate(p, Cleaned(attrs)))
  {
    var clean := Cleaned(attrs);
    var bad := FieldValidation(store, instance, clean);
    if bad != {} then Failure(FieldErrors(bad)) else Validate(p, clean)
  }

  /**
   * Data that passed validation on create meets what `create` and
   * `create_user` rely on: email, names and password are present and not
   * blank, the password has five characters and every manager id is a user.
   */
  lemma ValidCreateData(store: Store, p: Principal, attrs: UserAttrs)
    requires IsValid(store, p, None, attrs).Success?
    ensures var v := IsValid(store, p, None, attrs).value;
      && v.email.Some? && v.email.value != []
      && v.firstName.Some? && v.firstName.value != [] && v.lastName.Some? && v.lastName.value != []
      && v.password.Some? && |v.password.value| >= PasswordMinLength
      && !UnknownManager(store, v)
  {
    var bad := FieldValidation(store, None, Cleaned(attrs));
    assert Email !in bad && Password !in bad && FirstName !in bad && LastName !in bad;
  }

  /** A non-creator that sends `managers` is always refused. */
  lemma NonCreatorCannotSendManagers(store: Store, u: User, instance: Option<nat>, attrs: UserAttrs)
    requires !u.isCreator && attrs.managers.Some?
    ensures IsValid(store, Authenticated(u), instance, attrs).Failure?
  {
  }

  /** The extra keyword arguments `create` forwards to `create_user`. */
  function ExtraOf(attrs: UserAttrs): (e: ExtraFields)
    ensures e.company == attrs.company && e.image == attrs.image
    ensures e.isCreator == attrs.isCreator && e.isActive == attrs.isActive && e.isStaff == attrs.isStaff
    ensures e.isSuperuser.None?
  {
    ExtraFields(attrs.company, attrs.image, attrs.isCreator, attrs.isActive, attrs.isStaff, None)
  }

  /** The edges from `u` to each id of `ids`. */
  function EdgesFrom(u: nat, ids: seq<nat>): (r: set<(nat, nat)>)
    ensures forall e :: e in r <==> e.0 == u && e.1 in ids
  {
    set m | m in ids :: (u, m)
  }

  /**
   * The loop `for manager in managers_data: user.assign_manager(manager)`:
   * adds the edge from `u` to every listed id when `u` is a creator, and
   * nothing otherwise.
   */
  method AssignManagers(store: Store, u: nat, list: seq<nat>)
    requires store.Valid() && u in store.users
    requires forall i :: 0 <= i < |list| ==> list[i] in store.users
    modifies store`managers
    ensures store.Valid()
    ensures store.managers == old(store.managers) + (if store.users[u].isCreator then EdgesFrom(u, list) else {})
  {
    var i := 0;
    while i < |list|
      invariant 0 <= i <= |list|
      invariant store.Valid()
      invariant store.managers == old(store.managers) + (if store.users[u].isCreator then EdgesFrom(u, list[..i]) else {})
    {
      assert list[..i + 1] == list[..i] + [list[i]];
      store.AssignManager(u, list[i]);
      i := i + 1;
    }
    assert list[..i] == list;
  }

  /**
   * `UserSerializer.create`: `managers` is taken out, the user is built by
   * `create_user` from the remaining fields, then each listed manager is
   * passed to `assign_manager`, which adds edges only if the NEW user is a
   * creator.
   */
  method Create(store: Store, attrs: UserAttrs) returns (r: Result<nat, CreateError>)
    requires store.Valid()
    requires attrs.email.Some? && attrs.firstName.Some? && attrs.lastName.Some?
    requires !UnknownManager(store, attrs)
    modifies store
    ensures store.Valid()
    ensures r.Failure? <==> attrs.email.value == [] || NormalizeEmail(attrs.email.value) in old(store.Emails())
    ensures r.Failure? ==> unchanged(store)
    ensures r.Success? ==>
      var id := r.value;
      var u := NewUser(NormalizeEmail(attrs.email.value), attrs.firstName.value, attrs.lastName.value,
                       attrs.branch, attrs.password, ExtraOf(attrs));
      && id == old(store.nextUserId) && id !in old(store.users)
      && store.users == old(store.users)[id := u]
      && store.managers == old(store.managers) + (if u.isCreator then EdgesFrom(id, attrs.managers.GetOr([])) else {})
      && store.ManagersOf(id) == (if u.isCreator then set m | m in attrs.managers.GetOr([]) else {})
      && store.registers == old(store.registers)
      && store.nextUserId == id + 1 && store.nextRegisterId == old(store.nextRegisterId)
  {
    var created := store.CreateUser(attrs.email.value, attrs.firstName.value, attrs.lastName.value,
                                    attrs.branch, attrs.password, ExtraOf(attrs));
    if created.Failure? {
      return created;
    }
    AssignManagers(store, created.value, attrs.managers.GetOr([]));
    r := created;
  }

  /**
   * The row after `update`'s plain field updates: every field present in
   * `attrs` overwrites the stored one (`managers` and `password` excepted),
   * then the password is replaced only when a non-empty one was sent.
   */
  function UpdatedUser(u: User, attrs: UserAttrs): (v: User)
    ensures v.email == attrs.email.GetOr(u.email)
    ensures v.firstName == attrs.firstName.GetOr(u.firstName) && v.lastName == attrs.lastName.GetOr(u.lastName)
    ensures v.company == (if attrs.company.Some? then attrs.company else u.company)
    ensures v.branch == (if attrs.branch.Some? then attrs.branch else u.branch)
    ensures v.image == (if attrs.image.Some? then attrs.image else u.image)
    ensures v.isCreator == attrs.isCreator.GetOr(u.isCreator)
    ensures v.isActive == attrs.isActive.GetOr(u.isActive) && v.isStaff == attrs.isStaff.GetOr(u.isStaff)
    ensures v.isSuperuser == u.isSuperuser
    ensures v.password == if attrs.password.Some? && attrs.password.value != "" then attrs.password else u.password
  {
    var plain := PlainUpdate(u, attrs);
    if attrs.password.Some? && attrs.password.value != "" then plain.(password := attrs.password) else plain
  }

  /** `ModelSerializer.update`: `setattr` for each field sent; no normalization of the email. */
  function PlainUpdate(u: User, attrs: UserAttrs): User {
    u.(email := attrs.email.GetOr(u.email),
       firstName := attrs.firstName.GetOr(u.firstName),
       lastName := attrs.lastName.GetOr(u.lastName),
       company := if attrs.company.Some? then attrs.company else u.company,
       branch := if attrs.branch.Some? then attrs.branch else u.branch,
       image := if attrs.image.Some? then attrs.image else u.image,
       isCreator := attrs.isCreator.GetOr(u.isCreator),
       isActive := attrs.isActive.GetOr(u.isActive),
       isStaff := attrs.isStaff.GetOr(u.isStaff))
  }

  /**
   * `user.managers.clear()` followed by the `assign_manager` loop: the
   * edges leaving `u` become exactly the listed ids when `u` is a creator
   * and none otherwise; every other user's managers are kept.
   */
  method ReplaceManagers(store: Store, u: nat, list: seq<nat>)
    requires store.Valid() && u in store.users
    requires forall i :: 0 <= i < |list| ==> list[i] in store.users
    modifies store`managers
    ensures store.Valid()
    ensures store.managers == (set e | e in old(store.managers) && e.0 != u) +
                              (if store.users[u].isCreator then EdgesFrom(u, list) else {})
    ensures store.ManagersOf(u) == if store.users[u].isCreator then set m | m in list else {}
    ensures forall c :: c != u ==> store.ManagersOf(c) == old(store.ManagersOf(c))
  {
    store.ClearManagers(u);
    AssignManagers(store, u, list);
  }

  /**
   * `UserSerializer.update`: plain field update, a new password only when
   * a non-empty one is sent, and, when `managers` is sent, the edges leaving
   * the user cleared and re-added through `assign_manager`, so that they
   * end up as the listed ids for a creator and empty for anyone else.
   * Without `managers`, the edge set is untouched.
   */
  method Update(store: Store, id: nat, attrs: UserAttrs)
    requires store.Valid() && id in store.users
    requires !EmailTaken(store, Some(id), attrs)
    requires !UnknownManager(store, attrs)
    modifies store
    ensures store.Valid()
    ensures store.users == old(store.users)[id := UpdatedUser(old(store.users[id]), attrs)]
    ensures store.registers == old(store.registers)
    ensures store.nextUserId == old(store.nextUserId) && store.nextRegisterId == old(store.nextRegisterId)
    ensures attrs.managers.None? ==> store.managers == old(store.managers)
    ensures attrs.managers.Some? ==>
      store.managers == (set e | e in old(store.managers) && e.0 != id) +
                        (if store.users[id].isCreator then EdgesFrom(id, attrs.managers.value) else {})
    ensures attrs.managers.Some? ==>
      store.ManagersOf(id) == if store.users[id].isCreator then set m | m in attrs.managers.value else {}
    ensures forall c :: c != id ==> store.ManagersOf(c) == old(store.ManagersOf(c))
  {
    var plain := PlainUpdate(store.users[id], attrs);
    store.SaveUser(id, plain);
    if attrs.password.Some? && attrs.password.value != "" {
      store.SaveUser(id, plain.(password := attrs.password));
    }
    if attrs.managers.Some? {
      ReplaceManagers(store, id, attrs.managers.value);
    }
  }

  /** The claims `get_token` adds to the token. */
  datatype Claims = Claims(
    email: string,
    firstName: string,
    lastName: string,
    isStaff: bool,
    branch: Option<string>,
    isCreator: bool,
    image: string,
    id: nat,
    managers: set<nat>)

  /** `str()` of an image field: the stored name, or the empty string when there is none. */
  function ImageName(image: Option<string>): (s: string)
    ensures image.Some? ==> s == image.value
    ensures image.None? ==> s == ""
  {
    image.GetOr("")
  }

  /** `get_token` as written: the `last_name` claim is filled from the first name. */
  function GetTokenAsWritten(id: nat, u: User, managerIds: set<nat>): (c: Claims)
    ensures c.lastName == u.firstName
  {
    Claims(u.email, u.firstName, u.firstName, u.isStaff, u.branch, u.isCreator, ImageName(u.image), id, managerIds)
  }

  /** `get_token` with the `last_name` claim filled from the last name. */
  function GetToken(id: nat, u: User, managerIds: set<nat>): (c: Claims)
    ensures c.lastName == u.lastName
  {
    Claims(u.email, u.firstName, u.lastName, u.isStaff, u.branch, u.isCreator, ImageName(u.image), id, managerIds)
  }

  /** Every claim agrees with the same user's rendering by `UserSerializer`. */
  lemma ClaimsAgreeWithUserView(id: nat, u: User, managerIds: set<nat>)
    ensures var c, v := GetToken(id, u, managerIds), Serialize(id, u, managerIds);
      && c.id == v.id && c.email == v.email && c.firstName == v.firstName && c.lastName == v.lastName
      && c.isStaff == v.isStaff && c.branch == v.branch && c.isCreator == v.isCreator
      && c.image == ImageName(v.image) && c.managers == v.managers
  {
  }

  /** As written, a user whose names differ gets a `last_name` claim that is not their last name. */
  lemma LastNameClaimIsWrong(id: nat, u: User, managerIds: set<nat>)
    requires u.firstName != u.lastName
    ensures GetTokenAsWritten(id, u, managerIds).lastName != u.lastName
    ensures GetTokenAsWritten(id, u, managerIds).lastName != Serialize(id, u, managerIds).lastName
  {
  }

  /** Apart from `last_name`, the two versions issue the same claims. */
  lemma TokenVersionsDifferOnlyInLastName(id: nat, u: User, managerIds: set<nat>)
    ensures GetTokenAsWritten(id, u, managerIds) == GetToken(id, u, managerIds).(lastName := u.firstName)
  {
  }

  /** The `managers` claim of a stored user is exactly that user's manager ids. */
  lemma ManagersClaimIsEdgeSet(store: Store, id: nat)
    requires store.Valid() && id in store.users
    ensures forall m :: m in GetToken(id, store.users[id], store.ManagersOf(id)).managers <==> (id, m) in store.managers
  {
  }
}
