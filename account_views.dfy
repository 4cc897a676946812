/**
 * The manager endpoints: `ControlManagerViewSet.post/get/delete`,
 * `GetManagersView.get` and `SearchManagerViewSet.get`. Each takes the
 * authenticated requester's id; every one of them answers 403 to a
 * non-creator before looking at anything else.
 */
module AccountViews {
  import opened Wrappers
  import opened Text
  import opened Models
  import opened AccountSerializers

  const HTTP_200_OK: int := 200
  const HTTP_201_CREATED: int := 201
  const HTTP_400_BAD_REQUEST: int := 400
  const HTTP_403_FORBIDDEN: int := 403
  const HTTP_404_NOT_FOUND: int := 404

  const NoCreatePermission := "You do not have permission to create managers."
  const NoViewPermission := "You do not have permission to view managers."
  const NoSearchPermission := "You do not have permission to search managers."
  const ManagerNotFound := "Manager not found or does not belong to you."
  const ManagerCreatedText := "Manager created successfully."
  const NoManagersFound := "No managers found."
  const ManagersRetrieved := "Managers retrieved successfully."
  const CreationFailedPrefix := "An error ocurred: "

  /** The manager summary the create and get endpoints return. */
  datatype ManagerSummary = ManagerSummary(id: nat, email: string, firstName: string, branch: Option<string>, lastName: string)

  datatype Body =
    | Detail(detail: string)
    | Failed(detail: string, cause: CreateError)   // the prefix, followed by the exception's text
    | WithManager(detail: string, manager: ManagerSummary)
    | ManagerList(note: Option<string>, managers: map<nat, UserView>)

  datatype Response = Response(status: int, body: Body)

  /** The body fields of a create-manager request; a key is present or absent. */
  type RequestData = map<string, string>

  /** The keys `post` insists on, in the order it checks them. */
  const RequiredFields: seq<string> := ["email", "first_name", "last_name", "branch", "password"]

  function RequiredMessage(field: string): (s: string)
    ensures s == "'" + field + "' is required."
  {
    "'" + field + "' is required."
  }

  function Summary(id: nat, u: User): (s: ManagerSummary)
    ensures s.id == id && s.email == u.email && s.firstName == u.firstName
    ensures s.branch == u.branch && s.lastName == u.lastName
  {
    ManagerSummary(id, u.email, u.firstName, u.branch, u.lastName)
  }

  /**
   * The `for field in required_fields` loop of `post`: the index of the
   * first required key missing from `data`, or `|RequiredFields|` when all
   * are present.
   */
  method FirstMissingField(data: RequestData) returns (k: nat)
    ensures k <= |RequiredFields|
    ensures forall j :: 0 <= j < k ==> RequiredFields[j] in data
    ensures k < |RequiredFields| ==> RequiredFields[k] !in data
  {
    k := 0;
    while k < |RequiredFields|
      invariant k <= |RequiredFields|
      invariant forall j :: 0 <= j < k ==> RequiredFields[j] in data
    {
      if RequiredFields[k] !in data {
        return;
      }
      k := k + 1;
    }
  }

  /** Every required key is present exactly when the loop runs to its end. */
  lemma AllPresentIff(data: RequestData, k: nat)
    requires k <= |RequiredFields|
    requires forall j :: 0 <= j < k ==> RequiredFields[j] in data
    requires k < |RequiredFields| ==> RequiredFields[k] !in data
    ensures k == |RequiredFields| <==> forall f :: f in RequiredFields ==> f in data
  {
    if k < |RequiredFields| {
      assert RequiredFields[k] in RequiredFields;
    } else {
      forall f | f in RequiredFields ensures f in data {
        var j :| 0 <= j < |RequiredFields| && RequiredFields[j] == f;
      }
    }
  }

  /**
   * `ControlManagerViewSet.post`: 403 for a non-creator; 400 naming the
   * first missing required key; 400 when `create_user` raises; otherwise
   * 201 with a summary of the new user, which is now one of the
   * requester's managers. Only the success path changes the store.
   */
  method PostManager(store: Store, requester: nat, data: RequestData) returns (r: Response)
    requires store.Valid() && requester in store.users
    modifies store
    ensures store.Valid()
    ensures !old(store.users[requester].isCreator) ==>
      r == Response(HTTP_403_FORBIDDEN, Detail(NoCreatePermission)) && unchanged(store)
    ensures r.status != HTTP_201_CREATED ==> unchanged(store)
    ensures old(store.users[requester].isCreator) && (exists f :: f in RequiredFields && f !in data) ==>
      && r.status == HTTP_400_BAD_REQUEST
      && exists k :: 0 <= k < |RequiredFields| && RequiredFields[k] !in data
           && (forall j :: 0 <= j < k ==> RequiredFields[j] in data)
           && r.body == Detail(RequiredMessage(RequiredFields[k]))
    ensures old(store.users[requester].isCreator) && (forall f :: f in RequiredFields ==> f in data) ==>
      var email := data["email"];
      && (r.status == HTTP_400_BAD_REQUEST <==> email == [] || NormalizeEmail(email) in old(store.Emails()))
      && (r.status == HTTP_400_BAD_REQUEST ==> r.body.Failed? && r.body.detail == CreationFailedPrefix)
      && (r.status == HTTP_400_BAD_REQUEST ==>
            r.body.cause == if email == [] then EmptyEmail else DuplicateEmail(NormalizeEmail(email)))
      && (r.status != HTTP_400_BAD_REQUEST ==> r.status == HTTP_201_CREATED)
    ensures r.status == HTTP_201_CREATED ==>
      && old(store.users[requester].isCreator)
      && r.body.WithManager? && r.body.detail == ManagerCreatedText
      && var id := r.body.manager.id;
      var u := NewUser(NormalizeEmail(data["email"]), data["first_name"], data["last_name"],
                       Some(data["branch"]), Some(data["password"]), NoExtra);
      && (forall f :: f in RequiredFields ==> f in data)
      && id == old(store.nextUserId) && id !in old(store.users)
      && store.users == old(store.users)[id := u]
      && store.managers == old(store.managers) + {(requester, id)}
      && store.registers == old(store.registers)
      && store.nextUserId == id + 1 && store.nextRegisterId == old(store.nextRegisterId)
      && id in store.ManagersOf(requester)
      && r.body.manager == Summary(id, u)
  {
    if !store.users[requester].isCreator {
      return Response(HTTP_403_FORBIDDEN, Detail(NoCreatePermission));
    }
    var k := FirstMissingField(data);
    AllPresentIff(data, k);
    if k < |RequiredFields| {
      return Response(HTTP_400_BAD_REQUEST, Detail(RequiredMessage(RequiredFields[k])));
    }
    assert forall f :: f in RequiredFields ==> f in data;
    var outcome := store.CreateManager(requester, data["email"], data["first_name"], data["last_name"],
                                       Some(data["branch"]), Some(data["password"]), NoExtra);
    var created := outcome.value;
    if created.Failure? {
      return Response(HTTP_400_BAD_REQUEST, Failed(CreationFailedPrefix, created.error));
    }
    var id := created.value;
    r := Response(HTTP_201_CREATED, WithManager(ManagerCreatedText, Summary(id, store.users[id])));
  }

  /**
   * `ControlManagerViewSet.get`: 403 for a non-creator; 404 unless `pk` is
   * one of the requester's managers (an existing user that is not is still
   * 404); otherwise 200 with that manager's summary.
   */
  function GetManager(store: Store, requester: nat, pk: nat): (r: Response)
    reads store
    requires store.Valid() && requester in store.users
    ensures !store.users[requester].isCreator ==> r == Response(HTTP_403_FORBIDDEN, Detail(NoCreatePermission))
    ensures store.users[requester].isCreator && pk !in store.ManagersOf(requester) ==>
      r == Response(HTTP_404_NOT_FOUND, Detail(ManagerNotFound))
    ensures r.status == HTTP_200_OK <==> store.users[requester].isCreator && pk in store.ManagersOf(requester)
    ensures r.status == HTTP_200_OK ==>
      pk in store.users && r.body == WithManager("Get manager ID: " + NatToString(pk) + " successfully",
                                                 Summary(pk, store.users[pk]))
  {
    if !store.users[requester].isCreator then
      Response(HTTP_403_FORBIDDEN, Detail(NoCreatePermission))
    else if (requester, pk) !in store.managers then
      Response(HTTP_404_NOT_FOUND, Detail(ManagerNotFound))
    else
      Response(HTTP_200_OK, WithManager("Get manager ID: " + NatToString(pk) + " successfully",
                                        Summary(pk, store.users[pk])))
  }

  /**
   * `ControlManagerViewSet.delete`: 403 for a non-creator and 404 unless
   * `pk` is one of the requester's managers, both leaving the store as it
   * was; otherwise the manager is deleted (with its edges and registers),
   * every other user stays, and the answer is 200.
   */
  method DeleteManager(store: Store, requester: nat, pk: nat) returns (r: Response)
    requires store.Valid() && requester in store.users
    modifies store
    ensures store.Valid()
    ensures r == DeleteAnswer(old(store.users[requester].isCreator), pk in old(store.ManagersOf(requester)), pk)
    ensures r.status != HTTP_200_OK ==> unchanged(store)
    ensures r.status == HTTP_200_OK ==>
      && store.users == old(store.users) - {pk}
      && (forall u :: u in old(store.users) && u != pk ==> u in store.users && store.users[u] == old(store.users[u]))
      && store.managers == (set e | e in old(store.managers) && e.0 != pk && e.1 != pk)
      && pk !in store.ManagersOf(requester)
      && store.registers == (map r | r in old(store.registers) && old(store.registers)[r].owner != pk :: old(store.registers)[r])
      && store.registers.Keys == old(store.registers).Keys - old(store.RegistersOf(pk))
      && store.nextUserId == old(store.nextUserId) && store.nextRegisterId == old(store.nextRegisterId)
      && (pk != requester ==> GetManager(store, requester, pk).status == HTTP_404_NOT_FOUND)
  {
    if !store.users[requester].isCreator {
      return DeleteAnswer(false, false, pk);
    }
    if (requester, pk) !in store.managers {
      return DeleteAnswer(true, false, pk);
    }
    store.DeleteUser(pk);
    r := DeleteAnswer(true, true, pk);
  }

  /** The three answers `delete` can give, decided by the role and the edge alone. */
  function DeleteAnswer(isCreator: bool, isManager: bool, pk: nat): (r: Response)
    ensures !isCreator ==> r.status == HTTP_403_FORBIDDEN
    ensures isCreator && !isManager ==> r.status == HTTP_404_NOT_FOUND
    ensures isCreator && isManager ==> r.status == HTTP_200_OK
  {
    if !isCreator then Response(HTTP_403_FORBIDDEN, Detail(NoCreatePermission))
    else if !isManager then Response(HTTP_404_NOT_FOUND, Detail(ManagerNotFound))
    else Response(HTTP_200_OK, Detail("Manager with ID " + NatToString(pk) + " deleted successfully"))
  }

  /** The rendering of each of `ids`, keyed by id. */
  function Render(store: Store, ids: set<nat>): (m: map<nat, UserView>)
    reads store
    requires forall id :: id in ids ==> id in store.users
    ensures m.Keys == ids
    ensures forall id :: id in m ==> m[id] == Serialize(id, store.users[id], store.ManagersOf(id))
  {
    map id | id in ids :: Serialize(id, store.users[id], store.ManagersOf(id))
  }

  /**
   * `GetManagersView.get`: 403 for a non-creator; 404 when the creator has
   * no managers; otherwise 200 listing exactly the creator's managers.
   */
  function ListManagers(store: Store, requester: nat): (r: Response)
    reads store
    requires store.Valid() && requester in store.users
    ensures !store.users[requester].isCreator ==> r == Response(HTTP_403_FORBIDDEN, Detail(NoViewPermission))
    ensures store.users[requester].isCreator && store.ManagersOf(requester) == {} ==>
      r == Response(HTTP_404_NOT_FOUND, Detail(NoManagersFound))
    ensures r.status == HTTP_200_OK <==> store.users[requester].isCreator && store.ManagersOf(requester) != {}
    ensures r.status == HTTP_200_OK ==>
      r.body.ManagerList? && r.body.note == Some(ManagersRetrieved) &&
      r.body.managers == Render(store, store.ManagersOf(requester))
  {
    if !store.users[requester].isCreator then
      Response(HTTP_403_FORBIDDEN, Detail(NoViewPermission))
    else
      var ids := store.ManagersOf(requester);
      if ids == {} then Response(HTTP_404_NOT_FOUND, Detail(NoManagersFound))
      else Response(HTTP_200_OK, ManagerList(Some(ManagersRetrieved), Render(store, ids)))
  }

  /** The `Q(first_name__icontains=query) | Q(last_name__icontains=query)` test. */
  predicate NameMatches(u: User, query: string) {
    IContains(u.firstName, query) || IContains(u.lastName, query)
  }

  /** The creator's managers that pass the name filter. */
  function FilterManagers(store: Store, requester: nat, query: string): (ids: set<nat>)
    reads store
    ensures ids <= store.ManagersOf(requester)
    ensures forall m :: m in ids <==>
      m in store.ManagersOf(requester) && m in store.users && NameMatches(store.users[m], query)
  {
    set m | m in store.ManagersOf(requester) && m in store.users && NameMatches(store.users[m], query)
  }

  /**
   * `SearchManagerViewSet.get`: 403 for a non-creator; otherwise 200, also
   * when nothing matches. An absent or empty `query` lists every manager of
   * the creator; any other query lists those whose first or last name
   * contains it, ignoring case.
   */
  function SearchManagers(store: Store, requester: nat, query: Option<string>): (r: Response)
    reads store
    requires store.Valid() && requester in store.users
    ensures !store.users[requester].isCreator ==> r == Response(HTTP_403_FORBIDDEN, Detail(NoSearchPermission))
    ensures store.users[requester].isCreator ==>
      && r.status == HTTP_200_OK && r.body.ManagerList? && r.body.note.None?
      && r.body.managers.Keys <= store.ManagersOf(requester)
      && (query.GetOr("") == "" ==> r.body.managers.Keys == store.ManagersOf(requester))
      && (forall m :: m in store.ManagersOf(requester) ==>
            (m in r.body.managers <==> query.GetOr("") == "" || NameMatches(store.users[m], query.value)))
      && (forall m :: m in r.body.managers ==> r.body.managers[m] == Serialize(m, store.users[m], store.ManagersOf(m)))
  {
    var q := query.GetOr("");
    if !store.users[requester].isCreator then
      Response(HTTP_403_FORBIDDEN, Detail(NoSearchPermission))
    else if q == "" then
      Response(HTTP_200_OK, ManagerList(None, Render(store, store.ManagersOf(requester))))
    else
      Response(HTTP_200_OK, ManagerList(None, Render(store, FilterManagers(store, requester, q))))
  }

  /** The empty-query shortcut returns what the filter would have returned for the empty query. */
  lemma EmptyQueryShortcutAgreesWithFilter(store: Store, requester: nat)
    requires store.Valid()
    ensures FilterManagers(store, requester, "") == store.ManagersOf(requester)
  {
    forall m | m in store.ManagersOf(requester)
      ensures m in FilterManagers(store, requester, "")
    {
      IContainsEmpty(store.users[m].firstName);
    }
  }

  /**
   * A manager is found by a non-empty query exactly when, at some position
   * of its first or last name, the query's characters follow one by one,
   * ignoring case.
   */
  lemma SearchMatchesIgnoringCase(store: Store, requester: nat, q: string, m: nat)
    requires store.Valid() && requester in store.users && store.users[requester].isCreator
    requires q != "" && m in store.ManagersOf(requester)
    ensures var r := SearchManagers(store, requester, Some(q));
      m in r.body.managers <==>
        (exists i :: MatchesIgnoringCaseAt(store.users[m].firstName, q, i)) ||
        (exists i :: MatchesIgnoringCaseAt(store.users[m].lastName, q, i))
  {
    IContainsIff(store.users[m].firstName, q);
    IContainsIff(store.users[m].lastName, q);
  }

  /** Searching for a query or for its lowercase form gives the same answer. */
  lemma SearchIgnoresQueryCase(store: Store, requester: nat, q: string)
    requires store.Valid() && requester in store.users
    ensures SearchManagers(store, requester, Some(q)) == SearchManagers(store, requester, Some(Lower(q)))
  {
    forall m | m in store.users
      ensures NameMatches(store.users[m], q) == NameMatches(store.users[m], Lower(q))
    {
      IContainsIgnoresQueryCase(store.users[m].firstName, q);
      IContainsIgnoresQueryCase(store.users[m].lastName, q);
    }
    assert FilterManagers(store, requester, q) == FilterManagers(store, requester, Lower(q));
    if q == "" {
      assert Lower(q) == "";
    } else {
      assert Lower(q) != "" by { assert |Lower(q)| == |q|; }
    }
  }

  /** The list, get and search endpoints agree on who the creator's managers are. */
  lemma EndpointsAgree(store: Store, requester: nat, pk: nat)
    requires store.Valid() && requester in store.users && store.users[requester].isCreator
    ensures GetManager(store, requester, pk).status == HTTP_200_OK <==>
            pk in SearchManagers(store, requester, None).body.managers
    ensures ListManagers(store, requester).status == HTTP_200_OK ==>
            ListManagers(store, requester).body.managers == SearchManagers(store, requester, None).body.managers
    ensures ListManagers(store, requester).status == HTTP_404_NOT_FOUND <==>
            SearchManagers(store, requester, None).body.managers == map[]
  {
  }
}
