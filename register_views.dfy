/**
 * `PestRegisterCreateViewSet.post`: the authenticated user records a pest
 * sighting. The owner is always the requester; whatever owner the request
 * body names is never read.
 */
module RegisterViews {
  import opened Wrappers
  import opened Models

  const HTTP_201_CREATED: int := 201
  const HTTP_400_BAD_REQUEST: int := 400

  /** The keys of the request body; `owner` stands for any owner a client might send. */
  datatype RegisterData = RegisterData(pestName: Option<string>, image: Option<string>, owner: Option<nat>)

  /** The `data` object of the success answer. */
  datatype RegisterSummary = RegisterSummary(id: nat, pestName: string, owner: string, created: int)

  datatype Body =
    | FieldError(field: string, message: string)   // a ValidationError on one field
    | Created(message: string, data: RegisterSummary)

  datatype Response = Response(status: int, body: Body)

  /**
   * An absent or empty `pest_name` is a 400 naming that field and writes
   * nothing; otherwise exactly one register is inserted for the requester,
   * stamped with `now`, and the answer is 201 echoing its id, pest name,
   * the owner's full name and the creation time.
   */
  method PostRegister(store: Store, requester: nat, data: RegisterData, now: int) returns (r: Response)
    requires store.Valid() && requester in store.users
    modifies store
    ensures store.Valid()
    ensures data.pestName.None? || data.pestName.value == [] ==>
      r == Response(HTTP_400_BAD_REQUEST, FieldError("pest_name", "This field is required.")) && unchanged(store)
    ensures r.status == HTTP_400_BAD_REQUEST ==> data.pestName.None? || data.pestName.value == []
    ensures data.pestName.Some? && data.pestName.value != [] ==>
      var id := old(store.nextRegisterId);
      && store.users == old(store.users) && store.managers == old(store.managers)
      && store.nextUserId == old(store.nextUserId) && store.nextRegisterId == id + 1
      && r == Response(HTTP_201_CREATED, Created("Pest register created successfully",
                         RegisterSummary(id, data.pestName.value, FullName(store.users[requester]), now)))
      && id !in old(store.registers)
      && store.registers == old(store.registers)[id := Register(data.pestName.value, requester, data.image, now)]
      && store.RegistersOf(requester) == old(store.RegistersOf(requester)) + {id}
      && |store.RegistersOf(requester)| == |old(store.RegistersOf(requester))| + 1
      && (forall u :: u != requester ==> store.RegistersOf(u) == old(store.RegistersOf(u)))
  {
    if data.pestName.None? || data.pestName.value == [] {
      return Response(HTTP_400_BAD_REQUEST, FieldError("pest_name", "This field is required."));
    }
    var id := store.CreateRegister(data.pestName.value, requester, data.image, now);
    r := Response(HTTP_201_CREATED, Created("Pest register created successfully",
                    RegisterSummary(id, store.registers[id].pestName, FullName(store.users[requester]), store.registers[id].created)));
  }
}
