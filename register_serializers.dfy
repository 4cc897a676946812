/**
 * `RegisterSerializer` and `RegisterImageSerializer`: the declared field
 * lists, the read-only fields, `create` with the owner forced to the
 * requesting user, and the rendered form of a register.
 */
module RegisterSerializers {
  import opened Wrappers
  import opened Models

  const RegisterFields: seq<string> := ["id", "pest_name", "created", "owner", "image"]
  const ReadOnlyFields: seq<string> := ["id", "created", "owner"]

  /** `RegisterImageSerializer.Meta.fields`: the parent list with `'image'` appended. */
  const RegisterImageFields: seq<string> := RegisterFields + ["image"]

  /** The image serializer lists `image` twice and so exposes the same field names as its parent. */
  lemma ImageFieldsSameNames()
    ensures |RegisterImageFields| == |RegisterFields| + 1
    ensures RegisterImageFields[|RegisterFields|] == "image" && "image" in RegisterFields
    ensures forall f :: f in RegisterImageFields <==> f in RegisterFields
  {
  }

  /** The writable declared fields: `pest_name` and `image`. */
  lemma WritableFields()
    ensures forall f :: f in RegisterFields && f !in ReadOnlyFields <==> f == "pest_name" || f == "image"
  {
  }

  /** What a client may send for a register, including the read-only keys. */
  datatype RegisterInput = RegisterInput(
    id: Option<nat>, pestName: string, created: Option<int>, owner: Option<nat>, image: Option<string>)

  /** `validated_data`: the read-only keys are dropped. */
  datatype RegisterValidated = RegisterValidated(pestName: string, image: Option<string>)

  function ToInternal(input: RegisterInput): (v: RegisterValidated)
    ensures v.pestName == input.pestName && v.image == input.image
  {
    RegisterValidated(input.pestName, input.image)
  }

  /** Inputs that differ only in read-only keys validate to the same data. */
  lemma ReadOnlyKeysDropped(input: RegisterInput, id: Option<nat>, created: Option<int>, owner: Option<nat>)
    ensures ToInternal(input) == ToInternal(input.(id := id, created := created, owner := owner))
  {
  }

  /**
   * `RegisterSerializer.create` after validation: the row's owner is the
   * requesting user, its id and creation time are the server's; nothing of
   * the client's `id`, `created` or `owner` reaches it.
   */
  method Save(store: Store, requester: nat, input: RegisterInput, now: int) returns (id: nat)
    requires store.Valid() && requester in store.users
    modifies store
    ensures store.Valid()
    ensures id == old(store.nextRegisterId) && id !in old(store.registers)
    ensures store.registers == old(store.registers)[id := Register(input.pestName, requester, input.image, now)]
    ensures store.users == old(store.users) && store.managers == old(store.managers)
    ensures store.nextUserId == old(store.nextUserId) && store.nextRegisterId == id + 1
  {
    var validated := ToInternal(input);
    id := store.CreateRegister(validated.pestName, requester, validated.image, now);
  }

  /** A register as the serializer renders it; the owner is its string form. */
  datatype RegisterView = RegisterView(id: nat, pestName: string, created: int, owner: string, image: Option<string>)

  /** The rendering: `owner` through `StringRelatedField`, which is the owner's email. */
  function Represent(store: Store, rid: nat): (v: RegisterView)
    reads store
    requires store.Valid() && rid in store.registers
    ensures v.id == rid && v.pestName == store.registers[rid].pestName
    ensures v.created == store.registers[rid].created && v.image == store.registers[rid].image
    ensures v.owner == store.users[store.registers[rid].owner].email
  {
    var reg := store.registers[rid];
    RegisterView(rid, reg.pestName, reg.created, UserStr(store.users[reg.owner]), reg.image)
  }
}
