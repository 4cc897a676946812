/**
 * The user table, the self-referential `managers` relation and the pest
 * register table, with the user manager's factory methods and the user's
 * delegation methods.
 *
 * Ids are the tables' auto-incremented primary keys. An edge `(c, m)` in
 * `managers` says that `m` is one of `c`'s managers; `managed_by` is the
 * same relation read backwards. Deleting a user cascades to the registers
 * it owns and to every edge touching it.
 */
module Models {
  import opened Wrappers
  import opened Text

  /** Keyword arguments a caller may pass to `create_user` beyond the named ones. */
  datatype ExtraFields = ExtraFields(
    company: Option<string>,
    image: Option<string>,
    isCreator: Option<bool>,
    isActive: Option<bool>,
    isStaff: Option<bool>,
    isSuperuser: Option<bool>)

  const NoExtra := ExtraFields(None, None, None, None, None, None)

  /**
   * One row of the user table. `password` stands for what `set_password`
   * stores: `None` is Django's unusable password, `Some(p)` the hash of `p`.
   */
  datatype User = User(
    email: string,
    firstName: string,
    lastName: string,
    company: Option<string>,
    branch: Option<string>,
    image: Option<string>,
    isCreator: bool,
    isActive: bool,
    isStaff: bool,
    isSuperuser: bool,
    password: Option<string>)

  /** One row of the pest register table; `created` is the server's clock at insertion. */
  datatype Register = Register(pestName: string, owner: nat, image: Option<string>, created: int)

  /** Why `create_user` or `create_superuser` raised. */
  datatype CreateError =
    | EmptyEmail                 // ValueError: 'The Email field must be set'
    | DuplicateEmail(email: string) // the database's unique constraint on email
    | StaffNotTrue               // ValueError: 'Superuser must have is_staff=True.'
    | SuperuserNotTrue           // ValueError: 'Superuser must have is_superuser=True.'

  /** `normalize_email`: the whole address lowercased (not only its domain part). */
  function NormalizeEmail(email: string): (r: string)
    ensures |r| == |email|
    ensures IsLowerString(r)
    ensures forall i :: 0 <= i < |email| ==> LowerChar(r[i]) == LowerChar(email[i])
  {
    Lower(email)
  }

  /** Normalizing an already normalized address changes nothing. */
  lemma NormalizeEmailIdempotent(email: string)
    ensures NormalizeEmail(NormalizeEmail(email)) == NormalizeEmail(email)
  {
    LowerIdempotent(email);
  }

  /** An address that is already lowercase is stored as given. */
  lemma NormalizeEmailKeepsLowercase(email: string)
    requires IsLowerString(email)
    ensures NormalizeEmail(email) == email
  {
    LowerOfLowerString(email);
  }

  /** `get_full_name`: first name, one space, last name. */
  function FullName(u: User): (r: string)
    ensures |r| == |u.firstName| + 1 + |u.lastName|
    ensures r[..|u.firstName|] == u.firstName && r[|u.firstName|] == ' '
    ensures r[|u.firstName| + 1..] == u.lastName
  {
    u.firstName + " " + u.lastName
  }

  /** `get_short_name`: the first name. */
  function ShortName(u: User): (r: string)
    ensures r == u.firstName
  {
    u.firstName
  }

  /** `User.__str__`: the email address. */
  function UserStr(u: User): (r: string)
    ensures r == u.email
  {
    u.email
  }

  /** `Register.__str__`: the pest name followed by the owner's full name in parentheses. */
  function RegisterStr(reg: Register, owner: User): (r: string)
    ensures |r| == |reg.pestName| + |FullName(owner)| + 3
    ensures r[..|reg.pestName|] == reg.pestName
    ensures r[|reg.pestName|..] == " (" + FullName(owner) + ")"
  {
    reg.pestName + " (" + FullName(owner) + ")"
  }

  /**
   * The row `create_user` builds: the named fields as given, every flag at
   * its column default (`is_creator` false, `is_active` true, `is_staff`
   * false, `is_superuser` false) unless `extra` overrides it.
   */
  function NewUser(email: string, firstName: string, lastName: string, branch: Option<string>,
                   password: Option<string>, extra: ExtraFields): (u: User)
    ensures u.email == email && u.firstName == firstName && u.lastName == lastName
    ensures u.branch == branch && u.password == password
    ensures u.company == extra.company && u.image == extra.image
    ensures extra.isCreator.None? ==> !u.isCreator
    ensures extra.isActive.None? ==> u.isActive
    ensures extra.isStaff.None? ==> !u.isStaff
    ensures extra.isSuperuser.None? ==> !u.isSuperuser
    ensures extra.isCreator.Some? ==> u.isCreator == extra.isCreator.value
    ensures extra.isActive.Some? ==> u.isActive == extra.isActive.value
    ensures extra.isStaff.Some? ==> u.isStaff == extra.isStaff.value
    ensures extra.isSuperuser.Some? ==> u.isSuperuser == extra.isSuperuser.value
  {
    User(email, firstName, lastName, extra.company, branch, extra.image,
         extra.isCreator.GetOr(false), extra.isActive.GetOr(true),
         extra.isStaff.GetOr(false), extra.isSuperuser.GetOr(false), password)
  }

  /** A user created without extra fields is a plain, active, non-staff account. */
  lemma NewUserDefaults(email: string, firstName: string, lastName: string,
                        branch: Option<string>, password: Option<string>)
    ensures var u := NewUser(email, firstName, lastName, branch, password, NoExtra);
      !u.isCreator && u.isActive && !u.isStaff && !u.isSuperuser && u.company.None? && u.image.None?
  {
  }

  /** What `create_superuser` forwards: `is_staff` and `is_superuser` set to true. */
  function SuperuserExtra(extra: ExtraFields): (e: ExtraFields)
    ensures e.isStaff == Some(true) && e.isSuperuser == Some(true)
    ensures e.company == extra.company && e.image == extra.image
    ensures e.isCreator == extra.isCreator && e.isActive == extra.isActive
  {
    extra.(isStaff := Some(true), isSuperuser := Some(true))
  }

  /** The database: the user table, the delegation edges, the register table and the next ids. */
  class Store {
    var users: map<nat, User>
    var managers: set<(nat, nat)>
    var registers: map<nat, Register>
    var nextUserId: nat
    var nextRegisterId: nat

    /** Keys below the counters, edges and owners referring to existing users, emails unique. */
    ghost predicate Valid()
      reads this
    {
      && (forall id :: id in users ==> id < nextUserId)
      && (forall e :: e in managers ==> e.0 in users && e.1 in users)
      && (forall r :: r in registers ==> r < nextRegisterId && registers[r].owner in users)
      && (forall a, b :: a in users && b in users && users[a].email == users[b].email ==> a == b)
    }

    constructor ()
      ensures Valid()
      ensures users == map[] && managers == {} && registers == map[]
    {
      users := map[];
      managers := {};
      registers := map[];
      nextUserId := 1;
      nextRegisterId := 1;
    }

    /** The email addresses in use. */
    function Emails(): (r: set<string>)
      reads this
      ensures forall id :: id in users ==> users[id].email in r
      ensures forall e :: e in r ==> exists id :: id in users && users[id].email == e
    {
      set id | id in users :: users[id].email
    }

    /** `c.managers.all()`: the users `c` has an edge to. */
    function ManagersOf(c: nat): (r: set<nat>)
      reads this
      ensures forall m :: m in r <==> (c, m) in managers
    {
      set e | e in managers && e.0 == c :: e.1
    }

    /** `m.managed_by.all()`: the users that have an edge to `m`. */
    function ManagedBy(m: nat): (r: set<nat>)
      reads this
      ensures forall c :: c in r <==> (c, m) in managers
    {
      set e | e in managers && e.1 == m :: e.0
    }

    /** `u.registers.all()`: the ids of the registers `u` owns. */
    function RegistersOf(u: nat): (r: set<nat>)
      reads this
      ensures forall id :: id in r <==> id in registers && registers[id].owner == u
    {
      set id | id in registers && registers[id].owner == u
    }

    /**
     * `UserManager.create_user`: rejects an empty email, lowercases it,
     * rejects an address already in use, and inserts the new row with no
     * edges in either direction.
     */
    method CreateUser(email: string, firstName: string, lastName: string, branch: Option<string>,
                      password: Option<string>, extra: ExtraFields) returns (r: Result<nat, CreateError>)
      requires Valid()
      modifies this
      ensures Valid()
      ensures r.Failure? <==> email == [] || NormalizeEmail(email) in old(Emails())
      ensures email == [] ==> r == Failure(EmptyEmail)
      ensures email != [] && r.Failure? ==> r == Failure(DuplicateEmail(NormalizeEmail(email)))
      ensures r.Failure? ==> unchanged(this)
      ensures r.Success? ==>
        && r.value == old(nextUserId) && r.value !in old(users)
        && users == old(users)[r.value := NewUser(NormalizeEmail(email), firstName, lastName, branch, password, extra)]
        && managers == old(managers) && registers == old(registers)
        && nextUserId == old(nextUserId) + 1 && nextRegisterId == old(nextRegisterId)
        && ManagersOf(r.value) == {} && ManagedBy(r.value) == {}
    {
      if email == [] {
        return Failure(EmptyEmail);
      }
      var normalized := NormalizeEmail(email);
      if normalized in Emails() {
        return Failure(DuplicateEmail(normalized));
      }
      var id := nextUserId;
      users := users[id := NewUser(normalized, firstName, lastName, branch, password, extra)];
      nextUserId := nextUserId + 1;
      r := Success(id);
    }

    /**
     * `UserManager.create_superuser`: `is_staff` and `is_superuser` default
     * to true and must not be given as anything else; the branch is left
     * empty.
     */
    method CreateSuperuser(email: string, firstName: string, lastName: string,
                           password: Option<string>, extra: ExtraFields) returns (r: Result<nat, CreateError>)
      requires Valid()
      modifies this
      ensures Valid()
      ensures extra.isStaff == Some(false) ==> r == Failure(StaffNotTrue)
      ensures extra.isStaff != Some(false) && extra.isSuperuser == Some(false) ==> r == Failure(SuperuserNotTrue)
      ensures r.Failure? <==>
        extra.isStaff == Some(false) || extra.isSuperuser == Some(false) ||
        email == [] || NormalizeEmail(email) in old(Emails())
      ensures r.Failure? ==> unchanged(this)
      ensures r.Success? ==>
        && r.value == old(nextUserId) && r.value !in old(users)
        && users == old(users)[r.value := NewUser(NormalizeEmail(email), firstName, lastName, None, password, SuperuserExtra(extra))]
        && users[r.value].isStaff && users[r.value].isSuperuser
        && managers == old(managers) && registers == old(registers)
        && nextUserId == old(nextUserId) + 1 && nextRegisterId == old(nextRegisterId)
    {
      if extra.isStaff == Some(false) {
        return Failure(StaffNotTrue);
      }
      if extra.isSuperuser == Some(false) {
        return Failure(SuperuserNotTrue);
      }
      r := CreateUser(email, firstName, lastName, None, password, SuperuserExtra(extra));
    }

    /**
     * `User.assign_manager`: adds the one edge `self -> manager` when `self`
     * is a creator and does nothing otherwise. The reverse edge is never
     * added, so `manager`'s own managers are untouched.
     */
    method AssignManager(self: nat, manager: nat)
      requires Valid() && self in users && manager in users
      modifies this`managers
      ensures Valid()
      ensures managers == if users[self].isCreator then old(managers) + {(self, manager)} else old(managers)
      ensures users[self].isCreator ==> manager in ManagersOf(self) && self in ManagedBy(manager)
      ensures manager != self ==> ManagersOf(manager) == old(ManagersOf(manager))
    {
      if users[self].isCreator {
        managers := managers + {(self, manager)};
      }
    }

    /**
     * `User.create_manager`: `None` for a non-creator, which creates nothing;
     * for a creator, the outcome of `create_user` (branch and extra fields
     * forwarded) and, on success, the edge from the creator to the new user.
     */
    method CreateManager(creator: nat, email: string, firstName: string, lastName: string,
                         branch: Option<string>, password: Option<string>, extra: ExtraFields) returns (r: Option<Result<nat, CreateError>>)
      requires Valid() && creator in users
      modifies this
      ensures Valid()
      ensures !old(users[creator].isCreator) ==> r == None && unchanged(this)
      ensures old(users[creator].isCreator) ==> r.Some?
      ensures r.Some? && r.value.Failure? ==> unchanged(this)
      ensures r.Some? ==>
        (r.value.Failure? <==> email == [] || NormalizeEmail(email) in old(Emails()))
      ensures r.Some? && r.value.Failure? ==>
        r.value.error == if email == [] then EmptyEmail else DuplicateEmail(NormalizeEmail(email))
      ensures r.Some? && r.value.Success? ==>
        var id := r.value.value;
        && id == old(nextUserId) && id !in old(users)
        && users == old(users)[id := NewUser(NormalizeEmail(email), firstName, lastName, branch, password, extra)]
        && managers == old(managers) + {(creator, id)}
        && registers == old(registers)
        && nextUserId == old(nextUserId) + 1 && nextRegisterId == old(nextRegisterId)
        && id in ManagersOf(creator) && creator in ManagedBy(id)
        && ManagersOf(id) == {}
    {
      if !users[creator].isCreator {
        return None;
      }
      var created := CreateUser(email, firstName, lastName, branch, password, extra);
      if created.Success? {
        AssignManager(creator, created.value);
      }
      r := Some(created);
    }

    /**
     * `user.delete()`: removes the row, every edge touching it in either
     * direction, and (on_delete=CASCADE) exactly the registers it owns.
     */
    method DeleteUser(id: nat)
      requires Valid() && id in users
      modifies this
      ensures Valid()
      ensures users == old(users) - {id}
      ensures managers == set e | e in old(managers) && e.0 != id && e.1 != id
      ensures registers == map r | r in old(registers) && old(registers)[r].owner != id :: old(registers)[r]
      ensures registers.Keys == old(registers).Keys - old(RegistersOf(id))
      ensures forall u :: u != id ==> RegistersOf(u) == old(RegistersOf(u))
      ensures nextUserId == old(nextUserId) && nextRegisterId == old(nextRegisterId)
    {
      users := users - {id};
      managers := set e | e in managers && e.0 != id && e.1 != id;
      registers := map r | r in registers && registers[r].owner != id :: registers[r];
    }

    /** `Register.objects.create`: inserts one register row for an existing owner. */
    method CreateRegister(pestName: string, owner: nat, image: Option<string>, now: int) returns (id: nat)
      requires Valid() && owner in users
      modifies this`registers, this`nextRegisterId
      ensures Valid()
      ensures id == old(nextRegisterId) && id !in old(registers)
      ensures registers == old(registers)[id := Register(pestName, owner, image, now)]
      ensures nextRegisterId == old(nextRegisterId) + 1
      ensures RegistersOf(owner) == old(RegistersOf(owner)) + {id}
      ensures |RegistersOf(owner)| == |old(RegistersOf(owner))| + 1
      ensures forall u :: u != owner ==> RegistersOf(u) == old(RegistersOf(u))
    {
      ghost var before := RegistersOf(owner);
      id := nextRegisterId;
      registers := registers[id := Register(pestName, owner, image, now)];
      nextRegisterId := nextRegisterId + 1;
      assert id !in before;
      assert RegistersOf(owner) == before + {id};
    }

    /** `user.managers.clear()`: drops every edge leaving `u`, keeps the edges into `u`. */
    method ClearManagers(u: nat)
      requires Valid()
      modifies this`managers
      ensures Valid()
      ensures managers == set e | e in old(managers) && e.0 != u
      ensures ManagersOf(u) == {}
      ensures forall c :: c != u ==> ManagersOf(c) == old(ManagersOf(c))
    {
      managers := set e | e in managers && e.0 != u;
    }

    /** `instance.save()` after fields were set: replaces the row; the new email must not be another user's. */
    method SaveUser(id: nat, u: User)
      requires Valid() && id in users
      requires forall o :: o in users && o != id ==> users[o].email != u.email
      modifies this`users
      ensures Valid()
      ensures users == old(users)[id := u]
    {
      users := users[id := u];
    }
  }
}
