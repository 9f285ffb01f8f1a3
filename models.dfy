/**
 * The `User` and `Phone` records, the profile projection `toJSONdict`, and the
 * store that holds both tables, with the operations the handlers perform on it.
 */
module Models {
  import opened Wrappers
  import opened Json
  import opened Seqs
  import opened Session

  /**
   * A stored password. The salted hash is abstracted to the password it was made
   * from; checking a password against it is equality.
   */
  datatype Credential = Credential(secret: string)

  /** Whether `given` (possibly JSON null) is the password the credential was made from. */
  predicate PasswordMatches(c: Credential, given: Scalar) {
    given == Str(c.secret)
  }

  /**
   * One row of the user table. `id` is the canonical string form of the UUID
   * primary key; `username` is unique; `lastLogin` is nullable.
   */
  datatype User = User(
    id: string,
    firstName: string,
    username: string,
    email: string,
    credential: Credential,
    token: string,
    dateJoined: Time,
    lastModified: Time,
    lastLogin: Option<Time>)

  /** One row of the phone table; `owner` is the id of the user it belongs to. */
  datatype Phone = Phone(owner: string, ddd: string, number: string)

  /** One `{ddd, number}` entry of a profile projection. */
  datatype PhoneView = PhoneView(ddd: string, number: string)

  /** The profile projection returned by every successful handler. */
  datatype Projection = Projection(
    id: string,
    name: string,
    email: string,
    phones: Option<seq<PhoneView>>,
    created: Time,
    modified: Time,
    lastLogin: Option<Time>,
    token: string)

  /** The user `create_user` builds at time `now`: never logged in. */
  function NewUser(id: string, firstName: string, username: string, email: string,
                   password: string, token: string, now: Time): User
  {
    User(id, firstName, username, email, Credential(password), token, now, now, None)
  }

  /** A user after a successful password check at `now`: `last_login` and, by `save()`, `last_modified`. */
  function Refreshed(u: User, now: Time): User {
    u.(lastLogin := Some(now), lastModified := now)
  }

  /** The phones of user `id`, in table order (the query `Phone.objects.filter(user__id=id)`). */
  function PhonesOf(phones: seq<Phone>, id: string): seq<Phone> {
    Filter(phones, (p: Phone) => p.owner == id)
  }

  /** The phones that do not belong to user `id`, in table order. */
  function PhonesExcept(phones: seq<Phone>, id: string): seq<Phone> {
    Filter(phones, (p: Phone) => p.owner != id)
  }

  function ViewOf(p: Phone): PhoneView { PhoneView(p.ddd, p.number) }

  function PhoneViews(ps: seq<Phone>): seq<PhoneView> {
    seq(|ps|, i requires 0 <= i < |ps| => ViewOf(ps[i]))
  }

  /** `User.toJSONdict`: the projection of user `u` given the phone table. */
  function ToJSONDict(u: User, phones: seq<Phone>): Projection {
    var views := PhoneViews(PhonesOf(phones, u.id));
    Projection(u.id, u.firstName, u.email, if views == [] then None else Some(views),
               u.dateJoined, u.lastModified, u.lastLogin, u.token)
  }

  /**
   * The projection copies the user's fields: `id`, `name` (the first name),
   * `email`, `token`, and a `last_login` that is null exactly when the user's is.
   */
  lemma ProjectionCopiesFields(u: User, phones: seq<Phone>)
    ensures ToJSONDict(u, phones).id == u.id
    ensures ToJSONDict(u, phones).name == u.firstName
    ensures ToJSONDict(u, phones).email == u.email
    ensures ToJSONDict(u, phones).token == u.token
    ensures ToJSONDict(u, phones).created == u.dateJoined
    ensures ToJSONDict(u, phones).modified == u.lastModified
    ensures ToJSONDict(u, phones).lastLogin.None? <==> u.lastLogin.None?
  {
  }

  /**
   * The projection's `phones` is null exactly when the user owns no phone; otherwise
   * it lists one `{ddd, number}` per phone of that user, in table order.
   */
  lemma ProjectionPhones(u: User, phones: seq<Phone>)
    ensures ToJSONDict(u, phones).phones.None? <==> forall p :: p in phones ==> p.owner != u.id
    ensures ToJSONDict(u, phones).phones.Some? ==>
              var vs := ToJSONDict(u, phones).phones.value;
              var own := PhonesOf(phones, u.id);
              |vs| == |own| && forall i :: 0 <= i < |own| ==> vs[i] == PhoneView(own[i].ddd, own[i].number)
    ensures ToJSONDict(u, phones).phones.Some? ==>
              forall p :: p in phones && p.owner == u.id ==> ViewOf(p) in ToJSONDict(u, phones).phones.value
  {
    var own := PhonesOf(phones, u.id);
    if own != [] {
      assert own[0] in own;
    }
    forall p | p in phones && p.owner == u.id
      ensures ViewOf(p) in PhoneViews(own)
    {
      assert p in own;
      var i :| 0 <= i < |own| && own[i] == p;
      assert PhoneViews(own)[i] == ViewOf(p);
    }
  }

  /** The contents of the two tables. */
  datatype Db = Db(users: map<string, User>, phones: seq<Phone>) {
    /**
     * The table invariants: a user is stored under its own id, every phone
     * references a stored user, and usernames are unique.
     */
    predicate Valid() {
      && (forall id :: id in users ==> users[id].id == id)
      && (forall p :: p in phones ==> p.owner in users)
      && (forall a, b :: a in users && b in users && users[a].username == users[b].username ==> a == b)
    }

    /** Whether some stored user has this username. */
    predicate UsernameTaken(name: string) {
      exists id :: id in users && users[id].username == name
    }
  }

  /** The tables after inserting user `u`. */
  function InsertUser(db: Db, u: User): Db {
    db.(users := db.users[u.id := u])
  }

  /** The tables after inserting phone `p`. */
  function InsertPhone(db: Db, p: Phone): Db {
    db.(phones := db.phones + [p])
  }

  /** The tables after deleting user `id`, with `ON DELETE CASCADE` removing its phones. */
  function DeleteCascade(db: Db, id: string): Db {
    Db(db.users - {id}, PhonesExcept(db.phones, id))
  }

  /** The tables after a successful password check of user `id` at `now`. */
  function RefreshLogin(db: Db, id: string, now: Time): Db
    requires id in db.users
  {
    db.(users := db.users[id := Refreshed(db.users[id], now)])
  }

  /**
   * Deleting a user removes exactly that user and all of its phones, leaves every
   * other user's row as it was, keeps every other phone row as many times as it
   * occurred, and keeps the table invariant.
   */
  lemma DeleteRemovesOwnedPhones(db: Db, id: string)
    requires db.Valid()
    ensures DeleteCascade(db, id).users.Keys == db.users.Keys - {id}
    ensures forall k :: k in DeleteCascade(db, id).users ==> DeleteCascade(db, id).users[k] == db.users[k]
    ensures forall p :: p in DeleteCascade(db, id).phones <==> p in db.phones && p.owner != id
    ensures forall p :: multiset(DeleteCascade(db, id).phones)[p] == if p.owner != id then multiset(db.phones)[p] else 0
    ensures DeleteCascade(db, id).Valid()
  {
    forall p: Phone
      ensures multiset(DeleteCascade(db, id).phones)[p] == if p.owner != id then multiset(db.phones)[p] else 0
    {
      FilterMultiset(db.phones, (q: Phone) => q.owner != id, p);
    }
  }

  /**
   * The cascade keeps the other users' phones in table order: the survivors of rows
   * inserted earlier come before the survivors of rows inserted later.
   */
  lemma DeleteKeepsPhoneOrder(db: Db, id: string, earlier: seq<Phone>, later: seq<Phone>)
    requires db.phones == earlier + later
    ensures DeleteCascade(db, id).phones == PhonesExcept(earlier, id) + PhonesExcept(later, id)
  {
    FilterConcat(earlier, later, (q: Phone) => q.owner != id);
  }

  /**
   * Rolling back a registration: deleting a user that was just inserted, after
   * any number of phones were inserted for it, restores the tables to what they were.
   */
  lemma {:induction false} RollbackRestores(db: Db, u: User, created: seq<Phone>)
    requires db.Valid() && u.id !in db.users
    requires forall p :: p in created ==> p.owner == u.id
    ensures DeleteCascade(Db(db.users[u.id := u], db.phones + created), u.id) == db
  {
    var keep := (p: Phone) => p.owner != u.id;
    FilterConcat(db.phones, created, keep);
    FilterKeepsAll(db.phones, keep);
    FilterKeepsNone(created, keep);
    assert db.phones + [] == db.phones;
    assert db.users[u.id := u] - {u.id} == db.users;
  }

  /** The user and phone tables, updated in place by the ORM operations the handlers call. */
  class Store {
    var users: map<string, User>
    var phones: seq<Phone>

    /** The abstract contents of the store. */
    function State(): Db
      reads this
    {
      Db(users, phones)
    }

    predicate Valid()
      reads this
    {
      State().Valid()
    }

    /** An empty store. */
    constructor ()
      ensures Valid() && State() == Db(map[], [])
    {
      users := map[];
      phones := [];
    }

    /**
     * `User.objects.create_user`: inserts a new user, or fails with an integrity
     * error when its id or its username is already taken.
     */
    method CreateUser(id: string, firstName: string, username: string, email: string,
                      password: string, token: string, now: Time) returns (ok: bool)
      requires Valid()
      modifies this
      ensures Valid()
      ensures ok <==> id !in old(users) && !old(State()).UsernameTaken(username)
      ensures ok ==> State() == InsertUser(old(State()), NewUser(id, firstName, username, email, password, token, now))
      ensures !ok ==> State() == old(State())
    {
      if id in users || exists k :: k in users && users[k].username == username {
        ok := false;
      } else {
        users := users[id := NewUser(id, firstName, username, email, password, token, now)];
        ok := true;
      }
    }

    /**
     * `Phone.objects.create`: inserts a phone of user `owner`, or fails with an
     * integrity error when `ddd` or `number` is null (both columns are NOT NULL).
     */
    method CreatePhone(owner: string, ddd: Scalar, number: Scalar) returns (ok: bool)
      requires Valid() && owner in users
      modifies this
      ensures Valid()
      ensures ok <==> ddd.Str? && number.Str?
      ensures ok ==> State() == InsertPhone(old(State()), Phone(owner, ddd.s, number.s))
      ensures !ok ==> State() == old(State())
    {
      if ddd.Str? && number.Str? {
        phones := phones + [Phone(owner, ddd.s, number.s)];
        ok := true;
      } else {
        ok := false;
      }
    }

    /** `user.delete()`: removes the user and, by the cascade, its phones. */
    method DeleteUser(id: string)
      requires Valid()
      modifies this
      ensures Valid()
      ensures State() == DeleteCascade(old(State()), id)
    {
      DeleteRemovesOwnedPhones(State(), id);
      users := users - {id};
      phones := PhonesExcept(phones, id);
    }

    /**
     * `User.check_password`: whether `password` matches the stored credential; on a
     * match `last_login` becomes `now` and the row is saved, otherwise nothing changes.
     */
    method CheckPassword(id: string, password: Scalar, now: Time) returns (worked: bool)
      requires Valid() && id in users
      modifies this
      ensures Valid()
      ensures worked <==> PasswordMatches(old(users[id]).credential, password)
      ensures worked ==> State() == RefreshLogin(old(State()), id, now)
      ensures !worked ==> State() == old(State())
    {
      worked := PasswordMatches(users[id].credential, password);
      if worked {
        users := users[id := Refreshed(users[id], now)];
      }
    }

    /**
     * `User.objects.get(username=name)`: the id of the one user with that username,
     * or none; a null name matches no user.
     */
    method FindByUsername(name: Scalar) returns (r: Option<string>)
      requires Valid()
      ensures r.Some? <==> name.Str? && State().UsernameTaken(name.s)
      ensures r.Some? ==> r.value in users && users[r.value].username == name.s
      ensures r.Some? ==> forall k :: k in users && users[k].username == name.s ==> k == r.value
    {
      if name.Str? && exists k :: k in users && users[k].username == name.s {
        var k :| k in users && users[k].username == name.s;
        r := Some(k);
      } else {
        r := None;
      }
    }
  }
}
