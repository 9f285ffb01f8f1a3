/**
 * The three request handlers `register`, `login` and `get_profile`: what each
 * answers and what it does to the store.
 */
module Views {
  import opened Wrappers
  import opened Json
  import opened Keys
  import opened Session
  import opened Models
  import opened Seqs

  const HTTP_200_OK: int := 200
  const HTTP_201_CREATED: int := 201
  const HTTP_400_BAD_REQUEST: int := 400
  const HTTP_401_UNAUTHORIZED: int := 401

  const EMAIL_EXISTS: string := "E-mail já existente"
  const INVALID_CREDENTIALS: string := "Usuário e/ou senha inválidos"
  const UNAUTHORIZED: string := "Não autorizado"
  const INVALID_SESSION: string := "Sessão inválida"

  /**
   * The `error` text of a failed request: a fixed text, the fragments of a key
   * check's message, or the database's integrity-error text (left opaque).
   */
  datatype Message = Text(text: string) | KeyReport(fragments: set<string>) | IntegrityReport

  datatype Body = Error(message: Message) | Profile(projection: Projection)

  datatype Response = Response(status: int, body: Body)

  function KeyRejection(fragments: set<string>): Response {
    Response(HTTP_400_BAD_REQUEST, Error(KeyReport(fragments)))
  }

  function Refusal(status: int, text: string): Response {
    Response(status, Error(Text(text)))
  }

  // ---------------------------------------------------------------- register

  /** The value shapes `register` relies on once the top-level keys are right. */
  predicate RegisterShaped(data: Payload) {
    && "name" in data && data["name"].Atom? && data["name"].scalar.Str?
    && "email" in data && data["email"].Atom? && data["email"].scalar.Str?
    && "password" in data && data["password"].Atom? && data["password"].scalar.Str?
    && "phones" in data && data["phones"].Objects?
  }

  predicate RegisterWellFormed(data: Payload) {
    data.Keys == REGISTER_KEYS ==> RegisterShaped(data)
  }

  /** Whether a phone entry has exactly the keys `ddd` and `number`. */
  predicate PhoneKeysOk(e: Object) {
    e.Keys == PHONE_KEYS
  }

  /** The index of the first `phones` entry whose keys are wrong, if any. */
  function FirstBadPhone(entries: seq<Object>): (r: Option<nat>)
    ensures r.None? <==> forall i :: 0 <= i < |entries| ==> PhoneKeysOk(entries[i])
    ensures r.Some? ==> r.value < |entries| && !PhoneKeysOk(entries[r.value])
                        && forall j :: 0 <= j < r.value ==> PhoneKeysOk(entries[j])
  {
    if entries == [] then None
    else if !PhoneKeysOk(entries[0]) then Some(0)
    else
      var rest := FirstBadPhone(entries[1..]);
      assert forall i :: 1 <= i < |entries| ==> entries[1..][i - 1] == entries[i];
      if rest.None? then None else Some(rest.value + 1)
  }

  /** The first bad entry is the one before which every entry is good. */
  lemma {:induction false} FirstBadPhoneAt(entries: seq<Object>, i: nat)
    requires i < |entries| && !PhoneKeysOk(entries[i])
    requires forall j :: 0 <= j < i ==> PhoneKeysOk(entries[j])
    ensures FirstBadPhone(entries) == Some(i)
  {
    if i > 0 {
      var rest := entries[1..];
      assert PhoneKeysOk(entries[0]);
      assert forall j :: 0 <= j < i - 1 ==> rest[j] == entries[j + 1];
      FirstBadPhoneAt(rest, i - 1);
    }
  }

  /**
   * The validation `register` does first: the top-level keys, then the keys of
   * each phone entry in turn; the first failing check's message is reported.
   */
  function RegisterKeyCheck(data: Payload): (r: KeyCheck)
    requires RegisterWellFormed(data)
    ensures r.Pass? <==> data.Keys == REGISTER_KEYS && FirstBadPhone(data["phones"].items).None?
    ensures data.Keys != REGISTER_KEYS ==> r == TestJsonKeys(REGISTER_KEYS, data.Keys)
    ensures data.Keys == REGISTER_KEYS && FirstBadPhone(data["phones"].items).Some? ==>
              r == TestJsonKeys(PHONE_KEYS, data["phones"].items[FirstBadPhone(data["phones"].items).value].Keys)
  {
    var top := TestJsonKeys(REGISTER_KEYS, data.Keys);
    if top.Fail? then top
    else match FirstBadPhone(data["phones"].items)
      case None => Pass
      case Some(i) => TestJsonKeys(PHONE_KEYS, data["phones"].items[i].Keys)
  }

  /** Whether a phone entry can be inserted: neither column is null. */
  predicate Storable(e: Object) {
    "ddd" in e && "number" in e && e["ddd"].Str? && e["number"].Str?
  }

  predicate AllStorable(entries: seq<Object>) {
    forall i :: 0 <= i < |entries| ==> Storable(entries[i])
  }

  function PhoneRow(owner: string, e: Object): Phone
    requires Storable(e)
  {
    Phone(owner, e["ddd"].s, e["number"].s)
  }

  /** The phone rows the insertion loop creates for `entries`, in order. */
  function NewPhones(owner: string, entries: seq<Object>): (ps: seq<Phone>)
    requires AllStorable(entries)
    ensures |ps| == |entries|
    ensures forall p :: p in ps ==> p.owner == owner
  {
    if entries == [] then []
    else NewPhones(owner, entries[..|entries| - 1]) + [PhoneRow(owner, entries[|entries| - 1])]
  }

  lemma {:induction false} NewPhonesAt(owner: string, entries: seq<Object>, i: int)
    requires AllStorable(entries) && 0 <= i < |entries|
    ensures NewPhones(owner, entries)[i] == PhoneRow(owner, entries[i])
  {
    var n := |entries| - 1;
    if i < n {
      NewPhonesAt(owner, entries[..n], i);
    }
  }

  /** Inserting the next entry's row extends the rows created so far. */
  lemma NewPhonesExtend(owner: string, entries: seq<Object>, k: nat)
    requires k < |entries| && forall j :: 0 <= j <= k ==> Storable(entries[j])
    ensures AllStorable(entries[..k]) && AllStorable(entries[..k + 1])
    ensures NewPhones(owner, entries[..k + 1]) == NewPhones(owner, entries[..k]) + [PhoneRow(owner, entries[k])]
  {
    assert entries[..k + 1][..k] == entries[..k];
  }

  /** The store after a registration that succeeds. */
  function Registered(db: Db, data: Payload, newId: string, token: string, now: Time): Db
    requires data.Keys == REGISTER_KEYS && RegisterShaped(data)
    requires AllStorable(data["phones"].items)
  {
    var email := data["email"].scalar.s;
    var user := NewUser(newId, data["name"].scalar.s, email, email, data["password"].scalar.s, token, now);
    Db(db.users[newId := user], db.phones + NewPhones(newId, data["phones"].items))
  }

  /**
   * What `register` answers, and the store it leaves, for a body `data` on store
   * `db`, given the id the new user would get and the token minted for it.
   */
  function RegisterSpec(db: Db, data: Payload, newId: string, token: string, now: Time): (Response, Db)
    requires RegisterWellFormed(data)
  {
    var check := RegisterKeyCheck(data);
    if check.Fail? then (KeyRejection(check.fragments), db)
    else if newId in db.users || db.UsernameTaken(data["email"].scalar.s) then
      (Refusal(HTTP_400_BAD_REQUEST, EMAIL_EXISTS), db)
    else if !AllStorable(data["phones"].items) then
      (Response(HTTP_400_BAD_REQUEST, Error(IntegrityReport)), db)
    else
      var db' := Registered(db, data, newId, token, now);
      (Response(HTTP_201_CREATED, Profile(ToJSONDict(db'.users[newId], db'.phones))), db')
  }

  /** The conditions under which a registration succeeds. */
  predicate RegisterSucceeds(db: Db, data: Payload, newId: string)
    requires RegisterWellFormed(data)
  {
    && RegisterKeyCheck(data).Pass?
    && newId !in db.users && !db.UsernameTaken(data["email"].scalar.s)
    && AllStorable(data["phones"].items)
  }

  /**
   * Registration answers 201 exactly when the keys are right, the id and the email
   * (as username) are free and every phone can be stored, and then the store gains
   * the new user and its phones; every other answer is a 400 that leaves the store
   * as it was. A key failure reports that check's message.
   */
  lemma RegisterOutcomes(db: Db, data: Payload, newId: string, token: string, now: Time)
    requires RegisterWellFormed(data)
    ensures var (resp, db') := RegisterSpec(db, data, newId, token, now);
      && (resp.status == HTTP_201_CREATED || resp.status == HTTP_400_BAD_REQUEST)
      && (resp.status == HTTP_400_BAD_REQUEST ==> db' == db)
      && (RegisterKeyCheck(data).Fail? ==> resp == KeyRejection(RegisterKeyCheck(data).fragments))
      && (resp == Refusal(HTTP_400_BAD_REQUEST, EMAIL_EXISTS) <==>
            RegisterKeyCheck(data).Pass? && (newId in db.users || db.UsernameTaken(data["email"].scalar.s)))
      && (resp.status == HTTP_201_CREATED <==> RegisterSucceeds(db, data, newId))
      && (resp.status == HTTP_201_CREATED ==>
            db' == Registered(db, data, newId, token, now)
            && resp.body == Profile(ToJSONDict(db'.users[newId], db'.phones)))
  {
  }

  /** A registration keeps the table invariant. */
  lemma RegisterPreservesValid(db: Db, data: Payload, newId: string, token: string, now: Time)
    requires db.Valid() && RegisterWellFormed(data)
    ensures RegisterSpec(db, data, newId, token, now).1.Valid()
  {
  }

  /**
   * After a successful registration the new user's projection has its id, name and
   * email as submitted, the minted token, no last login, and `created` and
   * `modified` both at the time of the request.
   */
  lemma RegisteredProjection(db: Db, data: Payload, newId: string, token: string, now: Time)
    requires data.Keys == REGISTER_KEYS && RegisterShaped(data) && AllStorable(data["phones"].items)
    ensures var db' := Registered(db, data, newId, token, now);
      var proj := ToJSONDict(db'.users[newId], db'.phones);
      && proj.id == newId
      && proj.name == data["name"].scalar.s
      && proj.email == data["email"].scalar.s
      && proj.token == token
      && proj.lastLogin == None
      && proj.created == now && proj.modified == now
  {
  }

  /** The projected views of the rows created for `entries` are the entries' values. */
  lemma NewPhoneViews(owner: string, entries: seq<Object>)
    requires AllStorable(entries)
    ensures |PhoneViews(NewPhones(owner, entries))| == |entries|
    ensures forall i :: 0 <= i < |entries| ==>
              PhoneViews(NewPhones(owner, entries))[i] == PhoneView(entries[i]["ddd"].s, entries[i]["number"].s)
  {
    forall i | 0 <= i < |entries|
      ensures PhoneViews(NewPhones(owner, entries))[i] == PhoneView(entries[i]["ddd"].s, entries[i]["number"].s)
    {
      NewPhonesAt(owner, entries, i);
    }
  }

  /** A user who had no rows owns exactly the rows appended for it. */
  lemma PhonesOfFreshOwner(db: Db, newId: string, created: seq<Phone>)
    requires db.Valid() && newId !in db.users
    requires forall p :: p in created ==> p.owner == newId
    ensures PhonesOf(db.phones + created, newId) == created
  {
    var keep := (p: Phone) => p.owner == newId;
    FilterConcat(db.phones, created, keep);
    FilterKeepsNone(db.phones, keep);
    FilterKeepsAll(created, keep);
  }

  /**
   * After a successful registration the new user's projection lists one phone per
   * submitted entry, in the order submitted, and is null when there were none.
   */
  lemma RegisteredPhones(db: Db, data: Payload, newId: string, token: string, now: Time)
    requires db.Valid() && data.Keys == REGISTER_KEYS && RegisterShaped(data)
    requires newId !in db.users && AllStorable(data["phones"].items)
    ensures var db' := Registered(db, data, newId, token, now);
      var phones := ToJSONDict(db'.users[newId], db'.phones).phones;
      var entries := data["phones"].items;
      && (phones.None? <==> entries == [])
      && (phones.Some? ==>
            |phones.value| == |entries|
            && forall i :: 0 <= i < |entries| ==>
                 phones.value[i] == PhoneView(entries[i]["ddd"].s, entries[i]["number"].s))
  {
    var entries := data["phones"].items;
    var created := NewPhones(newId, entries);
    PhonesOfFreshOwner(db, newId, created);
    NewPhoneViews(newId, entries);
  }

  /**
   * The `try` block of `register` that validates the body: the top-level keys,
   * then each phone entry's keys, stopping at the first `KeyError`.
   */
  method CheckRegisterKeys(data: Payload) returns (check: KeyCheck)
    requires RegisterWellFormed(data)
    ensures check == RegisterKeyCheck(data)
  {
    check := TestJsonKeys(REGISTER_KEYS, data.Keys);
    if check.Fail? {
      return;
    }
    var entries := data["phones"].items;
    var i := 0;
    while i < |entries|
      invariant 0 <= i <= |entries|
      invariant forall j :: 0 <= j < i ==> PhoneKeysOk(entries[j])
      invariant check == Pass
    {
      check := TestJsonKeys(PHONE_KEYS, entries[i].Keys);
      if check.Fail? {
        FirstBadPhoneAt(entries, i);
        return;
      }
      i := i + 1;
    }
  }

  /**
   * The loop of `register` that saves each phone of the user just created; when a
   * phone cannot be saved it deletes that user (and, by the cascade, the phones
   * saved so far), so the store is back to `db`, the state before the user existed.
   */
  method SavePhones(store: Store, newId: string, entries: seq<Object>, ghost db: Db) returns (saved: bool)
    requires store.Valid() && db.Valid() && newId !in db.users && newId in store.users
    requires store.State() == Db(db.users[newId := store.users[newId]], db.phones)
    requires forall i :: 0 <= i < |entries| ==> PhoneKeysOk(entries[i])
    modifies store
    ensures store.Valid()
    ensures saved <==> AllStorable(entries)
    ensures saved ==> store.State() == Db(db.users[newId := old(store.users[newId])], db.phones + NewPhones(newId, entries))
    ensures !saved ==> store.State() == db
  {
    ghost var user := store.users[newId];
    assert db.phones + NewPhones(newId, entries[..0]) == db.phones;
    var k := 0;
    while k < |entries|
      invariant 0 <= k <= |entries|
      invariant forall j :: 0 <= j < k ==> Storable(entries[j])
      invariant store.Valid()
      invariant store.users == db.users[newId := user]
      invariant store.phones == db.phones + NewPhones(newId, entries[..k])
    {
      var phoneOk := store.CreatePhone(newId, entries[k]["ddd"], entries[k]["number"]);
      if !phoneOk {
        store.DeleteUser(newId);
        RollbackRestores(db, user, NewPhones(newId, entries[..k]));
        assert !Storable(entries[k]);
        return false;
      }
      NewPhonesExtend(newId, entries, k);
      assert store.phones == (db.phones + NewPhones(newId, entries[..k])) + [PhoneRow(newId, entries[k])];
      k := k + 1;
    }
    assert entries[..k] == entries;
    saved := true;
  }

  /**
   * `register`: validate the keys, create the user (or report the email as taken),
   * then create its phones one by one, deleting the user again if one fails.
   */
  method Register(store: Store, data: Payload, newId: string, token: string, now: Time) returns (resp: Response)
    requires store.Valid() && RegisterWellFormed(data)
    modifies store
    ensures store.Valid()
    ensures (resp, store.State()) == RegisterSpec(old(store.State()), data, newId, token, now)
  {
    ghost var db := store.State();
    var check := CheckRegisterKeys(data);
    if check.Fail? {
      return KeyRejection(check.fragments);
    }
    var entries := data["phones"].items;
    var email := data["email"].scalar.s;
    var ok := store.CreateUser(newId, data["name"].scalar.s, email, email, data["password"].scalar.s, token, now);
    if !ok {
      assert newId in db.users || db.UsernameTaken(email);
      return Refusal(HTTP_400_BAD_REQUEST, EMAIL_EXISTS);
    }
    var saved := SavePhones(store, newId, entries, db);
    if !saved {
      return Response(HTTP_400_BAD_REQUEST, Error(IntegrityReport));
    }
    assert store.State() == Registered(db, data, newId, token, now);
    resp := Response(HTTP_201_CREATED, Profile(ToJSONDict(store.users[newId], store.phones)));
  }

  // ---------------------------------------------------------------- login

  /** The value shapes `login` relies on once the keys are right. */
  predicate LoginWellFormed(data: Payload) {
    data.Keys == LOGIN_KEYS ==> "email" in data && data["email"].Atom? && "password" in data && data["password"].Atom?
  }

  /** Whether user `id` is the one `User.objects.get(username=name)` finds. */
  predicate HasUsername(db: Db, id: string, name: Scalar) {
    id in db.users && name == Str(db.users[id].username)
  }

  /** What `login` answers, and the store it leaves, for a body `data` at time `now`. */
  ghost function LoginSpec(db: Db, data: Payload, now: Time): (Response, Db)
    requires LoginWellFormed(data)
  {
    var check := TestJsonKeys(LOGIN_KEYS, data.Keys);
    if check.Fail? then (KeyRejection(check.fragments), db)
    else if !exists id :: HasUsername(db, id, data["email"].scalar) then
      (Refusal(HTTP_400_BAD_REQUEST, INVALID_CREDENTIALS), db)
    else
      var id :| HasUsername(db, id, data["email"].scalar);
      if !PasswordMatches(db.users[id].credential, data["password"].scalar) then
        (Refusal(HTTP_401_UNAUTHORIZED, INVALID_CREDENTIALS), db)
      else
        var db' := RefreshLogin(db, id, now);
        (Response(HTTP_200_OK, Profile(ToJSONDict(db'.users[id], db'.phones))), db')
  }

  /** Usernames are unique, so `User.objects.get(username=...)` finds at most one user. */
  lemma UsernameIdentifiesUser(db: Db, a: string, b: string, name: Scalar)
    requires db.Valid() && HasUsername(db, a, name) && HasUsername(db, b, name)
    ensures a == b
  {
  }

  /** The outcome of `login` once the email has found user `id`. */
  lemma LoginOfKnownUser(db: Db, data: Payload, now: Time, id: string)
    requires db.Valid() && LoginWellFormed(data) && data.Keys == LOGIN_KEYS
    requires HasUsername(db, id, data["email"].scalar)
    ensures LoginSpec(db, data, now) ==
      if PasswordMatches(db.users[id].credential, data["password"].scalar) then
        (Response(HTTP_200_OK, Profile(ToJSONDict(RefreshLogin(db, id, now).users[id], db.phones))), RefreshLogin(db, id, now))
      else
        (Refusal(HTTP_401_UNAUTHORIZED, INVALID_CREDENTIALS), db)
  {
    var chosen :| HasUsername(db, chosen, data["email"].scalar) && LoginSpec(db, data, now) ==
      if PasswordMatches(db.users[chosen].credential, data["password"].scalar) then
        (Response(HTTP_200_OK, Profile(ToJSONDict(RefreshLogin(db, chosen, now).users[chosen], db.phones))), RefreshLogin(db, chosen, now))
      else
        (Refusal(HTTP_401_UNAUTHORIZED, INVALID_CREDENTIALS), db);
    UsernameIdentifiesUser(db, chosen, id, data["email"].scalar);
  }

  /**
   * Login outcomes: an unknown email gives 400 and a wrong password 401, with the
   * same text and the store unchanged; the right password gives 200 with the
   * user's projection, and only that user's `last_login` (and `last_modified`)
   * becomes `now`.
   */
  lemma LoginOutcomes(db: Db, data: Payload, now: Time)
    requires db.Valid() && LoginWellFormed(data) && data.Keys == LOGIN_KEYS
    ensures (forall id :: !HasUsername(db, id, data["email"].scalar)) ==>
              LoginSpec(db, data, now) == (Refusal(HTTP_400_BAD_REQUEST, INVALID_CREDENTIALS), db)
    ensures forall id :: HasUsername(db, id, data["email"].scalar) ==>
              var (resp, db') := LoginSpec(db, data, now);
              if PasswordMatches(db.users[id].credential, data["password"].scalar) then
                && resp.status == HTTP_200_OK
                && db'.phones == db.phones
                && db'.users.Keys == db.users.Keys
                && db'.users[id].lastLogin == Some(now)
                && (forall other :: other in db.users && other != id ==> db'.users[other] == db.users[other])
                && resp.body == Profile(ToJSONDict(db'.users[id], db.phones))
              else
                resp == Refusal(HTTP_401_UNAUTHORIZED, INVALID_CREDENTIALS) && db' == db
  {
    forall id | HasUsername(db, id, data["email"].scalar) {
      LoginOfKnownUser(db, data, now, id);
    }
  }

  /**
   * A login body whose keys are not exactly `email` and `password` is answered
   * with 400 and the key check's message, and the store is left unchanged.
   */
  lemma LoginKeyFailure(db: Db, data: Payload, now: Time)
    requires LoginWellFormed(data) && data.Keys != LOGIN_KEYS
    ensures LoginSpec(db, data, now) == (KeyRejection(TestJsonKeys(LOGIN_KEYS, data.Keys).fragments), db)
    ensures LoginSpec(db, data, now).0.status == HTTP_400_BAD_REQUEST
  {
  }

  /**
   * `login`: validate the keys, look the user up by email, check the password
   * (which refreshes `last_login` on success) and answer with the projection.
   */
  method Login(store: Store, data: Payload, now: Time) returns (resp: Response)
    requires store.Valid() && LoginWellFormed(data)
    modifies store
    ensures store.Valid()
    ensures (resp, store.State()) == LoginSpec(old(store.State()), data, now)
  {
    var check := TestJsonKeys(LOGIN_KEYS, data.Keys);
    if check.Fail? {
      return KeyRejection(check.fragments);
    }
    var found := store.FindByUsername(data["email"].scalar);
    if found.None? {
      return Refusal(HTTP_400_BAD_REQUEST, INVALID_CREDENTIALS);
    }
    var id := found.value;
    assert HasUsername(store.State(), id, data["email"].scalar);
    var worked := store.CheckPassword(id, data["password"].scalar, now);
    if !worked {
      return Refusal(HTTP_401_UNAUTHORIZED, INVALID_CREDENTIALS);
    }
    resp := Response(HTTP_200_OK, Profile(ToJSONDict(store.users[id], store.phones)));
  }

  // ---------------------------------------------------------------- profile

  /** Whether a token was presented and a user has both this id and that token. */
  predicate TokenMatches(db: Db, id: string, token: Option<string>) {
    token.Some? && id in db.users && db.users[id].token == token.value
  }

  /**
   * `get_profile`: the answer to a profile request for `id` with the `X-API-Key`
   * header `token` (none when absent) at time `now`. It changes nothing.
   */
  function GetProfile(db: Db, id: string, token: Option<string>, now: Time): (r: Response)
    ensures r.status == HTTP_200_OK || r.status == HTTP_401_UNAUTHORIZED
    ensures r == Refusal(HTTP_401_UNAUTHORIZED, UNAUTHORIZED) <==> !TokenMatches(db, id, token)
    ensures r == Refusal(HTTP_401_UNAUTHORIZED, INVALID_SESSION) <==>
              TokenMatches(db, id, token) && StateOf(db.users[id].lastLogin, now) != Active
    ensures r.status == HTTP_200_OK <==> TokenMatches(db, id, token) && StateOf(db.users[id].lastLogin, now) == Active
    ensures r.status == HTTP_200_OK ==> r.body == Profile(ToJSONDict(db.users[id], db.phones))
  {
    if token.None? then Refusal(HTTP_401_UNAUTHORIZED, UNAUTHORIZED)
    else if !(id in db.users && db.users[id].token == token.value) then Refusal(HTTP_401_UNAUTHORIZED, UNAUTHORIZED)
    else if StateOf(db.users[id].lastLogin, now) != Active then Refusal(HTTP_401_UNAUTHORIZED, INVALID_SESSION)
    else Response(HTTP_200_OK, Profile(ToJSONDict(db.users[id], db.phones)))
  }

  /** A freshly registered user has never logged in, so its profile is refused as an invalid session. */
  lemma RegisteredSessionInvalid(db: Db, data: Payload, newId: string, token: string, now: Time, later: Time)
    requires data.Keys == REGISTER_KEYS && RegisterShaped(data) && AllStorable(data["phones"].items)
    ensures GetProfile(Registered(db, data, newId, token, now), newId, Some(token), later)
            == Refusal(HTTP_401_UNAUTHORIZED, INVALID_SESSION)
  {
  }

  /**
   * After a successful password check at `t`, the profile is served with the
   * user's token for less than 1800 seconds, and refused as an invalid session at
   * exactly 1800 seconds.
   */
  lemma LoginThenProfile(db: Db, id: string, t: Time, now: Time)
    requires id in db.users && 0 <= now - t < MICROS_PER_DAY
    ensures var db' := RefreshLogin(db, id, t);
      var r := GetProfile(db', id, Some(db.users[id].token), now);
      && (now - t < SESSION_SECONDS * MICROS_PER_SECOND ==>
            r == Response(HTTP_200_OK, Profile(ToJSONDict(db'.users[id], db.phones))))
      && (now - t >= SESSION_SECONDS * MICROS_PER_SECOND ==> r == Refusal(HTTP_401_UNAUTHORIZED, INVALID_SESSION))
  {
    StateWithinADay(t, now);
  }

  /**
   * Because only `timedelta.seconds` is compared, a login that is whole days old is
   * served again during the first 1800 seconds of each later day.
   */
  lemma ProfileServedAgainAfterWholeDays(db: Db, id: string, t: Time, days: nat, d: int)
    requires id in db.users && 0 <= d < SESSION_SECONDS * MICROS_PER_SECOND
    ensures GetProfile(RefreshLogin(db, id, t), id, Some(db.users[id].token), t + days * MICROS_PER_DAY + d).status
            == HTTP_200_OK
  {
    ActiveAgainAfterWholeDays(t, days, d);
  }
}
