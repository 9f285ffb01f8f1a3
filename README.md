# User registration, login and profile API — a Dafny model

The system is a small Django REST API with three endpoints. `register` creates a user
and its phones. `login` checks an e-mail and a password. `get_profile` returns a user's
profile when the request carries that user's token and the last login is recent enough.
Every successful answer is the user's *profile projection*, built by `User.toJSONdict`.

This project models the handlers and the user model over an abstract store with two tables:

- `Models.Store` is the store. It is a class with two fields: `users` (a map from id to
  `User`) and `phones` (a sequence of `Phone` rows in insertion order). The ORM
  operations the handlers call update these fields in place: `CreateUser`,
  `CreatePhone`, `DeleteUser` (with the cascade to phones) and `CheckPassword`.
  `FindByUsername` only reads them.
- `Views.Register` and `Views.Login` are methods of the `Views` module that take the
  store as a parameter and change it. They follow the handlers step by step,
  including the loop that inserts phones and the rollback when an insertion fails.
  Each is proved equal to a specification function on the store's value, `Db`:
  `RegisterSpec` and `LoginSpec`. The properties of those functions are then proved
  as lemmas.
- `Views.GetProfile` only reads the store, so it is a function on `Db`.
- `Keys.TestJsonKeys` is the key-set validator. Its error message is modelled as the
  set of its fragments, `Required key: k` and `Invalid key: k`.
- `Session.StateOf` is the session rule of `get_profile`. Time is counted in whole
  microseconds. `Session.TimedeltaSeconds` is Python's `timedelta.seconds`.

Module layout:

| module | file | contents |
|---|---|---|
| `Wrappers` | wrappers.dfy | `Option` |
| `Json` | json.dfy | request bodies: objects of strings or nulls, and lists of objects |
| `Seqs` | seqs.dfy | order-preserving `Filter` (a query with a filter) and its lemmas |
| `Keys` | keys.dfy | `REGISTER_KEYS`, `LOGIN_KEYS`, `PHONE_KEYS`, `TestJsonKeys` |
| `Session` | session.dfy | `timedelta.seconds`, the 1800-second session rule |
| `Models` | models.dfy | `User`, `Phone`, `toJSONdict`, the `Db` invariant, the `Store` class |
| `Views` | views.dfy | `register`, `login` and `get_profile`, with their specifications and lemmas |

Two places where what the code does differs from what its own comments and messages say:

- **Which field is unique.** The step at users/views.py:48 is commented as a test of
  whether the user already exists, and its failure answers "E-mail já existente"
  (users/views.py:58). But the code stores the e-mail as the Django `username`, and
  only `username` carries a unique constraint. So that answer is given when the
  *username* is taken, or when the generated id collides; both raise the same
  `IntegrityError` (users/views.py:49-59). The model follows the code.
- **Session expiry.** The comment at users/views.py:120 says the last login must be
  less than 30 minutes ago. The code compares `delta.seconds >= 1800`
  (users/views.py:123), and `timedelta.seconds` is only the seconds part within the
  last day. So a login that is whole days old reads as active again during the first
  30 minutes of every later day. The model keeps this wrap-around. `Session.StateWithinADay` and `Views.LoginThenProfile` prove the intended
  30-minute reading within one day of the login. `Session.ActiveAgainAfterWholeDays`
  and `Views.ProfileServedAgainAfterWholeDays` prove the daily recurrence.

## Model

| member | source | states |
|---|---|---|
| Keys.TestJsonKeys | users/views.py:17-31 | the check passes exactly when the present keys equal the needed keys; otherwise it fails with a message |
| Keys.ReportsExactlyTheOffendingKeys | users/views.py:21-28 | a failed check's message contains `Required key: k` exactly for the needed keys that are absent, and `Invalid key: k` exactly for the present keys that are not needed, and no other fragment; so it never names a key that is both needed and present |
| Keys.RequiredFragmentInjective | users/views.py:26 | distinct missing keys give distinct `Required key:` fragments |
| Keys.InvalidFragmentInjective | users/views.py:27 | distinct extra keys give distinct `Invalid key:` fragments |
| Keys.FragmentsDistinct | users/views.py:26-27 | a `Required key:` fragment is never an `Invalid key:` fragment |
| Seqs.Filter | users/models.py:18 | the filtered rows are exactly the rows that satisfy the condition, and there are no more of them than rows |
| Seqs.FilterConcat | users/models.py:18 | filtering rows appended after others gives the filtered old rows followed by the filtered new ones, so table order is kept |
| Seqs.FilterMultiset | users/models.py:42 | a filter keeps every occurrence of a kept row and no occurrence of a dropped one |
| Seqs.FilterKeepsAll | users/models.py:42 | a filter that rejects no row leaves the table as it was |
| Session.TimedeltaSeconds | users/views.py:122-123 | `timedelta.seconds` always lies in [0, 86400) |
| Session.TimedeltaSecondsIsNormalForm | users/views.py:122-123 | `timedelta.seconds` is the seconds field of Python's normal form of a difference: days of any sign, seconds in [0, 86400), microseconds in [0, 10^6) |
| Session.StateOf | users/views.py:121-128 | a session counts as never authenticated exactly when `last_login` is null |
| Session.StateWithinADay | users/views.py:121-125 | within a day of the last login, the session is expired exactly when at least 1800 s have elapsed, and active exactly when fewer have |
| Session.StateRecursDaily | users/views.py:122-123 | the session state repeats with a period of one day |
| Session.ActiveAgainAfterWholeDays | users/views.py:122-123 | a last login any whole number of days old reads as active during the first 1800 s of the later day |
| Models.NewUser | users/views.py:50-56 | the definition of the user `create_user` builds: the submitted name, the e-mail as both username and e-mail, the minted token, `date_joined` and `last_modified` at the request time, and a null `last_login` (users/models.py:12) |
| Models.Refreshed | users/models.py:34-36 | the definition of a user after a successful password check: `last_login` and, through `save()`, `last_modified` become the current time |
| Models.ToJSONDict | users/models.py:15-30 | the definition of the profile projection; its properties are stated by `ProjectionCopiesFields` and `ProjectionPhones` |
| Models.ProjectionCopiesFields | users/models.py:21-30 | the projection's `id`, `name` (the first name), `email`, `token`, `created` and `modified` are the user's, and its `last_login` is null exactly when the user's is |
| Models.ProjectionPhones | users/models.py:16-25 | the projection's `phones` is null exactly when the user owns no phone; otherwise it lists one `{ddd, number}` per phone of that user, in table order, and every such phone appears |
| Models.DeleteCascade | users/models.py:42 | the definition of a user deletion with `ON DELETE CASCADE`; its properties are stated by `DeleteRemovesOwnedPhones` and `DeleteKeepsPhoneOrder` |
| Models.RefreshLogin | users/models.py:34-36 | the definition of the tables after a successful password check: only that user's row becomes `Refreshed` |
| Models.DeleteRemovesOwnedPhones | users/models.py:41-42 | deleting a user removes exactly that user and exactly its phones; every other user's row is unchanged; every other phone row survives as many times as it occurred; the table invariant holds |
| Models.DeleteKeepsPhoneOrder | users/models.py:42 | the surviving phones keep table order: for any split of the table, the survivors of the earlier part come before those of the later part |
| Models.RollbackRestores | users/views.py:69-73 | deleting a user who was just inserted, after any of its phones were inserted, restores both tables exactly |
| Models.Store.CreateUser | users/views.py:49-59 | creating a user succeeds exactly when its id and its username are free; on success the store gains that user with no last login and both timestamps at `now`; on failure nothing changes |
| Models.Store.CreatePhone | users/views.py:64-68 | creating a phone succeeds exactly when neither `ddd` nor `number` is null (both columns are NOT NULL); on success the row is appended; otherwise nothing changes |
| Models.Store.DeleteUser | users/views.py:70-71 | the store becomes the cascade deletion of the user, and the invariant holds |
| Models.Store.CheckPassword | users/models.py:32-38 | the result is the password match; on a match only that user changes, with `last_login` and `last_modified` set to `now`; on no match nothing changes |
| Models.Store.FindByUsername | users/views.py:91 | returns a user exactly when the name is a string some user has as username, and that user is the only one with it |
| Views.FirstBadPhone | users/views.py:42-43 | returns none exactly when every phone entry has the keys `ddd` and `number`; otherwise returns the index of the first entry that does not |
| Views.FirstBadPhoneAt | users/views.py:42-43 | an entry with wrong keys, preceded only by good entries, is the one reported |
| Views.RegisterKeyCheck | users/views.py:39-46 | the validation passes exactly when the top-level keys are right and every phone entry's keys are right; wrong top-level keys fail with the top-level check's message; otherwise the first bad phone entry fails with that entry's check's message only |
| Views.CheckRegisterKeys | users/views.py:39-46 | the validation loop returns the check of the top level, or else of the first bad phone entry |
| Views.NewPhones | users/views.py:62-68 | one phone row is created per submitted entry, each owned by the new user |
| Views.NewPhonesAt | users/views.py:62-68 | the i-th created row holds the i-th entry's `ddd` and `number` |
| Views.RegisterSpec | users/views.py:34-75 | the definition of what `register` answers and the store it leaves: key check, then duplicate check, then phone storage, then the 201 projection; its properties are stated by `RegisterOutcomes`, `RegisterPreservesValid`, `RegisteredProjection` and `RegisteredPhones` |
| Views.RegisterOutcomes | users/views.py:34-75 | the answer is 201 or 400; every 400 leaves the store unchanged; a key failure answers with that check's message; "E-mail já existente" is answered exactly when the keys pass and the id or the username is taken; 201 is answered exactly when registration succeeds, and then the store gains the user and its phones and the body is the new user's projection |
| Views.RegisterPreservesValid | users/views.py:48-73 | registration keeps the table invariant |
| Views.RegisteredProjection | users/views.py:50-56 | after a registration the projection has the new id, the submitted name and e-mail, the minted token, no last login, and `created` and `modified` at the request time |
| Views.NewPhoneViews | users/views.py:62-68 | the views of the created rows are the submitted entries' values, one per entry, in order |
| Views.PhonesOfFreshOwner | users/views.py:62-68 | a new user owns exactly the rows appended for it |
| Views.RegisteredPhones | users/views.py:62-75 | after a registration the projection lists one phone per submitted entry, in the order submitted, and is null when none were submitted |
| Views.SavePhones | users/views.py:62-73 | the phone loop saves every entry, exactly when all can be stored, and the store ends with the user and the entries' rows; otherwise it deletes the user and the store ends exactly as before the request |
| Views.Register | users/views.py:34-75 | the `register` handler's answer and new store equal the registration specification, and the invariant holds |
| Views.LoginSpec | users/views.py:78-101 | the definition of what `login` answers and the store it leaves: key check, then lookup by username, then password check; its properties are stated by `LoginKeyFailure`, `LoginOfKnownUser` and `LoginOutcomes` |
| Views.LoginKeyFailure | users/views.py:83-87 | a login body without exactly the keys `email` and `password` gets 400 with the key check's message, and the store is unchanged |
| Views.UsernameIdentifiesUser | users/views.py:91 | at most one user has a given username |
| Views.LoginOfKnownUser | users/views.py:96-101 | once the e-mail finds a user, the right password gives 200 with that user's refreshed projection and store, and a wrong one gives 401 and the same store |
| Views.LoginOutcomes | users/views.py:89-101 | an unknown e-mail gives 400 and a wrong password 401, with the same text "Usuário e/ou senha inválidos" and the store unchanged; the right password gives 200 with the projection, and only that user changes, with `last_login` becoming `now` |
| Views.Login | users/views.py:78-101 | the `login` handler's answer and new store equal the login specification, and the invariant holds |
| Views.GetProfile | users/views.py:104-130 | the answer is 200 or 401; "Não autorizado" exactly when no token was sent or no user has both that id and that token; "Sessão inválida" exactly when the token matches but the session is not active; 200 with the user's projection exactly when it matches and the session is active |
| Views.RegisteredSessionInvalid | users/views.py:126-128 | a freshly registered user's profile is refused as an invalid session, whatever the time |
| Views.LoginThenProfile | users/views.py:120-130 | within a day after a successful login, the profile is served for fewer than 1800 s and refused as an invalid session from 1800 s on |
| Views.ProfileServedAgainAfterWholeDays | users/views.py:122-125 | a login whole days old lets the profile be served again during the first 1800 s of each later day |

## Left out

- Django and DRF plumbing: `@api_view`, request parsing and `Response` objects. A response is a status and a body (an error message or a projection).
- URL routing in python_challenge/users/urls.py: the UUID pattern that admits an `id` to `get_profile` is not a precondition here. Any id string is handled, and an unknown one is answered like a bad token.
- users/admin.py: admin registration only.
- Token minting: `jwt(data, TOKEN_SECRET, 'HS512')` at users/views.py:55 is a `token` parameter of `Register`.
- Password hashing: the stored credential is abstracted to the password it was made from, and a check is equality. A null password never matches.
- UUID generation and `timezone.now()` are parameters: `newId` and `now`. One `now` serves as `date_joined` and as the `auto_now` value of `last_modified`.
- Rendering: the `str()` forms of datetimes and UUIDs are not modelled. Times and ids stay values.
- Rendering of key errors: the order of the fragments, which follows Python's set iteration, is not modelled. Nor are the separators `'; '` and `';'`, or the quoting `str(KeyError)` adds.
- The text of an integrity error raised while inserting a phone is kept opaque, as `IntegrityReport`.
- `max_length` and `blank` on the text columns are not modelled: whether they are enforced depends on the database backend.
- Payload shapes: a body that is not an object, and a `phones` value that is not a list of objects, are not modelled. The source does not handle them either.
- Views.Register: top-level `name`, `email` and `password` values are assumed to be strings once the keys are right, so a null or non-string value there is not modelled.
- Views.Login: `email` and `password` are assumed to be strings or null.
- Models.Store.CreatePhone: phone-entry values that are numbers, booleans, lists or objects are not modelled. The source stores their `str()` form in the text columns and succeeds. Entry values here are strings or null only.
- Models.Store.CreateUser: `create_user`'s normalisation of the e-mail and the username is not modelled. Nor is its rejection of an empty username.
- Models.Store.CheckPassword: Django's rehash of a password stored under an outdated hasher is not modelled.
- Concurrency: concurrent requests and the database's transaction discipline are not modelled. Each handler runs alone on the store.
