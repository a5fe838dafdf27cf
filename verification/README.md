# Clinic API: authorization and record handling

A Dafny model of the request-handling core of a small clinic-management REST
backend (FastAPI over SQLite). It covers:

- **Access tokens** (`auth.dfy`, module `Auth`). `create_access_token` copies the
  caller's claims and sets `exp` to 30 minutes after the issue time.
  `get_current_user` decodes a bearer token into a `User(id, role)` or a 401
  "Invalid token". JWT signing is abstract. A token carries its header algorithm,
  its claims and a symbolic HMAC, and only the signing key reproduces that HMAC.
  `Decode` accepts a token only if the algorithm is HS256, the MAC belongs to the
  key, and any `exp` is an integer later than the clock. The clock and the key are
  parameters.
- **Python's `int()` and `str()`** on the `sub` claim (`pyint.dfy`, module
  `PyInt`). `int()` strips white space, takes an optional sign, accepts digits
  grouped by single underscores, and refuses more than 4300 digits. It is proved
  to invert `str()` within that limit, so on every 64-bit id.
- **Role gates** (`gates.dfy`, module `Gates`). A decision function over
  (role, endpoint):
  - listing patients, creating doctors and creating staff are for "staff" only;
  - creating prescriptions is for "doctor" only;
  - creating appointments is for "patient" or "staff";
  - every other handler has no role check.
- **The store and its handlers** (`tables.dfy`, `clinic.dfy`). `Tables.Table` is
  one SQLite table with `AUTOINCREMENT`. It holds rows by rowid and the table's
  `sqlite_sequence` value, so a rowid is never reused. `Clinic.Store` holds the
  five tables and the signing key, with one method per state-changing handler and
  one function per read handler. Each handler applies its role gate first, then
  inserts, selects, updates or deletes. It answers 404 when the id is absent. An
  integer parameter outside signed 64 bits (a path id, a body's `patient_id` or
  `doctor_id`, or the caller's id in the appointment listing) makes the sqlite3
  driver raise OverflowError before the statement runs; the model gives that
  outcome and changes nothing. The by-id handlers for patients and appointments
  take no caller, exactly as the source marks them (`# BOLA: No authorization
  check`). For the two by-id GETs, lemmas show that they hand a row to a caller
  the ownership rule would refuse. The update and delete handlers take no caller
  either and change the row for any request; their signatures show this, and
  no lemma about them compares callers. The appointment listing does keep that rule for the three named roles.

`http.dfy` holds the handler outcome type (a value, an `HTTPException` with
status and detail, or an exception that escapes the handler and becomes a 500).
`wrappers.dfy` holds `Option`.

The code's access rules have these quirks, which the model keeps:

- roles are arbitrary strings, not an enumeration;
- "staff" may not create prescriptions, so no role passes every gate;
- every token failure is the same 401 "Invalid token", with no separate
  expired/invalid/missing-claim kinds, and a `sub` that `int()` rejects escapes as
  a ValueError (500) instead of becoming a 401;
- a patient may book an appointment for any `patient_id`;
- the by-id patient and appointment handlers check no ownership at all.

Four client methods, `Clinic.RegisterThenList`, `Clinic.BookThenList`,
`Clinic.HireThenFetch` and `Clinic.DeleteTwice`, walk end-to-end request
sequences through the contracts. Registering "Alice" yields id 1, and staff see
her without a password. Patient 1 books with doctor 2: both see exactly that
appointment, and patient 3 sees none. A doctor added by staff is fetched by id;
the next id is a 404. A second delete of a patient is a 404.

## Model

| member | source | states |
|---|---|---|
| `Auth.Encode` | app/auth.py:21 | a token decodes only under the key that signed it; under that key it yields exactly the claims given, at every time when there is no `exp` |
| `Auth.CreateAccessToken` | app/auth.py:17-22 | the token decodes to the caller's claims plus `exp` at every time before issue + 30 min, and is expired at every time from then on |
| `Auth.IssueClaims` | app/auth.py:17-20 | the signed claims are the caller's claims plus `exp`; `exp` is issue time + 30 min, overwriting any `exp` the caller gave, and every other claim is kept unchanged |
| `Auth.Decode` | app/auth.py:26 | decoding succeeds exactly for an HS256 token whose MAC belongs to the key and whose `exp`, if present, is an integer later than now; on success it yields the token's own claims |
| `Auth.GetCurrentUser` | app/auth.py:24-33 | any decode failure, or a payload lacking `sub` or `role`, gives 401 "Invalid token" and nothing else does; a success carries `id = int(sub)` and the role string unchanged |
| `Auth.TokenRoundTrip` | app/auth.py:17-31 | a token minted for `{"sub": str(n), "role": r}` authenticates as `User(n, r)` at any time before it expires, for any role string |
| `Auth.TokenExpires` | app/auth.py:9 | 30 minutes (1800 s) after issue, the same token gives 401 |
| `Auth.ForeignKeyRejected` | app/auth.py:26 | a token signed under another key gives 401 |
| `Auth.TamperedRejected` | app/auth.py:26 | changing a signed token's claims or header algorithm without re-signing gives 401 |
| `Auth.NonIntegerSubjectEscapes` | app/auth.py:31-33 | a valid, unexpired token whose `sub` is not a base-10 integer is not a 401: `int()` raises ValueError, which the `except jwt.PyJWTError` does not catch |
| `Auth.EmptySubjectEscapes` | app/auth.py:29-31 | an empty `sub` passes the `is None` check and then escapes as ValueError |
| `PyInt.Str` | app/main.py:61 | `str(n)` is at least one character, a leading `-` exactly for negative `n`, otherwise decimal digits, with no leading zero after the sign |
| `PyInt.Parse` | app/auth.py:31 | `int("")` raises; a string of at most 4300 decimal digits gives their value |
| `PyInt.Int64DigitsFit` | app/auth.py:31 | every signed 64-bit integer, so every rowid, has at most 19 digits and `str(n)` at most 20 characters, well inside the 4300-digit limit of `int()` |
| `PyInt.ParseStr` | app/auth.py:31 | `int(str(n)) == n` for every integer within the 4300-digit limit of `int()` (so for every 64-bit id), negative ones included |
| `PyInt.TooManyDigitsRejected` | app/auth.py:31 | more than 4300 decimal digits make `int()` raise ValueError |
| `PyInt.SeparatorRejected` | app/auth.py:31 | for every ASCII separator c in U+001C..U+001F, `int(c + "1")` raises: those characters are not white space to `int()` |
| `PyInt.BlankRejected` | app/auth.py:31 | `int()` of the empty string, or of white space alone, raises |
| `Gates.Gate` | app/main.py:66-203 | listing patients, creating doctors and creating staff are allowed iff role == "staff"; prescriptions iff role == "doctor"; appointments iff role is "patient" or "staff"; only handlers that take a token ever deny |
| `Gates.UngatedForEveryRole` | app/main.py:73-104 | handlers without a role check, including the by-id patient and appointment handlers, allow every role alike |
| `Gates.NoRolePassesEveryGate` | app/main.py:202-203 | no role passes every gate; even "staff" cannot create a prescription |
| `Gates.UnknownRoleGated` | app/main.py:66-203 | a role outside patient/doctor/staff passes exactly the ungated handlers |
| `Tables.Table.constructor` | app/database.py:14-54 | a new table has no rows and has handed out no rowid |
| `Tables.Table.Ids` | app/main.py:69-70 | a full scan yields every rowid present, each once, in ascending order |
| `Tables.IdsWhere` | app/main.py:145-151 | the filtered scan yields, in ascending order, exactly the rowids in range whose row passes the filter |
| `Tables.Table.Insert` | app/main.py:55-59 | the new row gets the rowid after the largest ever handed out, which was never issued before and becomes the table's `sqlite_sequence` value; at the 64-bit maximum the insert fails and nothing changes |
| `Tables.Table.Update` | app/main.py:87-92 | rowcount is 1 iff the id is present; the SET clause rewrites that row only |
| `Tables.Table.Delete` | app/main.py:100-102 | rowcount is 1 iff the id is present; afterwards the id is absent and every other row is unchanged |
| `Clinic.Store.constructor` | app/database.py:14-54 | a fresh database has five fresh, empty tables |
| `Clinic.Store.CreatePatient` | app/main.py:51-62 | no role check; exactly one row is added under a never-issued id, holding the body's fields and the password's digest, and that id becomes the table's `sqlite_sequence` value; the answer is that id, a token with `sub = str(id)` and `role = "patient"`, and "bearer"; a full table raises and nothing changes |
| `Clinic.Store.GetPatients` | app/main.py:64-71 | 403 iff role != "staff"; otherwise every patient, in rowid order, as name/date_of_birth/phone/address without the password |
| `Clinic.Store.GetPatient` | app/main.py:73-81 | an id outside 64 bits raises OverflowError; otherwise 404 exactly when no row has the id, else that row without its password |
| `Clinic.Store.UpdatePatient` | app/main.py:83-94 | an id outside 64 bits raises and nothing changes; otherwise 404 and no change iff the id is absent; otherwise that row's four fields become the body, its password is kept, every other row is unchanged, and the body is echoed |
| `Clinic.Store.DeletePatient` | app/main.py:96-104 | an id outside 64 bits raises; otherwise 404 iff the id is absent; only that row is ever removed, so a second delete of the id is a 404 |
| `Clinic.Store.CreateDoctor` | app/main.py:106-114 | non-staff get 403 and the table is unchanged; staff add exactly one row under a never-issued id, which becomes the `sqlite_sequence` value, and get that id |
| `Clinic.Store.GetDoctors` | app/main.py:116-121 | every doctor, in rowid order, for any caller |
| `Clinic.Store.GetDoctor` | app/main.py:123-130 | an id outside 64 bits raises OverflowError; otherwise 404 exactly when no row has the id, else that row |
| `Clinic.Store.CreateStaff` | app/main.py:132-140 | non-staff get 403 and the table is unchanged; staff add exactly one row under a never-issued id, which becomes the `sqlite_sequence` value, and get that id |
| `Clinic.Store.VisibleAppointmentIds` | app/main.py:145-150 | for role "patient", exactly the appointments whose patient_id is the caller's id; for "doctor", those whose doctor_id is; for any other role, all; ascending |
| `Clinic.Store.GetAppointments` | app/main.py:142-152 | a patient or doctor caller whose id is outside 64 bits raises OverflowError, and nothing else raises; otherwise the listing is the visible appointments in id order, and every row in it is visible to the caller |
| `Clinic.Store.GetAppointment` | app/main.py:154-162 | an id outside 64 bits raises OverflowError; otherwise 404 exactly when no row has the id, else that row |
| `Clinic.Store.CreateAppointment` | app/main.py:164-175 | roles other than patient and staff get 403 and the table is unchanged; then a body id outside 64 bits raises and nothing changes; otherwise the body is stored as given, whatever its patient_id, under a never-issued id that becomes the `sqlite_sequence` value and is returned |
| `Clinic.Store.UpdateAppointment` | app/main.py:177-188 | an id or body id outside 64 bits raises and nothing changes; otherwise 404 and no change iff the id is absent; otherwise that row becomes the body, every other row is unchanged, and the body is echoed |
| `Clinic.Store.DeleteAppointment` | app/main.py:190-198 | an id outside 64 bits raises; otherwise 404 iff the id is absent; only that row is ever removed |
| `Clinic.Store.CreatePrescription` | app/main.py:200-211 | non-doctors get 403 and the table is unchanged; then a body id outside 64 bits raises and nothing changes; otherwise doctors add exactly one row under a never-issued id, which becomes the `sqlite_sequence` value, and get that id |
| `Clinic.GetPatientBreaksOwnership` | app/main.py:73-81 | once a patient row exists, some caller who is neither staff nor that patient still receives it |
| `Clinic.GetAppointmentBreaksOwnership` | app/main.py:154-162 | once an appointment exists, a patient who is not its patient still receives it |
| `Clinic.ListingRespectsOwnership` | app/main.py:145-150 | for the roles patient, doctor and staff, every appointment in a listing that succeeds is one the caller owns or may see |
| `Clinic.OtherRolesSeeEveryAppointment` | app/main.py:149-150 | any role other than patient or doctor, even one that names no role, gets the whole unfiltered table, whatever its id |
| `Clinic.RegisteredPatientCannotListPatients` | app/main.py:61-67 | a registration token authenticates as that patient until it expires, and that caller gets 403 from the patient listing |

## Left out

- HS256 and the JWT wire format are abstract. The MAC is a symbolic value that is equal only for equal algorithm, claims and key, so forgery and collisions are ruled out by construction.
- `Clinic.Hash`: bcrypt (`CryptContext`) is a symbolic digest `Bcrypt(password)`, so collisions are ruled out by construction, as for the MAC. Salting (equal passwords give different digests), the truncation of passwords after 72 bytes and the digest's text are not modelled. The source never verifies a password, so no property of the digest is stated; the model only shows that the digest is stored and never returned.
- The SQLite connection lifecycle and `init_db` are left out, because they are I/O and setup. The store starts with five empty tables; reopening an existing database file is not modelled.
- FastAPI routing, `Depends`, `async` and `OAuth2PasswordBearer` header extraction are HTTP plumbing. Handlers that depend on the current user take the `User` that `get_current_user` produced.
- Pydantic validation of request bodies (a 422 for a malformed body) is left out. Bodies are already typed values.
- Concurrency is left out: requests are handled one at a time, each statement atomic.
- `datetime.utcnow()` is an integer parameter counting Unix seconds. The truncation of fractional seconds when PyJWT turns `exp` into an integer is not modelled.
- `create_access_token` copying its argument needs no member. Dafny maps are values, so the caller's claims can never change.
- The by-id handlers taking no caller is shown by their signatures, which have no caller parameter. It is not shown by a lemma comparing callers.
- `Clinic.Store.GetPatients`, `Clinic.Store.GetDoctors`, `Clinic.Store.GetAppointments`: SQL gives the unordered SELECTs no order. The model fixes ascending rowid order, the order of SQLite's full scan.
- `PyInt.Parse`: `int()` also accepts non-ASCII Unicode decimal digits. `PyInt.Parse` rejects them.
- `Auth.GetCurrentUser`: claim values are strings, integers or null. JSON floats, booleans, arrays and objects are not modelled. A non-string `role` fails `User` validation as in Pydantic 2; Pydantic 1 would coerce a number to a string.
- `Auth.Decode`: PyJWT accepts an `exp` that `int()` can convert, and fails differently on `exp: null`. The model treats every non-integer `exp` as a decode failure. The `nbf`, `iat`, `aud` and `iss` checks are left out (the source never sets them), and so is the `sub` type check of recent PyJWT versions.
- `PyInt.Str`: `str()` of an integer beyond 4300 digits raises ValueError in Python; that case is not modelled, because the source only converts rowids, which have at most 19 digits.
- `PyInt.Parse`: the contract states the empty and the all-digit cases; signs, white space and underscores are stated only through `PyInt.ParseStr` and `PyInt.BlankRejected`.
- Appointment and prescription bodies may name patients and doctors that do not exist. The schema declares no foreign keys, and the model stores such bodies as given.
