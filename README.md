# SafeHome device console, modelled in Dafny

SafeHome is a small Flask console for managing a shared list of IoT
devices. Users register, log in and then add, edit, list and delete
devices. Each device carries a name, a type and its own password. This
project models the request handlers of `backend/app.py` as operations on
three pieces of state, and proves what each handler does to them:

- the `users` table, keyed by username, holding the AUTO_INCREMENT id and
  the stored bcrypt hash;
- the `devices` table, keyed by id, holding name, type and the stored
  password column;
- the session of the client sending the requests, a map from string keys
  to values.

Files:

- `text.dfy` (module `Text`): Python's `str.strip()`, with Python's
  `isspace` character set. It comes with its declarative meaning: a slice
  with no whitespace at either end, where everything cut away is whitespace.
  The lemmas prove that `Strip` meets that meaning, that nothing else does,
  and that stripping twice is stripping once.
- `bcrypt.dfy` (module `Bcrypt`): the password hasher as a pair of
  functions `hash(password, salt)` and `check(stored, password)`. The only
  thing known about them is bcrypt's law `check(hash(p, salt), p)` for
  every non-empty password `p` (`Hasher.Sound`); `generate_password_hash`
  raises on an empty one. That law is a precondition of the application's
  constructor and part of its invariant, so the functions stay otherwise
  uninterpreted. The salt that `generate_password_hash` draws at random is
  a parameter.
- `web.dfy` (module `Web`): the Flask-side values. These are the session
  and form maps, `request.form.get(key, "")`, flashed messages with their
  categories (success, info, warning, danger), and the response a handler
  returns. A response is a redirect to a route, a rendered page with its
  data, the 400 answer Flask gives outside debug mode when
  `request.form[key]` names a missing field, or the 500 answer it gives
  when a handler raises.
- `app.dfy` (module `App`): the `login_required` guard and the class
  `SafeHome`, with one method per route. Each method returns a response
  and at most one flashed message. A guard redirect, a 400 or a 500
  flashes nothing and changes nothing; otherwise the postcondition states
  the new tables or session. The class
  invariant says that user ids come from the counter and are unique, that
  every stored user password is a bcrypt hash, and that device ids come
  from their counter.
- `scenarios.dfy` (module `Scenarios`): short request sequences against
  fresh tables that show how the handlers combine.

The session keys are modelled exactly as the source writes them:

- login stores `"user_id"` (`backend/app.py:50`);
- the `login_required` guard looks for `"user"` (`backend/app.py:21`);
- `add_device` looks for `"user_id"` (`backend/app.py:128`);
- logout removes only `"user"` (`backend/app.py:225`).

No handler ever adds `"user"`. So a successful login does not open the
guarded pages (`LoginThenDashboard`), and logout does not close
`add_device` (`LogoutThenAdd`). The constructor takes the session the
client presents, so that the guarded branches can be reached at all.

Four behaviours of the code stand out, and the model keeps each of them
as written:

- add-device hashes the device password, but edit-device stores the new
  one verbatim, only stripped;
- editing an absent device id changes nothing and still reports "Device
  updated successfully." as a success (only the GET form of edit-device
  reports "Device not found.");
- the device list page receives every device row, password column
  included;
- login looks the username up as posted, while register strips it first.

## Model

| member | source | states |
|---|---|---|
| `Text.StripSound` | backend/app.py:63-65 | `.strip()` returns a slice of its input with no whitespace at either end, and everything it cuts away is whitespace in Python's `isspace` sense |
| `Text.StripUnique` | backend/app.py:168-170 | any slice with that property is `Strip`'s result, so `Strip` is exactly Python's `strip` |
| `Text.StripTrimmed` | backend/app.py:63-65 | a string with no whitespace at either end strips to itself |
| `Text.StripIdempotent` | backend/app.py:63-65 | stripping a stripped field changes nothing |
| `App.LoginRequired` | backend/app.py:20-29 | the wrapper runs the view exactly when key `"user"` is in the session, and otherwise answers with a redirect to login |
| `App.LoginKeyMissesGuard` | backend/app.py:50 | storing `"user_id"` at login leaves the guard's verdict unchanged |
| `App.CheckRegistration` | backend/app.py:67-73 | an empty stripped username or password gives the "warning" message; only when both are filled does a password/confirm mismatch give "danger"; otherwise the form passes |
| `App.InsertKeepsUsersOk` | backend/app.py:87-91 | inserting a new username with the next id and a bcrypt hash keeps ids unique and every stored user password a hash |
| `App.SafeHome.Login` | backend/app.py:35-55 | a missing field gives 400 and no change; the session gains `"user_id"` = the user's id exactly when the username exists and `check(stored, password)` holds; an unknown user and a wrong password get the same "Invalid username or password"/danger answer and leave the session as it was; `"user"` is never added |
| `App.SafeHome.Register` | backend/app.py:59-99 | on the stripped fields: empty field gives warning, mismatch gives danger, existing username gives warning, each with `users` and the id counter unchanged; otherwise exactly one row is added under the stripped username, with the next id and `hash(password, salt)` (which verifies against the password), the counter moves on by one, and every other row is kept |
| `App.SafeHome.Dashboard` | backend/app.py:102-108 | without `"user"` the answer is a redirect to login; with it the dashboard is rendered with `session["user"]` |
| `App.SafeHome.Devices` | backend/app.py:111-124 | without `"user"` the answer is a redirect to login; with it the page receives the whole `devices` table |
| `App.SafeHome.AddDevice` | backend/app.py:126-154 | without `"user_id"` nothing changes and the client is sent to login; a missing field gives 400 and no change; an empty password makes the hash call raise, a 500 with no change; otherwise exactly one device is inserted under an id not in use before, storing `hash(password, salt)`, the id counter moves on by one, and all other devices are kept |
| `App.SafeHome.EditDeviceForm` | backend/app.py:182-192 | guarded by `"user"`; renders the device when the id exists, otherwise redirects to the list with "Device not found."/danger |
| `App.SafeHome.EditDevice` | backend/app.py:158-180 | guarded by `"user"`, with no change when it fails; otherwise an existing id gets the stripped name, type and password, the password stored verbatim; an absent id changes nothing; other devices are kept; the answer is "updated"/success either way |
| `App.SafeHome.DeleteDevice` | backend/app.py:195-208 | guarded by `"user"`; removes the id if present and nothing else, answering "Device deleted."/info whether or not it was there |
| `App.SafeHome.Tips` | backend/app.py:211-217 | without `"user"` the answer is a redirect to login; with it the tips page is rendered |
| `App.SafeHome.Logout` | backend/app.py:220-227 | removes only `"user"` from the session, so `"user_id"` and its value survive; answers "Logged out successfully."/info |
| `Scenarios.RegisterTwice` | backend/app.py:79-85 | registering a taken username is refused with a warning, and the first row and its hash stay |
| `Scenarios.UnknownUser` | backend/app.py:43-53 | logging in as an unregistered user renders the login page with the generic danger message |
| `Scenarios.LoginThenDashboard` | backend/app.py:20-53 | a correct login redirects to the dashboard, and the dashboard then redirects back to login |
| `Scenarios.LogoutThenAdd` | backend/app.py:220-227 | after logout the device list redirects to login, but `add_device` still inserts a device: the table then holds one row |
| `Scenarios.AddThenEdit` | backend/app.py:126-180 | a device added with password `s3cr3t` stores a hash that verifies against it; editing it with ` n3w ` stores `n3w` itself |
| `Scenarios.EmptyDevicePassword` | backend/app.py:134-140 | a device posted with an empty password gets a 500 and leaves the table empty |
| `Scenarios.DeleteTwice` | backend/app.py:195-208 | deleting the same device twice gives the same answer both times and leaves the table empty |

## Left out

- Page rendering, `url_for` targets beyond a route tag, and the GET
  branches of login, register and add-device, which only render a form.
  These are presentation.
- Flask stores flashed messages in the session cookie. The model returns
  each flash beside the response and keeps it out of the session map.
- Database connections, cursors, commits, SQL text and storage failures.
  Each query is a map lookup, insert, update or delete.
- The collation of the `users.username` column is not part of this model.
  Lookups are exact string matches.
- Ids are unbounded naturals. The model does not capture the width or
  wrap-around of the AUTO_INCREMENT columns.
- bcrypt itself: salting, cost, the digest format, constant-time comparison,
  and the 72-byte password limit. The hasher is any pair of functions obeying
  `check(hash(p, salt), p)` for every non-empty `p`. Register rules the
  empty password out before hashing; in add-device the hash call raises on
  it, which the model returns as a 500. So the model does not prove that a wrong
  password fails `check`, and no scenario tries one.
- `check_password_hash` raising on a malformed stored hash. The invariant
  keeps every stored user password a hash, so this path cannot be reached.
- The race between the duplicate check and the insert in register. It is a
  concurrency matter with no meaning in a sequential model.
- The application's configuration: `BASE_DIR`, the hard-coded secret key,
  and `app.run`. Cookie signing and session expiry are also left out. The
  session is the map the client presents at construction.
- Debug mode. `app.run(debug=True)` makes Flask trap the missing-field
  `KeyError` of `request.form[key]` as an unhandled exception instead of a
  400; either way nothing changes, and the model answers `BadRequest`.
- `request.form` as a multi-dict. A form is a map with one value per
  field.
- The order of the rows the device list receives. The page gets the table
  as a map.
