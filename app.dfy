/** The SafeHome console: the session guard and the route handlers over the
    `users` and `devices` tables and one client's session. */
module App {
  import opened Text
  import opened Bcrypt
  import opened Web

  /** A `users` row, keyed by its username: the AUTO_INCREMENT id and the
      stored password column. */
  datatype User = User(id: nat, password: string)

  const InvalidCredentials := Flash("Invalid username or password", Danger)
  const FillAllFields := Flash("Please fill all fields.", Warning)
  const PasswordsDiffer := Flash("Passwords do not match.", Danger)
  const UsernameTaken := Flash("Username already exists.", Warning)
  const AccountCreated := Flash("Account created. You can login now.", Success)
  const DeviceAdded := Flash("Device added successfully!", Success)
  const DeviceUpdated := Flash("Device updated successfully.", Success)
  const DeviceNotFound := Flash("Device not found.", Danger)
  const DeviceDeleted := Flash("Device deleted.", Info)
  const LoggedOut := Flash("Logged out successfully.", Info)

  // ------------------ Guard ------------------

  /** `is_logged_in`: the guard looks for the key "user", which no handler
      writes; login writes "user_id". */
  predicate IsLoggedIn(session: Session) {
    "user" in session
  }

  /** `login_required`: the response the wrapper gives instead of running the
      view, or None when the view runs. */
  function LoginRequired(session: Session): (r: Option<Response>)
    ensures r.None? <==> "user" in session
    ensures r.Some? ==> r.value == Redirect(LoginRoute)
  {
    if !IsLoggedIn(session) then Some(Redirect(LoginRoute)) else None
  }

  /** What login stores does not satisfy the guard. */
  lemma LoginKeyMissesGuard(session: Session, id: int)
    ensures IsLoggedIn(session["user_id" := Int(id)]) == IsLoggedIn(session)
  {
    assert "user" != "user_id";
  }

  // ------------------ Registration checks ------------------

  /** The field checks of register, on the stripped fields, in the order the
      handler makes them: an empty field is reported before a mismatch. */
  function CheckRegistration(username: string, password: string, confirm: string): (r: Option<Flash>)
    ensures r == Some(FillAllFields) <==> username == [] || password == []
    ensures r == Some(PasswordsDiffer) <==> username != [] && password != [] && password != confirm
    ensures r == None <==> username != [] && password != [] && password == confirm
  {
    if username == [] || password == [] then Some(FillAllFields)
    else if password != confirm then Some(PasswordsDiffer)
    else None
  }

  /** The row edit_device writes: the stripped fields, the password among
      them stored verbatim. */
  function EditedDevice(form: Form): Device {
    Device(Strip(FormGet(form, "name")), Strip(FormGet(form, "type")), Strip(FormGet(form, "password")))
  }

  /** Every user id comes from the AUTO_INCREMENT counter `next` and no two
      rows share one, and every stored user password is a bcrypt hash. */
  ghost predicate UsersOk(bcrypt: Hasher, users: map<string, User>, next: nat) {
    && (forall name | name in users :: users[name].id < next)
    && (forall a, b | a in users && b in users && a != b :: users[a].id != users[b].id)
    && (forall name | name in users :: bcrypt.IsDigest(users[name].password))
  }

  /** Inserting a new name with the counter's id and a hash keeps the
      invariant once the counter moves on. */
  lemma InsertKeepsUsersOk(bcrypt: Hasher, users: map<string, User>, next: nat,
                           name: string, p: string, salt: Salt)
    requires UsersOk(bcrypt, users, next) && name !in users
    ensures UsersOk(bcrypt, users[name := User(next, bcrypt.hash(p, salt))], next + 1)
  {
    var users' := users[name := User(next, bcrypt.hash(p, salt))];
    assert bcrypt.IsDigest(users'[name].password);
  }

  // ------------------ Application state ------------------

  class SafeHome {
    /** The bcrypt extension. */
    const bcrypt: Hasher
    /** The `users` table, keyed by username. */
    var users: map<string, User>
    /** The `devices` table, keyed by id. */
    var devices: map<nat, Device>
    /** The session of the client issuing the requests. */
    var session: Session
    /** The next AUTO_INCREMENT value of each table. */
    var nextUserId: nat
    var nextDeviceId: nat

    ghost predicate Valid()
      reads this
    {
      bcrypt.Sound() && UsersValid() && DevicesValid()
    }

    /** The users table invariant, see UsersOk. */
    ghost predicate UsersValid()
      reads this`users, this`nextUserId
    {
      UsersOk(bcrypt, users, nextUserId)
    }

    /** Every device id comes from the counter. */
    ghost predicate DevicesValid()
      reads this`devices, this`nextDeviceId
    {
      forall id | id in devices :: id < nextDeviceId
    }

    /** Empty tables whose AUTO_INCREMENT counters start at 1, and the
        session the client presents. */
    constructor (bcrypt: Hasher, session: Session)
      requires bcrypt.Sound()
      ensures Valid()
      ensures this.bcrypt == bcrypt && this.session == session
      ensures users == map[] && devices == map[]
      ensures nextUserId == 1 && nextDeviceId == 1
    {
      this.bcrypt := bcrypt;
      this.session := session;
      users := map[];
      devices := map[];
      nextUserId := 1;
      nextDeviceId := 1;
    }

    /** The credentials `username`/`password` match a row of `users`. */
    ghost predicate Authenticates(username: string, password: string)
      reads this
    {
      username in users && bcrypt.check(users[username].password, password)
    }

    /** POST /login. The fields are used as posted, without stripping. */
    method Login(form: Form) returns (response: Response, flash: Option<Flash>)
      requires Valid()
      modifies this`session
      ensures Valid()
      ensures "user" in session <==> "user" in old(session)
      ensures "username" !in form || "password" !in form ==>
        response == BadRequest && flash == None && session == old(session)
      ensures "username" in form && "password" in form && Authenticates(form["username"], form["password"]) ==>
        && session == old(session)["user_id" := Int(users[form["username"]].id)]
        && response == Redirect(DashboardRoute) && flash == None
      ensures "username" in form && "password" in form && !Authenticates(form["username"], form["password"]) ==>
        session == old(session) && response == Render(LoginPage) && flash == Some(InvalidCredentials)
    {
      if "username" !in form || "password" !in form {
        return BadRequest, None;
      }
      var username := form["username"];
      var password := form["password"];
      var row := if username in users then Some(users[username]) else None;
      if row.Some? && bcrypt.check(row.value.password, password) {
        session := session["user_id" := Int(row.value.id)];
        return Redirect(DashboardRoute), None;
      }
      return Render(LoginPage), Some(InvalidCredentials);
    }

    /** POST /register. `salt` is the salt the hash call draws. */
    method Register(form: Form, salt: Salt) returns (response: Response, flash: Option<Flash>)
      requires Valid()
      modifies this`users, this`nextUserId
      ensures Valid()
      ensures var username := Strip(FormGet(form, "username"));
        var password := Strip(FormGet(form, "password"));
        var confirm := Strip(FormGet(form, "confirm"));
        && (username == [] || password == [] ==>
              && flash == Some(FillAllFields) && response == Redirect(RegisterRoute)
              && users == old(users) && nextUserId == old(nextUserId))
        && (username != [] && password != [] && password != confirm ==>
              && flash == Some(PasswordsDiffer) && response == Redirect(RegisterRoute)
              && users == old(users) && nextUserId == old(nextUserId))
        && (username != [] && password != [] && password == confirm && username in old(users) ==>
              && flash == Some(UsernameTaken) && response == Redirect(RegisterRoute)
              && users == old(users) && nextUserId == old(nextUserId))
        && (username != [] && password != [] && password == confirm && username !in old(users) ==>
              && users == old(users)[username := User(old(nextUserId), bcrypt.hash(password, salt))]
              && nextUserId == old(nextUserId) + 1
              && |users| == |old(users)| + 1
              && bcrypt.check(users[username].password, password)
              && flash == Some(AccountCreated) && response == Redirect(LoginRoute))
    {
      var username := Strip(FormGet(form, "username"));
      var password := Strip(FormGet(form, "password"));
      var confirm := Strip(FormGet(form, "confirm"));
      var invalid := CheckRegistration(username, password, confirm);
      if invalid.Some? {
        return Redirect(RegisterRoute), invalid;
      }
      if username in users {
        return Redirect(RegisterRoute), Some(UsernameTaken);
      }
      var hashed := bcrypt.hash(password, salt);
      InsertKeepsUsersOk(bcrypt, users, nextUserId, username, password, salt);
      users := users[username := User(nextUserId, hashed)];
      nextUserId := nextUserId + 1;
      return Redirect(LoginRoute), Some(AccountCreated);
    }

    /** GET /dashboard. */
    method Dashboard() returns (response: Response)
      ensures !IsLoggedIn(session) ==> response == Redirect(LoginRoute)
      ensures IsLoggedIn(session) ==> response == Render(DashboardPage(Some(session["user"])))
    {
      var rejected := LoginRequired(session);
      if rejected.Some? {
        return rejected.value;
      }
      return Render(DashboardPage(if "user" in session then Some(session["user"]) else None));
    }

    /** GET /devices: every row, password column included. */
    method Devices() returns (response: Response)
      ensures !IsLoggedIn(session) ==> response == Redirect(LoginRoute)
      ensures IsLoggedIn(session) ==> response == Render(DevicesPage(devices))
    {
      var rejected := LoginRequired(session);
      if rejected.Some? {
        return rejected.value;
      }
      return Render(DevicesPage(devices));
    }

    /** POST /add_device. This handler has its own check, on "user_id". The
        posted password is neither stripped nor checked, and the hash call
        raises on an empty one, so that request ends in a 500 with no row. */
    method AddDevice(form: Form, salt: Salt) returns (response: Response, flash: Option<Flash>)
      requires Valid()
      modifies this`devices, this`nextDeviceId
      ensures Valid()
      ensures "user_id" !in session ==>
        && response == Redirect(LoginRoute) && flash == None
        && devices == old(devices) && nextDeviceId == old(nextDeviceId)
      ensures "user_id" in session && ("name" !in form || "type" !in form || "password" !in form) ==>
        && response == BadRequest && flash == None
        && devices == old(devices) && nextDeviceId == old(nextDeviceId)
      ensures "user_id" in session && "name" in form && "type" in form && "password" in form && form["password"] == [] ==>
        && response == ServerError && flash == None
        && devices == old(devices) && nextDeviceId == old(nextDeviceId)
      ensures "user_id" in session && "name" in form && "type" in form && "password" in form && form["password"] != [] ==>
        && old(nextDeviceId) !in old(devices)
        && devices == old(devices)[old(nextDeviceId) :=
             Device(form["name"], form["type"], bcrypt.hash(form["password"], salt))]
        && nextDeviceId == old(nextDeviceId) + 1
        && |devices| == |old(devices)| + 1
        && bcrypt.check(devices[old(nextDeviceId)].password, form["password"])
        && response == Redirect(DevicesRoute) && flash == Some(DeviceAdded)
    {
      if "user_id" !in session {
        return Redirect(LoginRoute), None;
      }
      if "name" !in form || "type" !in form || "password" !in form {
        return BadRequest, None;
      }
      if form["password"] == [] {
        return ServerError, None;
      }
      var hashed := bcrypt.hash(form["password"], salt);
      devices := devices[nextDeviceId := Device(form["name"], form["type"], hashed)];
      nextDeviceId := nextDeviceId + 1;
      return Redirect(DevicesRoute), Some(DeviceAdded);
    }

    /** GET /edit_device/<id>: the form for one device. */
    method EditDeviceForm(id: nat) returns (response: Response, flash: Option<Flash>)
      ensures !IsLoggedIn(session) ==> response == Redirect(LoginRoute) && flash == None
      ensures IsLoggedIn(session) && id in devices ==>
        response == Render(EditDevicePage(id, devices[id])) && flash == None
      ensures IsLoggedIn(session) && id !in devices ==>
        response == Redirect(DevicesRoute) && flash == Some(DeviceNotFound)
    {
      var rejected := LoginRequired(session);
      if rejected.Some? {
        return rejected.value, None;
      }
      if id !in devices {
        return Redirect(DevicesRoute), Some(DeviceNotFound);
      }
      return Render(EditDevicePage(id, devices[id])), None;
    }

    /** POST /edit_device/<id>. The new password is stored as posted (after
        stripping), not hashed; an absent id updates no row and is still
        reported as a success. */
    method EditDevice(id: nat, form: Form) returns (response: Response, flash: Option<Flash>)
      requires Valid()
      modifies this`devices
      ensures Valid()
      ensures !IsLoggedIn(session) ==>
        response == Redirect(LoginRoute) && flash == None && devices == old(devices)
      ensures IsLoggedIn(session) ==>
        && response == Redirect(DevicesRoute) && flash == Some(DeviceUpdated)
        && devices == (if id in old(devices) then old(devices)[id := EditedDevice(form)] else old(devices))
    {
      var rejected := LoginRequired(session);
      if rejected.Some? {
        return rejected.value, None;
      }
      if id in devices {
        devices := devices[id := EditedDevice(form)];
      }
      return Redirect(DevicesRoute), Some(DeviceUpdated);
    }

    /** GET /delete_device/<id>. Deleting an absent id is not an error. */
    method DeleteDevice(id: nat) returns (response: Response, flash: Option<Flash>)
      requires Valid()
      modifies this`devices
      ensures Valid()
      ensures !IsLoggedIn(session) ==>
        response == Redirect(LoginRoute) && flash == None && devices == old(devices)
      ensures IsLoggedIn(session) ==>
        && devices == old(devices) - {id} && id !in devices
        && response == Redirect(DevicesRoute) && flash == Some(DeviceDeleted)
    {
      var rejected := LoginRequired(session);
      if rejected.Some? {
        return rejected.value, None;
      }
      devices := devices - {id};
      return Redirect(DevicesRoute), Some(DeviceDeleted);
    }

    /** GET /tips. */
    method Tips() returns (response: Response)
      ensures !IsLoggedIn(session) ==> response == Redirect(LoginRoute)
      ensures IsLoggedIn(session) ==> response == Render(TipsPage)
    {
      var rejected := LoginRequired(session);
      if rejected.Some? {
        return rejected.value;
      }
      return Render(TipsPage);
    }

    /** GET /logout: drops "user" only, whether or not it was there. */
    method Logout() returns (response: Response, flash: Option<Flash>)
      requires Valid()
      modifies this`session
      ensures Valid()
      ensures session == old(session) - {"user"}
      ensures !IsLoggedIn(session)
      ensures "user_id" in old(session) ==> "user_id" in session && session["user_id"] == old(session)["user_id"]
      ensures response == Redirect(LoginRoute) && flash == Some(LoggedOut)
    {
      session := session - {"user"};
      return Redirect(LoginRoute), Some(LoggedOut);
    }
  }
}
