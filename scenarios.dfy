/** Short request sequences against fresh tables, showing what the handlers
    do together: the session keys they read and write, and the password
    columns under register, add and edit. */
module Scenarios {
  import opened Text
  import opened Bcrypt
  import opened Web
  import opened App

  /** The register form for `name` with password and confirmation `p`. */
  function RegisterForm(name: string, p: string): Form {
    map["username" := name, "password" := p, "confirm" := p]
  }

  /** The login form. */
  function LoginForm(name: string, p: string): Form {
    map["username" := name, "password" := p]
  }

  /** The add-device and edit-device form. */
  function DeviceForm(name: string, kind: string, p: string): Form {
    map["name" := name, "type" := kind, "password" := p]
  }

  /** Registering "alice" a second time is refused and keeps the first row. */
  method RegisterTwice(bcrypt: Hasher, s1: Salt, s2: Salt)
    returns (first: Option<Flash>, second: Option<Flash>, stored: string)
    requires bcrypt.Sound()
    ensures first == Some(AccountCreated) && second == Some(UsernameTaken)
    ensures stored == bcrypt.hash("p1", s1)
  {
    StripTrimmed("alice");
    StripTrimmed("p1");
    StripTrimmed("p2");
    var app := new SafeHome(bcrypt, map[]);
    var response;
    response, first := app.Register(RegisterForm("alice", "p1"), s1);
    response, second := app.Register(RegisterForm("alice", "p2"), s2);
    stored := app.users["alice"].password;
  }

  /** After registering "alice", logging in as "bob" is refused with the same
      message a wrong password gets. */
  method UnknownUser(bcrypt: Hasher, salt: Salt) returns (flash: Option<Flash>, response: Response)
    requires bcrypt.Sound()
    ensures flash == Some(InvalidCredentials) && response == Render(LoginPage)
  {
    StripTrimmed("alice");
    StripTrimmed("p1");
    var app := new SafeHome(bcrypt, map[]);
    var created;
    response, created := app.Register(RegisterForm("alice", "p1"), salt);
    assert "bob" !in app.users;
    response, flash := app.Login(LoginForm("bob", "p1"));
  }

  /** Logging in with the registered password succeeds, yet the dashboard
      still sends the client back to the login page: login stored "user_id"
      and the guard looks for "user". */
  method LoginThenDashboard(bcrypt: Hasher, salt: Salt) returns (login: Response, dashboard: Response)
    requires bcrypt.Sound()
    ensures login == Redirect(DashboardRoute)
    ensures dashboard == Redirect(LoginRoute)
  {
    StripTrimmed("alice");
    StripTrimmed("p1");
    var app := new SafeHome(bcrypt, map[]);
    var flash;
    login, flash := app.Register(RegisterForm("alice", "p1"), salt);
    login, flash := app.Login(LoginForm("alice", "p1"));
    dashboard := app.Dashboard();
  }

  /** After logout the device list is closed but add_device still accepts a
      device: logout dropped "user" and left "user_id". */
  method LogoutThenAdd(bcrypt: Hasher, salt: Salt) returns (listing: Response, added: Response, rows: nat)
    requires bcrypt.Sound()
    ensures listing == Redirect(LoginRoute)
    ensures added == Redirect(DevicesRoute) && rows == 1
  {
    var app := new SafeHome(bcrypt, map["user" := Str("alice"), "user_id" := Int(1)]);
    var flash;
    listing, flash := app.Logout();
    listing := app.Devices();
    added, flash := app.AddDevice(DeviceForm("sensor1", "temp", "s3cr3t"), salt);
    rows := |app.devices|;
  }

  /** Add stores a hash of the posted password; edit then stores the stripped
      password itself. */
  method AddThenEdit(bcrypt: Hasher, salt: Salt) returns (added: string, edited: string)
    requires bcrypt.Sound()
    ensures added == bcrypt.hash("s3cr3t", salt) && bcrypt.check(added, "s3cr3t")
    ensures edited == "n3w"
  {
    assert Strip(" n3w ") == "n3w" by {
      assert StripAt("n3w", " n3w ", 1);
      StripUnique(" n3w ", "n3w");
    }
    var app := new SafeHome(bcrypt, map["user" := Str("alice"), "user_id" := Int(1)]);
    var id := app.nextDeviceId;
    var response, flash := app.AddDevice(DeviceForm("sensor1", "temp", "s3cr3t"), salt);
    added := app.devices[id].password;
    response, flash := app.EditDevice(id, DeviceForm("sensor1", "temp", " n3w "));
    edited := app.devices[id].password;
  }

  /** Deleting a device twice: both calls report the same thing and the
      table ends empty. */
  method DeleteTwice(bcrypt: Hasher, salt: Salt) returns (first: Option<Flash>, second: Option<Flash>, rows: nat)
    requires bcrypt.Sound()
    ensures first == second == Some(DeviceDeleted)
    ensures rows == 0
  {
    var app := new SafeHome(bcrypt, map["user" := Str("alice"), "user_id" := Int(1)]);
    var id := app.nextDeviceId;
    var response, flash := app.AddDevice(DeviceForm("sensor1", "temp", "s3cr3t"), salt);
    response, first := app.DeleteDevice(id);
    response, second := app.DeleteDevice(id);
    rows := |app.devices|;
  }

  /** A device posted with an empty password never reaches the table: the
      hash call raises first. */
  method EmptyDevicePassword(bcrypt: Hasher, salt: Salt) returns (response: Response, rows: nat)
    requires bcrypt.Sound()
    ensures response == ServerError && rows == 0
  {
    var app := new SafeHome(bcrypt, map["user_id" := Int(1)]);
    var flash;
    response, flash := app.AddDevice(DeviceForm("sensor1", "temp", ""), salt);
    rows := |app.devices|;
  }
}
