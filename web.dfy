/** The request and response values the handlers exchange with Flask:
    the session dictionary, the posted form, flashed messages and the
    response each handler returns. */
module Web {

  datatype Option<T> = None | Some(value: T)

  /** A value stored in the session: the handlers store a user id; what
      other code puts under `"user"` is taken to be a string. */
  datatype Value = Int(i: int) | Str(s: string)

  type Session = map<string, Value>

  /** `request.form`, one value per field. */
  type Form = map<string, string>

  /** `request.form.get(key, "")`. */
  function FormGet(form: Form, key: string): string {
    if key in form then form[key] else ""
  }

  /** The severities the handlers pass to `flash`. */
  datatype Category = Success | Info | Warning | Danger

  datatype Flash = Flash(message: string, category: Category)

  /** The routes a redirect may name. */
  datatype Endpoint = LoginRoute | RegisterRoute | DashboardRoute | DevicesRoute

  /** A device row as the tables hold it (its `password` column). */
  datatype Device = Device(name: string, kind: string, password: string)

  /** The pages the handlers render, with the data each one is given. */
  datatype Page =
    | LoginPage
    | RegisterPage
    | DashboardPage(username: Option<Value>)
    | DevicesPage(devices: map<nat, Device>)
    | AddDevicePage
    | EditDevicePage(id: nat, device: Device)
    | TipsPage

  /** What a handler returns; `BadRequest` is the 400 answer Flask gives when
      `request.form[key]` names a field the form does not have, and
      `ServerError` the 500 answer it gives when the handler raises. */
  datatype Response = Redirect(to: Endpoint) | Render(page: Page) | BadRequest | ServerError
}
