/** The password hasher (Flask-Bcrypt). Salting, the cost factor and the
    digest itself are not modelled: a hasher is any pair of functions that
    satisfies the one law bcrypt guarantees, that a freshly generated hash
    verifies against the password it was made from. */
module Bcrypt {

  /** The random salt `generate_password_hash` draws for each call; the model
      takes it as a parameter. */
  type Salt = string

  /** `hash(p, salt)` is `generate_password_hash(p).decode("utf-8")` for the
      salt that call drew; `check(h, p)` is `check_password_hash(h, p)`.
      `generate_password_hash` raises on an empty password, so `hash` means
      something only for a non-empty `p`; callers decide that case first. */
  datatype Hasher = Hasher(hash: (string, Salt) -> string, check: (string, string) -> bool) {

    /** The law every hasher obeys, for the passwords it accepts. */
    ghost predicate Sound() {
      forall p, salt | p != [] :: check(hash(p, salt), p)
    }

    /** `h` is the output of some call of the hasher. */
    ghost predicate IsDigest(h: string) {
      exists p, salt :: h == hash(p, salt)
    }
  }
}
