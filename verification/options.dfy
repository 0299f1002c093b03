/** The optional value used throughout the model: a database row that may be
    missing, a session entry that may hold no user, a date computation that
    may overflow. */
module Options {

  datatype Option<+T> = None | Some(value: T)
}
