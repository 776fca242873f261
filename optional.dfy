/** The absent-or-present value used for values the app reads as possibly
    `undefined` (the signed-in user's id) and for `parseInt`'s NaN. */
module Optional {

  datatype Option<+T> = None | Some(value: T)

}
