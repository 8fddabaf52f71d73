/**
 * The signed-in user as the frontend's authentication context holds it:
 * `loading` until the member lookup finishes, then the member record or
 * null. Only the role code matters to the access decisions.
 */
module AuthUser {
  import opened Wrappers

  datatype User = User(userName: string, role: string)

  datatype Session = Session(loading: bool, user: Option<User>)

  /** `user.role === "OW" || user.role === "AD"`. */
  predicate IsManager(u: User) {
    u.role == "OW" || u.role == "AD"
  }
}
