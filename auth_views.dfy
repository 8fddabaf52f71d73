/**
 * `register_user` and `login_user`: validation ladders with early returns
 * over Django's user table. Request fields are what `request.data.get`
 * returns for a string field: absent (None) or a string; Python treats None
 * and "" as false. Password hashing is a pair of caller-supplied functions,
 * and a failure of `User.objects.create`, or of the login's user lookup,
 * is an optional error text.
 */
module AuthViews {
  import opened Wrappers
  import opened Json

  datatype User = User(username: string, email: string, password: string)

  /** An HTTP response: status code and JSON body. */
  datatype Reply = Reply(status: int, body: Json)

  function Message(key: string, text: string): Json {
    Obj([(key, Str(text))])
  }

  /** Python truthiness of a request field: present and non-empty. */
  predicate Filled(field: Option<string>) {
    field.Some? && field.value != ""
  }

  predicate UniqueUsernames(users: seq<User>) {
    forall i, j :: 0 <= i < j < |users| ==> users[i].username != users[j].username
  }

  predicate Taken(users: seq<User>, username: string) {
    exists i :: 0 <= i < |users| && users[i].username == username
  }

  /** `User.objects.filter(username=username).first()`: the earliest user with that name. */
  function FirstUser(users: seq<User>, username: string): (r: Option<User>)
    ensures r.None? <==> !Taken(users, username)
    ensures r.Some? ==> exists i :: (0 <= i < |users| && users[i] == r.value && r.value.username == username
      && forall j :: 0 <= j < i ==> users[j].username != username)
  {
    if users == [] then None
    else if users[0].username == username then Some(users[0])
    else
      var r := FirstUser(users[1..], username);
      assert forall j :: 0 <= j < |users[1..]| ==> users[1..][j] == users[j + 1];
      r
  }

  /**
   * `login_user`. It reads the table and never changes it: 400 when a field
   * is missing or empty; 500 with the exception's text when the user lookup
   * raises (`lookupError`); 200 when the first user with that name exists
   * and its stored hash accepts the password; 401 otherwise.
   */
  function LoginUser(users: seq<User>, username: Option<string>, password: Option<string>,
                     checkPassword: (string, string) -> bool, lookupError: Option<string>): (r: Reply)
    ensures r.status == 400 <==> !Filled(username) || !Filled(password)
    ensures r.status == 500 <==> Filled(username) && Filled(password) && lookupError.Some?
    ensures r.status == 500 ==> r.body == Message("error", lookupError.value)
    ensures r.status == 200 <==>
      && Filled(username) && Filled(password) && lookupError.None?
      && exists i :: 0 <= i < |users| && users[i].username == username.value
           && (forall j :: 0 <= j < i ==> users[j].username != username.value)
           && checkPassword(password.value, users[i].password)
    ensures r.status in {200, 400, 401, 500}
  {
    if !Filled(username) || !Filled(password) then
      Reply(400, Message("error", "Both fields are required."))
    else if lookupError.Some? then
      Reply(500, Message("error", lookupError.value))
    else
      var user := FirstUser(users, username.value);
      if user.Some? && checkPassword(password.value, user.value.password) then
        Reply(200, Message("message", "Login successful!"))
      else
        assert forall i :: (0 <= i < |users| && users[i].username == username.value
            && (forall j :: 0 <= j < i ==> users[j].username != username.value)
          ==> user == Some(users[i]));
        Reply(401, Message("error", "Invalid credentials."))
  }

  /**
   * With unique usernames, login succeeds exactly when some user has that
   * name and a hash that accepts the password; an unknown user and a wrong
   * password both give 401.
   */
  lemma LoginWithUniqueNames(users: seq<User>, username: string, password: string, checkPassword: (string, string) -> bool)
    requires UniqueUsernames(users) && username != "" && password != ""
    ensures LoginUser(users, Some(username), Some(password), checkPassword, None).status == 200 <==>
      exists i :: 0 <= i < |users| && users[i].username == username && checkPassword(password, users[i].password)
    ensures !Taken(users, username) ==> LoginUser(users, Some(username), Some(password), checkPassword, None).status == 401
  {
  }

  /**
   * A user appended to a table where its name was free can log in with any
   * password its stored hash accepts.
   */
  lemma {:induction false} LoginAfterAppend(users: seq<User>, user: User, password: string, checkPassword: (string, string) -> bool)
    requires !Taken(users, user.username) && user.username != "" && password != ""
    requires checkPassword(password, user.password)
    ensures LoginUser(users + [user], Some(user.username), Some(password), checkPassword, None).status == 200
  {
    var t := users + [user];
    assert t[|users|] == user;
    assert forall j :: 0 <= j < |users| ==> t[j] == users[j];
  }

  /** The user table. */
  class UserTable {
    var users: seq<User>

    constructor ()
      ensures users == []
    {
      users := [];
    }

    /**
     * `register_user`. `makePassword` is `make_password`; `createError` is
     * the text of the exception `User.objects.create` raises, if it does.
     */
    method RegisterUser(username: Option<string>, email: Option<string>, password: Option<string>,
                        makePassword: string -> string, createError: Option<string>) returns (r: Reply)
      modifies this
      ensures !Filled(username) || !Filled(email) || !Filled(password) ==>
        r == Reply(400, Message("error", "All fields are required.")) && users == old(users)
      ensures Filled(username) && Filled(email) && Filled(password) && Taken(old(users), username.value) ==>
        r == Reply(400, Message("error", "Username already taken.")) && users == old(users)
      ensures Filled(username) && Filled(email) && Filled(password) && !Taken(old(users), username.value) ==>
        if createError.Some? then
          r == Reply(500, Message("error", createError.value)) && users == old(users)
        else
          && r == Reply(201, Message("message", "User registered successfully!"))
          && users == old(users) + [User(username.value, email.value, makePassword(password.value))]
      ensures UniqueUsernames(old(users)) ==> UniqueUsernames(users)
    {
      if !Filled(username) || !Filled(email) || !Filled(password) {
        return Reply(400, Message("error", "All fields are required."));
      }
      if Taken(users, username.value) {
        return Reply(400, Message("error", "Username already taken."));
      }
      if createError.Some? {
        return Reply(500, Message("error", createError.value));
      }
      users := users + [User(username.value, email.value, makePassword(password.value))];
      r := Reply(201, Message("message", "User registered successfully!"));
    }
  }

  /** Registering and then logging in with the same credentials succeeds. */
  method RegisterThenLogin(table: UserTable, username: string, email: string, password: string,
                           makePassword: string -> string, checkPassword: (string, string) -> bool)
    returns (registered: Reply, loggedIn: Reply)
    requires username != "" && email != "" && password != ""
    requires !Taken(table.users, username)
    requires forall p :: checkPassword(p, makePassword(p))
    modifies table
    ensures registered.status == 201
    ensures loggedIn.status == 200
  {
    registered := table.RegisterUser(Some(username), Some(email), Some(password), makePassword, None);
    LoginAfterAppend(old(table.users), User(username, email, makePassword(password)), password, checkPassword);
    loggedIn := LoginUser(table.users, Some(username), Some(password), checkPassword, None);
  }
}
