/** The user-management commands: `users:create`, `users:modify` and
    `users:hash_passwords`.  The bcrypt helpers are parameters: `isHashed`
    recognises a stored hash and `hash` produces one (the work factor is part
    of it). */
module UserCommands {
  import opened Base

  /** A user document of the `users` resource.  A missing key is `None`. */
  datatype StoredUser = StoredUser(
    username: string,
    password: string,
    email: Option<string>,
    userType: Option<string>,
    isActive: Option<bool>,
    isSupport: Option<bool>,
    isEnabled: Option<bool>,
    needsActivation: Option<bool>,
    firstName: Option<string>,
    lastName: Option<string>,
    role: Option<string>,
    displayName: Option<string>)

  /** The first user with that username, as `find_one(username=...)` reads it. */
  function FindByUsername(docs: seq<StoredUser>, username: string): (r: Option<nat>)
    ensures r.Some? ==> (r.value < |docs| && docs[r.value].username == username &&
      forall j :: 0 <= j < r.value ==> docs[j].username != username)
    ensures r.None? ==> forall j :: 0 <= j < |docs| ==> docs[j].username != username
  {
    FindFrom(docs, username, 0)
  }

  function FindFrom(docs: seq<StoredUser>, username: string, k: nat): (r: Option<nat>)
    requires forall j :: 0 <= j < k && j < |docs| ==> docs[j].username != username
    ensures r.Some? ==> (r.value < |docs| && docs[r.value].username == username &&
      forall j :: 0 <= j < r.value ==> docs[j].username != username)
    ensures r.None? ==> forall j :: 0 <= j < |docs| ==> docs[j].username != username
    decreases |docs| - k
  {
    if k >= |docs| then None
    else if docs[k].username == username then Some(k)
    else FindFrom(docs, username, k + 1)
  }

  /** No two users share a username. */
  ghost predicate UsernamesUnique(docs: seq<StoredUser>) {
    forall i, j :: 0 <= i < j < |docs| ==> docs[i].username != docs[j].username
  }

  // ---------------------------------------------------------------------
  // users:create

  /** The `userdata` dict `users:create` builds and returns. */
  datatype UserData = UserData(
    username: string,
    password: string,
    email: string,
    userType: string,
    isActive: bool,
    isSupport: bool,
    needsActivation: bool)

  function BuildUserData(username: string, password: string, email: string, admin: bool, support: bool,
                         isHashed: string -> bool, hash: string -> string): UserData
  {
    var pwd := if password != "" && !isHashed(password) then hash(password) else password;
    UserData(username, pwd, email, if admin then "administrator" else "user", admin, support, !admin)
  }

  /** The flags follow `--admin` and `--support`; the password is hashed
      exactly when it is not empty and not a hash already, so with a hash
      function whose results are recognised the stored password is always a
      hash (or empty). */
  lemma BuildUserDataSpec(username: string, password: string, email: string, admin: bool, support: bool,
                          isHashed: string -> bool, hash: string -> string)
    ensures var d := BuildUserData(username, password, email, admin, support, isHashed, hash);
      && (d.userType == "administrator" <==> admin)
      && (d.userType == "user" <==> !admin)
      && d.isActive == admin && d.needsActivation == !admin && d.isSupport == support
      && d.username == username && d.email == email
      && (d.password != password ==> password != "" && !isHashed(password) && d.password == hash(password))
      && (isHashed(hash(password)) ==> d.password == "" || isHashed(d.password))
  {
  }

  /** The document posted for new user data. */
  function Posted(d: UserData): StoredUser {
    StoredUser(d.username, d.password, Some(d.email), Some(d.userType), Some(d.isActive), Some(d.isSupport),
               None, Some(d.needsActivation), None, None, None, None)
  }

  /** After a post the username is found, so running the command again posts
      nothing; a username already taken is found at the same place. */
  lemma {:induction false} PostedUserIsFound(docs: seq<StoredUser>, u: StoredUser)
    ensures FindByUsername(docs + [u], u.username).Some?
    ensures FindByUsername(docs, u.username).Some? ==> FindByUsername(docs + [u], u.username) == FindByUsername(docs, u.username)
  {
    assert (docs + [u])[|docs|].username == u.username;
    assert forall j :: 0 <= j < |docs| ==> (docs + [u])[j] == docs[j];
  }

  // ---------------------------------------------------------------------
  // users:modify

  /** The options of `users:modify`; an option not given is `None`. */
  datatype ManageOptions = ManageOptions(
    admin: Option<string>,
    support: Option<string>,
    active: Option<string>,
    enabled: Option<string>,
    role: Option<string>,
    firstName: Option<string>,
    lastName: Option<string>)

  /** The `updates` dict; a key not set is `None`. */
  datatype Updates = Updates(
    userType: Option<string>,
    isSupport: Option<bool>,
    isActive: Option<bool>,
    isEnabled: Option<bool>,
    firstName: Option<string>,
    lastName: Option<string>,
    role: Option<string>,
    displayName: Option<string>)

  /** `ValueError` of `strtobool`, `RoleDoesNotExist`, `UserNotRegisteredException`. */
  datatype ManageError = InvalidTruthValue(value: string) | RoleDoesNotExist(roleName: string) | UserNotRegistered(username: string)

  /** An option given with a non-empty value. */
  predicate Given(o: Option<string>) {
    o.Some? && o.value != ""
  }

  const TrueWords: seq<string> := ["y", "yes", "t", "true", "on", "1"]
  const FalseWords: seq<string> := ["n", "no", "f", "false", "off", "0"]

  /** `strtobool`, case-insensitive. */
  function StrToBool(s: string): (r: Result<bool, ManageError>)
    ensures r == Ok(true) <==> Lower(s) in TrueWords
    ensures r == Ok(false) <==> Lower(s) in FalseWords
    ensures r.Err? ==> r.error == InvalidTruthValue(s)
  {
    var v := Lower(s);
    if v in TrueWords then Ok(true)
    else if v in FalseWords then Ok(false)
    else Err(InvalidTruthValue(s))
  }

  /** `_bool` applied to an option that was given. */
  function ParseFlag(o: Option<string>): Result<Option<bool>, ManageError> {
    if !Given(o) then Ok(None)
    else match StrToBool(o.value)
      case Ok(b) => Ok(Some(b))
      case Err(e) => Err(e)
  }

  /** Whether every given flag is a truth value. */
  predicate FlagsParse(o: ManageOptions) {
    ParseFlag(o.support).Ok? && ParseFlag(o.active).Ok? && ParseFlag(o.enabled).Ok?
  }

  /** The updates taken straight from the options, in source order. */
  function OptionUpdates(o: ManageOptions): Result<Updates, ManageError> {
    var userType := if Given(o.admin) then Some("administrator") else None;
    match ParseFlag(o.support)
    case Err(e) => Err(e)
    case Ok(support) =>
      match ParseFlag(o.active)
      case Err(e) => Err(e)
      case Ok(active) =>
        match ParseFlag(o.enabled)
        case Err(e) => Err(e)
        case Ok(enabled) =>
          Ok(Updates(userType, support, active, enabled,
                     if Given(o.firstName) then o.firstName else None,
                     if Given(o.lastName) then o.lastName else None,
                     None, None))
  }

  /** `first_name or user.get('first_name', '')`. */
  function Pick(given: Option<string>, stored: Option<string>): string {
    if Given(given) then given.value else stored.GetOr("")
  }

  /** What `users:modify` computes: the updates, or why it raises. */
  function ManageResult(docs: seq<StoredUser>, username: string, o: ManageOptions, roles: map<string, string>): Result<Updates, ManageError> {
    match OptionUpdates(o)
    case Err(e) => Err(e)
    case Ok(u) =>
      if Given(o.role) && o.role.value !in roles then Err(RoleDoesNotExist(o.role.value))
      else
        var withRole := u.(role := if Given(o.role) then Some(roles[o.role.value]) else None);
        var found := FindByUsername(docs, username);
        if found.None? then Err(UserNotRegistered(username))
        else
          var stored := docs[found.value];
          Ok(withRole.(displayName := Some(Pick(o.firstName, stored.firstName) + " " + Pick(o.lastName, stored.lastName))))
  }

  /** A key is set exactly for an option given with a value; flags hold the
      option's truth value, any given `--admin` makes an administrator, the
      role is the id of the named role, and the display name is always set. */
  lemma ManageUpdatesSpec(docs: seq<StoredUser>, username: string, o: ManageOptions, roles: map<string, string>)
    requires ManageResult(docs, username, o, roles).Ok?
    ensures var u := ManageResult(docs, username, o, roles).value;
      var stored := docs[FindByUsername(docs, username).value];
      && FindByUsername(docs, username).Some?
      && (u.userType.Some? <==> Given(o.admin)) && (u.userType.Some? ==> u.userType.value == "administrator")
      && (u.isSupport.Some? <==> Given(o.support)) && (u.isSupport.Some? ==> StrToBool(o.support.value) == Ok(u.isSupport.value))
      && (u.isActive.Some? <==> Given(o.active)) && (u.isActive.Some? ==> StrToBool(o.active.value) == Ok(u.isActive.value))
      && (u.isEnabled.Some? <==> Given(o.enabled)) && (u.isEnabled.Some? ==> StrToBool(o.enabled.value) == Ok(u.isEnabled.value))
      && (u.firstName.Some? <==> Given(o.firstName)) && (u.firstName.Some? ==> u.firstName == o.firstName)
      && (u.lastName.Some? <==> Given(o.lastName)) && (u.lastName.Some? ==> u.lastName == o.lastName)
      && (u.role.Some? <==> Given(o.role)) && (u.role.Some? ==> o.role.value in roles && u.role.value == roles[o.role.value])
      && u.displayName == Some(Pick(o.firstName, stored.firstName) + " " + Pick(o.lastName, stored.lastName))
  {
  }

  /** The command fails exactly when a flag is not a truth value, the role is
      unknown or the user is unknown, checked in that order. */
  lemma ManageErrorsSpec(docs: seq<StoredUser>, username: string, o: ManageOptions, roles: map<string, string>)
    ensures var r := ManageResult(docs, username, o, roles);
      && (r.Err? && r.error.InvalidTruthValue? <==> !FlagsParse(o))
      && (r.Err? && r.error.RoleDoesNotExist? <==> FlagsParse(o) && Given(o.role) && o.role.value !in roles)
      && (r.Err? && r.error.UserNotRegistered? <==>
            FlagsParse(o) && !(Given(o.role) && o.role.value !in roles) && FindByUsername(docs, username).None?)
      && (r.Err? && r.error.RoleDoesNotExist? ==> r.error.roleName == o.role.value)
      && (r.Err? && r.error.UserNotRegistered? ==> r.error.username == username)
  {
  }

  /** As written, `--admin false` promotes the user like `--admin true`. */
  lemma AdminFalseStillPromotes(docs: seq<StoredUser>, username: string, roles: map<string, string>)
    requires FindByUsername(docs, username).Some?
    ensures var o := ManageOptions(Some("false"), None, None, None, None, None, None);
      ManageResult(docs, username, o, roles).Ok? &&
      ManageResult(docs, username, o, roles).value.userType == Some("administrator")
  {
  }

  /** `user_type` as the option's help describes it: the truth value of
      `--admin` chooses between administrator and user. */
  function IntendedUserType(admin: Option<string>): Result<Option<string>, ManageError> {
    if !Given(admin) then Ok(None)
    else match StrToBool(admin.value)
      case Ok(b) => Ok(Some(if b then "administrator" else "user"))
      case Err(e) => Err(e)
  }

  lemma IntendedUserTypeSpec(admin: Option<string>)
    ensures IntendedUserType(admin) == Ok(Some("administrator")) <==> Given(admin) && Lower(admin.value) in TrueWords
    ensures IntendedUserType(admin) == Ok(Some("user")) <==> Given(admin) && Lower(admin.value) in FalseWords
    ensures IntendedUserType(Some("false")) == Ok(Some("user"))
  {
    assert Lower("false") == "false";
  }

  /** `system_update`: the set keys replace the stored ones. */
  function Apply(s: StoredUser, u: Updates): StoredUser {
    s.(userType := if u.userType.Some? then u.userType else s.userType,
       isSupport := if u.isSupport.Some? then u.isSupport else s.isSupport,
       isActive := if u.isActive.Some? then u.isActive else s.isActive,
       isEnabled := if u.isEnabled.Some? then u.isEnabled else s.isEnabled,
       firstName := if u.firstName.Some? then u.firstName else s.firstName,
       lastName := if u.lastName.Some? then u.lastName else s.lastName,
       role := if u.role.Some? then u.role else s.role,
       displayName := if u.displayName.Some? then u.displayName else s.displayName)
  }

  // ---------------------------------------------------------------------
  // users:hash_passwords

  /** The patch `users:hash_passwords` applies to one user. */
  function HashedUser(s: StoredUser, isHashed: string -> bool, hash: string -> string): StoredUser {
    if isHashed(s.password) then s else s.(password := hash(s.password))
  }

  /** Only the password changes, only when it was not a hash, and with a hash
      function whose results are recognised a second run changes nothing. */
  lemma HashedUserSpec(s: StoredUser, isHashed: string -> bool, hash: string -> string)
    requires forall p :: isHashed(hash(p))
    ensures var h := HashedUser(s, isHashed, hash);
      && h.(password := s.password) == s
      && isHashed(h.password)
      && (isHashed(s.password) ==> h == s)
      && HashedUser(h, isHashed, hash) == h
  {
  }

  /** The `users` resource. */
  class UserStore {
    var docs: seq<StoredUser>

    constructor (initial: seq<StoredUser>)
      ensures docs == initial
    {
      docs := initial;
    }

    /** `users:create`: returns the built user data; posts it only when the
        username is not taken (an existing user keeps its password). */
    method CreateUser(username: string, password: string, email: string, admin: bool, support: bool,
                      isHashed: string -> bool, hash: string -> string)
      returns (data: UserData)
      modifies this
      ensures data == BuildUserData(username, password, email, admin, support, isHashed, hash)
      ensures FindByUsername(old(docs), username).Some? ==> docs == old(docs)
      ensures FindByUsername(old(docs), username).None? ==> docs == old(docs) + [Posted(data)]
      ensures FindByUsername(docs, username).Some?
      ensures UsernamesUnique(old(docs)) ==> UsernamesUnique(docs)
    {
      data := BuildUserData(username, password, email, admin, support, isHashed, hash);
      var user := FindByUsername(docs, username);
      if user.None? {
        docs := docs + [Posted(data)];
      }
      PostedUserIsFound(old(docs), Posted(data));
    }

    /** `users:modify`: writes the updates to the user, or raises before
        writing anything. */
    method ManageUser(username: string, o: ManageOptions, roles: map<string, string>)
      returns (r: Result<Updates, ManageError>)
      modifies this
      ensures r == ManageResult(old(docs), username, o, roles)
      ensures r.Err? ==> docs == old(docs)
      ensures r.Ok? ==> (FindByUsername(old(docs), username).Some? &&
        var i := FindByUsername(old(docs), username).value;
        docs == old(docs)[i := Apply(old(docs)[i], r.value)])
    {
      r := ManageResult(docs, username, o, roles);
      if r.Ok? {
        var i := FindByUsername(docs, username).value;
        docs := docs[i := Apply(docs[i], r.value)];
      }
    }

    /** `users:hash_passwords`: patches every user whose password is not a
        hash yet. */
    method HashUserPasswords(isHashed: string -> bool, hash: string -> string)
      modifies this
      ensures |docs| == |old(docs)|
      ensures forall i :: 0 <= i < |docs| ==> docs[i] == HashedUser(old(docs)[i], isHashed, hash)
    {
      var i := 0;
      while i < |docs|
        invariant 0 <= i <= |docs| == |old(docs)|
        invariant forall j :: 0 <= j < i ==> docs[j] == HashedUser(old(docs)[j], isHashed, hash)
        invariant forall j :: i <= j < |docs| ==> docs[j] == old(docs)[j]
      {
        var pwd := docs[i].password;
        if !isHashed(pwd) {
          docs := docs[i := docs[i].(password := hash(pwd))];
        }
        i := i + 1;
      }
    }
  }
}
