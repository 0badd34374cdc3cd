/**
 * The state-changing request handlers. The database is an object whose
 * four tables are map fields that the handlers reassign; the session is a
 * separate object, as in the server, where each client has its own. A
 * handler reads its form fields from a parameter map, returns the reply
 * object it would serialise, and changes at most the rows named by its
 * key (the frame is stated in each contract).
 */
module Handlers {
  import opened Wrappers
  import opened Tables

  /** Form fields and url parameters of a request. A request body may carry
      numbers, booleans or null as well; the model assumes every value is a
      string (a non-string value makes `as_string` throw, which is not
      modelled). */
  type Params = map<string, string>

  /** A handler's reply `{"success": .., "message": ..}`, or the exception
      raised when a field is read with `operator[]` and is missing (the
      lookup yields null, which is not a string). */
  datatype Reply = Reply(success: bool, message: string) | Threw
  {
    predicate Succeeded() { Reply? && success }
  }

  const USERNAME_REQUIRED: string := "`username` is required"
  const PASSWORD_REQUIRED: string := "`password` is required"
  const USERNAME_EXISTED: string := "`username` existed"
  const USERNAME_MISSING: string := "`username` does not exist"
  const INVALID_LOGIN: string := "invalid username/password"
  const MUSICNAME_REQUIRED: string := "`musicname` is required"
  const MUSICNAME_EXISTED: string := "`musicname` existed"
  const MUSIC_MISSING: string := "`music` does not exist"
  const SINGERNAME_REQUIRED: string := "`SingerName` is required"
  const ALREADY_COLLECTED: string := "`music` has been collected"
  const NOT_COLLECTED: string := "`music` has not been collected"

  /** The value of a form field, or the empty string when it is absent. */
  function GetOrEmpty(params: Params, key: string): (s: string)
    ensures key in params ==> s == params[key]
    ensures key !in params ==> s == ""
    ensures s != "" ==> key in params
  {
    if key in params then params[key] else ""
  }

  /** The row `user_register` inserts: the encoded password, the superuser
      flag read from the text "true", the optional name and email fields
      (empty when absent), and an active account. */
  function NewAccount(params: Params, encodePassword: string -> string): (a: Account)
    requires "password" in params
    ensures a.isActive
    ensures a.password == encodePassword(params["password"])
    ensures a.isSuperuser <==> "superuser" in params && params["superuser"] == "true"
    ensures a.firstName == GetOrEmpty(params, "first_name")
    ensures a.lastName == GetOrEmpty(params, "last_name")
    ensures a.email == GetOrEmpty(params, "email")
  {
    Account(
      encodePassword(params["password"]),
      GetOrEmpty(params, "superuser") == "true",
      GetOrEmpty(params, "first_name"),
      GetOrEmpty(params, "last_name"),
      GetOrEmpty(params, "email"),
      true)
  }

  class Database {
    var collection: Collection
    var users: map<string, Account>
    var music: map<string, Song>
    var singers: map<string, Singer>

    /** A fact every handler preserves, not a premise any of them relies
        on: no play count is negative, because counts start at 0 and are
        only incremented or reset. */
    ghost predicate Valid()
      reads this
    {
      FreqsNonNegative(collection)
    }

    constructor ()
      ensures Valid()
      ensures collection == map[] && users == map[] && music == map[] && singers == map[]
    {
      collection := map[];
      users := map[];
      music := map[];
      singers := map[];
    }

    /** `user_register`: both fields required; a taken username (even one
        whose account was deleted) is refused; otherwise one row is added. */
    method UserRegister(params: Params, encodePassword: string -> string) returns (reply: Reply)
      requires Valid()
      modifies this
      ensures Valid()
      ensures collection == old(collection) && music == old(music) && singers == old(singers)
      ensures "username" !in params ==> reply == Reply(false, USERNAME_REQUIRED)
      ensures "username" in params && "password" !in params ==> reply == Reply(false, PASSWORD_REQUIRED)
      ensures "username" in params && "password" in params && params["username"] in old(users) ==>
                reply == Reply(false, USERNAME_EXISTED)
      ensures "username" in params && "password" in params && params["username"] !in old(users) ==>
                reply == Reply(true, "user registered") &&
                users == old(users)[params["username"] := NewAccount(params, encodePassword)]
      ensures !reply.Succeeded() ==> users == old(users)
    {
      if "username" !in params {
        return Reply(false, USERNAME_REQUIRED);
      }
      if "password" !in params {
        return Reply(false, PASSWORD_REQUIRED);
      }
      var username := params["username"];
      if username in users {
        return Reply(false, USERNAME_EXISTED);
      }
      users := users[username := NewAccount(params, encodePassword)];
      reply := Reply(true, "user registered");
    }

    /** `user_delete`: the account must exist, be active and accept the
        password; it is then marked inactive, not removed. */
    method UserDelete(params: Params, checkPassword: (string, string) -> bool) returns (reply: Reply)
      requires Valid()
      modifies this
      ensures Valid()
      ensures collection == old(collection) && music == old(music) && singers == old(singers)
      ensures "duser" !in params ==> reply == Reply(false, USERNAME_REQUIRED)
      ensures "duser" in params && "password" !in params ==> reply == Reply(false, PASSWORD_REQUIRED)
      ensures "duser" in params && "password" in params && params["duser"] !in old(users) ==>
                reply == Reply(false, USERNAME_MISSING)
      ensures "duser" in params && "password" in params && params["duser"] in old(users) ==>
                if PasswordAccepted(old(users), params["duser"], params["password"], checkPassword)
                then reply == Reply(true, "user deleted") && users == Deactivated(old(users), params["duser"])
                else reply == Reply(false, INVALID_LOGIN)
      ensures !reply.Succeeded() ==> users == old(users)
    {
      if "duser" !in params {
        return Reply(false, USERNAME_REQUIRED);
      }
      if "password" !in params {
        return Reply(false, PASSWORD_REQUIRED);
      }
      var username := params["duser"];
      if username !in users {
        return Reply(false, USERNAME_MISSING);
      }
      var user := users[username];
      if !user.isActive {
        return Reply(false, INVALID_LOGIN);
      }
      if !checkPassword(params["password"], user.password) {
        return Reply(false, INVALID_LOGIN);
      }
      users := Deactivated(users, username);
      reply := Reply(true, "user deleted");
    }

    /** `list_delete`: the song must exist; every user's collection entry
        for it is deleted, then the song itself. A missing field is
        reported with the username message, as the handler does. */
    method ListDelete(params: Params) returns (reply: Reply)
      requires Valid()
      modifies this
      ensures Valid()
      ensures users == old(users) && singers == old(singers)
      ensures "colname" !in params ==> reply == Reply(false, USERNAME_REQUIRED)
      ensures "colname" in params && params["colname"] !in old(music) ==> reply == Reply(false, MUSIC_MISSING)
      ensures "colname" in params && params["colname"] in old(music) ==>
                reply == Reply(true, "music deleted") &&
                collection == WithoutMusic(old(collection), params["colname"]) &&
                music == old(music) - {params["colname"]}
      ensures !reply.Succeeded() ==> collection == old(collection) && music == old(music)
    {
      if "colname" !in params {
        return Reply(false, USERNAME_REQUIRED);
      }
      var mname := params["colname"];
      if mname !in music {
        return Reply(false, MUSIC_MISSING);
      }
      collection := WithoutMusic(collection, GetOrEmpty(params, "colname"));
      music := music - {GetOrEmpty(params, "colname")};
      reply := Reply(true, "music deleted");
    }

    /** `list_register`, on the path where its form validation passes: a
        song name already present is refused, otherwise the row is added. */
    method ListRegister(params: Params, song: Song) returns (reply: Reply)
      requires Valid()
      modifies this
      ensures Valid()
      ensures collection == old(collection) && users == old(users) && singers == old(singers)
      ensures "musicname" !in params ==> reply == Reply(false, MUSICNAME_REQUIRED)
      ensures "musicname" in params && params["musicname"] in old(music) ==> reply == Reply(false, MUSICNAME_EXISTED)
      ensures "musicname" in params && params["musicname"] !in old(music) ==>
                reply == Reply(true, "list registered") && music == old(music)[params["musicname"] := song]
      ensures !reply.Succeeded() ==> music == old(music)
    {
      if "musicname" !in params {
        return Reply(false, MUSICNAME_REQUIRED);
      }
      var musicname := params["musicname"];
      if musicname in music {
        return Reply(false, MUSICNAME_EXISTED);
      }
      music := music[musicname := song];
      reply := Reply(true, "list registered");
    }

    /** `singer_register`: updates the singer's row when it exists and
        inserts it otherwise; either way the row ends up holding `singer`. */
    method SingerRegister(params: Params, singer: Singer) returns (reply: Reply)
      requires Valid()
      modifies this
      ensures Valid()
      ensures collection == old(collection) && users == old(users) && music == old(music)
      ensures "addsname" !in params ==> reply == Reply(false, SINGERNAME_REQUIRED) && singers == old(singers)
      ensures "addsname" in params ==>
                reply == Reply(true, "singer registered") &&
                singers.Keys == old(singers).Keys + {params["addsname"]} &&
                singers[params["addsname"]] == singer &&
                forall o :: o in old(singers) && o != params["addsname"] ==> singers[o] == old(singers)[o]
    {
      if "addsname" !in params {
        return Reply(false, SINGERNAME_REQUIRED);
      }
      // The handler updates an existing row and inserts a missing one; both
      // statements write the same columns, so the row ends up as `singer`.
      singers := singers[params["addsname"] := singer];
      reply := Reply(true, "singer registered");
    }

    /** `list_collect`: a (song, user) pair already collected is refused;
        otherwise exactly that entry is added, unplayed and not a favourite. */
    method ListCollect(params: Params) returns (reply: Reply)
      requires Valid()
      modifies this
      ensures Valid()
      ensures users == old(users) && music == old(music) && singers == old(singers)
      ensures "colname" !in params ==> reply == Reply(false, MUSICNAME_REQUIRED)
      ensures "colname" in params && "coluser" !in params ==> reply == Threw
      ensures "colname" in params && "coluser" in params ==>
                var key := CollectKey(params["colname"], params["coluser"]);
                if key in old(collection) then reply == Reply(false, ALREADY_COLLECTED)
                else reply == Reply(true, "music collected") && collection == Collected(old(collection), key)
      ensures !reply.Succeeded() ==> collection == old(collection)
    {
      if "colname" !in params {
        return Reply(false, MUSICNAME_REQUIRED);
      }
      if "coluser" !in params {
        return Threw;
      }
      var key := CollectKey(params["colname"], params["coluser"]);
      if key in collection {
        return Reply(false, ALREADY_COLLECTED);
      }
      collection := Collected(collection, CollectKey(GetOrEmpty(params, "colname"), GetOrEmpty(params, "coluser")));
      reply := Reply(true, "music collected");
    }

    /** The guard shared by the four handlers that act on one collected
        song: the name field is required, the user field must be present,
        and the entry must exist. Returns the refusal, or None and the
        entry's key when the guard passes. */
    method CollectedEntry(params: Params) returns (refusal: Option<Reply>, key: CollectKey)
      ensures "setname" !in params ==> refusal == Some(Reply(false, MUSICNAME_REQUIRED))
      ensures "setname" in params && "setuser" !in params ==> refusal == Some(Threw)
      ensures "setname" in params && "setuser" in params ==>
                key == CollectKey(params["setname"], params["setuser"]) &&
                (key in collection ==> refusal == None) &&
                (key !in collection ==> refusal == Some(Reply(false, NOT_COLLECTED)))
    {
      key := CollectKey("", "");
      if "setname" !in params {
        return Some(Reply(false, MUSICNAME_REQUIRED)), key;
      }
      if "setuser" !in params {
        return Some(Threw), key;
      }
      key := CollectKey(params["setname"], params["setuser"]);
      if key !in collection {
        return Some(Reply(false, NOT_COLLECTED)), key;
      }
      refusal := None;
    }

    /** `favor_set`: negates the favourite flag of one collected song. */
    method FavorSet(params: Params) returns (reply: Reply)
      requires Valid()
      modifies this
      ensures Valid()
      ensures users == old(users) && music == old(music) && singers == old(singers)
      ensures "setname" !in params ==> reply == Reply(false, MUSICNAME_REQUIRED)
      ensures "setname" in params && "setuser" !in params ==> reply == Threw
      ensures "setname" in params && "setuser" in params ==>
                var key := CollectKey(params["setname"], params["setuser"]);
                if key in old(collection)
                then reply == Reply(true, "Favor set") && collection == ToggledFavorite(old(collection), key)
                else reply == Reply(false, NOT_COLLECTED)
      ensures !reply.Succeeded() ==> collection == old(collection)
    {
      var refusal, key := CollectedEntry(params);
      if refusal.Some? {
        return refusal.value;
      }
      collection := ToggledFavorite(collection, key);
      reply := Reply(true, "Favor set");
    }

    /** `play_set`: adds one to the play count of one collected song. */
    method PlaySet(params: Params) returns (reply: Reply)
      requires Valid()
      modifies this
      ensures Valid()
      ensures users == old(users) && music == old(music) && singers == old(singers)
      ensures "setname" !in params ==> reply == Reply(false, MUSICNAME_REQUIRED)
      ensures "setname" in params && "setuser" !in params ==> reply == Threw
      ensures "setname" in params && "setuser" in params ==>
                var key := CollectKey(params["setname"], params["setuser"]);
                if key in old(collection)
                then reply == Reply(true, "Ready to Play") && collection == Played(old(collection), key)
                else reply == Reply(false, NOT_COLLECTED)
      ensures !reply.Succeeded() ==> collection == old(collection)
    {
      var refusal, key := CollectedEntry(params);
      if refusal.Some? {
        return refusal.value;
      }
      collection := Played(collection, key);
      reply := Reply(true, "Ready to Play");
    }

    /** `clear_set`: resets the play count of one collected song to 0. */
    method ClearSet(params: Params) returns (reply: Reply)
      requires Valid()
      modifies this
      ensures Valid()
      ensures users == old(users) && music == old(music) && singers == old(singers)
      ensures "setname" !in params ==> reply == Reply(false, MUSICNAME_REQUIRED)
      ensures "setname" in params && "setuser" !in params ==> reply == Threw
      ensures "setname" in params && "setuser" in params ==>
                var key := CollectKey(params["setname"], params["setuser"]);
                if key in old(collection)
                then reply == Reply(true, "Clear History") && collection == Cleared(old(collection), key)
                else reply == Reply(false, NOT_COLLECTED)
      ensures !reply.Succeeded() ==> collection == old(collection)
    {
      var refusal, key := CollectedEntry(params);
      if refusal.Some? {
        return refusal.value;
      }
      collection := Cleared(collection, key);
      reply := Reply(true, "Clear History");
    }

    /** `delete_set`: removes one song from one user's collection. */
    method DeleteSet(params: Params) returns (reply: Reply)
      requires Valid()
      modifies this
      ensures Valid()
      ensures users == old(users) && music == old(music) && singers == old(singers)
      ensures "setname" !in params ==> reply == Reply(false, MUSICNAME_REQUIRED)
      ensures "setname" in params && "setuser" !in params ==> reply == Threw
      ensures "setname" in params && "setuser" in params ==>
                var key := CollectKey(params["setname"], params["setuser"]);
                if key in old(collection)
                then reply == Reply(true, "Delete Succesfully") && collection == Uncollected(old(collection), key)
                else reply == Reply(false, NOT_COLLECTED)
      ensures !reply.Succeeded() ==> collection == old(collection)
    {
      var refusal, key := CollectedEntry(params);
      if refusal.Some? {
        return refusal.value;
      }
      collection := Uncollected(collection, key);
      reply := Reply(true, "Delete Succesfully");
    }
  }

  /** One client's session: a map the handlers change in place. */
  class Session {
    var values: SessionMap

    constructor ()
      ensures values == map[]
    {
      values := map[];
    }
  }

  /** `user_login`: the same checks as account deletion; on success the
      user's row is stored in the session under "user". The database is
      only read. */
  method UserLogin(db: Database, session: Session, params: Params,
                   checkPassword: (string, string) -> bool) returns (reply: Reply)
    modifies session
    ensures "username" !in params ==> reply == Reply(false, USERNAME_REQUIRED)
    ensures "username" in params && "password" !in params ==> reply == Reply(false, PASSWORD_REQUIRED)
    ensures "username" in params && "password" in params ==>
              if PasswordAccepted(db.users, params["username"], params["password"], checkPassword)
              then reply == Reply(true, "login successfully") &&
                   session.values == LoggedIn(old(session.values), params["username"], db.users[params["username"]])
              else reply == Reply(false, INVALID_LOGIN)
    ensures !reply.Succeeded() ==> session.values == old(session.values)
  {
    if "username" !in params {
      return Reply(false, USERNAME_REQUIRED);
    }
    if "password" !in params {
      return Reply(false, PASSWORD_REQUIRED);
    }
    var username := params["username"];
    if username !in db.users {
      return Reply(false, INVALID_LOGIN);
    }
    var user := db.users[username];
    if !user.isActive {
      return Reply(false, INVALID_LOGIN);
    }
    if !checkPassword(params["password"], user.password) {
      return Reply(false, INVALID_LOGIN);
    }
    session.values := LoggedIn(session.values, username, user);
    reply := Reply(true, "login successfully");
  }

  /** `user_logout`: removes the user from the session if one is there;
      always succeeds. */
  method UserLogout(session: Session) returns (reply: Reply)
    modifies session
    ensures reply == Reply(true, "logout successfully")
    ensures session.values == LoggedOut(old(session.values))
  {
    session.values := LoggedOut(session.values);
    reply := Reply(true, "logout successfully");
  }
}
