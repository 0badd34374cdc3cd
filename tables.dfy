/**
 * The tables behind the handlers, as maps from their key columns to the
 * remaining columns, and the effect of each handler's SQL statement as a
 * function on those maps. Each effect touches only the rows its `where`
 * clause selects; the contracts say so row by row.
 */
module Tables {

  /** Key of a `collection` row: the music name and the user name. */
  datatype CollectKey = CollectKey(mname: string, uname: string)

  /** Play count and favourite flag of one collected song. */
  datatype Entry = Entry(freq: int, isFavorite: bool)

  /** An `auth_user` row without its key (the username). The password
      column holds the encoded password. */
  datatype Account = Account(
    password: string,
    isSuperuser: bool,
    firstName: string,
    lastName: string,
    email: string,
    isActive: bool)

  /** A `music` row without its key (the music name). */
  datatype Song = Song(length: int, year: int, language: string, sname: string)

  /** A `singers` row without its key (the singer name). */
  datatype Singer = Singer(birthyear: string, sex: string, message: string, award: string, area: string)

  type Collection = map<CollectKey, Entry>

  /** Play counts start at 0 and only ever grow or return to 0. */
  predicate FreqsNonNegative(c: Collection)
  {
    forall k :: k in c ==> c[k].freq >= 0
  }

  /** Collecting a song: a new entry for the pair, unplayed and not a favourite. */
  function Collected(c: Collection, k: CollectKey): (c': Collection)
    requires k !in c
    ensures c'.Keys == c.Keys + {k}
    ensures c'[k] == Entry(0, false)
    ensures forall o :: o in c ==> c'[o] == c[o]
    ensures FreqsNonNegative(c) ==> FreqsNonNegative(c')
  {
    c[k := Entry(0, false)]
  }

  /** Flipping the favourite flag of the one entry for the pair. */
  function ToggledFavorite(c: Collection, k: CollectKey): (c': Collection)
    requires k in c
    ensures c'.Keys == c.Keys
    ensures c'[k].isFavorite == !c[k].isFavorite && c'[k].freq == c[k].freq
    ensures forall o :: o in c && o != k ==> c'[o] == c[o]
    ensures FreqsNonNegative(c) ==> FreqsNonNegative(c')
  {
    c[k := c[k].(isFavorite := !c[k].isFavorite)]
  }

  /** Recording one play: the pair's play count grows by one. */
  function Played(c: Collection, k: CollectKey): (c': Collection)
    requires k in c
    ensures c'.Keys == c.Keys
    ensures c'[k].freq == c[k].freq + 1 && c'[k].isFavorite == c[k].isFavorite
    ensures forall o :: o in c && o != k ==> c'[o] == c[o]
    ensures FreqsNonNegative(c) ==> FreqsNonNegative(c')
  {
    c[k := c[k].(freq := c[k].freq + 1)]
  }

  /** Clearing the history: the pair's play count goes back to zero. */
  function Cleared(c: Collection, k: CollectKey): (c': Collection)
    requires k in c
    ensures c'.Keys == c.Keys
    ensures c'[k].freq == 0 && c'[k].isFavorite == c[k].isFavorite
    ensures forall o :: o in c && o != k ==> c'[o] == c[o]
    ensures FreqsNonNegative(c) ==> FreqsNonNegative(c')
  {
    c[k := c[k].(freq := 0)]
  }

  /** Removing one song from one user's collection. */
  function Uncollected(c: Collection, k: CollectKey): (c': Collection)
    requires k in c
    ensures c'.Keys == c.Keys - {k}
    ensures forall o :: o in c' ==> c'[o] == c[o]
    ensures FreqsNonNegative(c) ==> FreqsNonNegative(c')
  {
    c - {k}
  }

  /** Removing every user's entry for one song, as deleting the song does. */
  function WithoutMusic(c: Collection, mname: string): (c': Collection)
    ensures forall o :: o in c' <==> o in c && o.mname != mname
    ensures forall o :: o in c' ==> c'[o] == c[o]
    ensures FreqsNonNegative(c) ==> FreqsNonNegative(c')
  {
    map o | o in c && o.mname != mname :: c[o]
  }

  /** Toggling the favourite flag twice restores the collection. */
  lemma FavorTwiceIsIdentity(c: Collection, k: CollectKey)
    requires k in c
    ensures ToggledFavorite(ToggledFavorite(c, k), k) == c
  {
  }

  /** Clearing a play count twice is the same as clearing it once. */
  lemma ClearIsIdempotent(c: Collection, k: CollectKey)
    requires k in c
    ensures Cleared(Cleared(c, k), k) == Cleared(c, k)
  {
  }

  /** Clearing erases any play recorded before it. */
  lemma ClearForgetsPlays(c: Collection, k: CollectKey)
    requires k in c
    ensures Cleared(Played(c, k), k) == Cleared(c, k)
  {
  }

  /** Collecting a song and deleting it again restores the collection. */
  lemma CollectThenUncollect(c: Collection, k: CollectKey)
    requires k !in c
    ensures Uncollected(Collected(c, k), k) == c
  {
  }

  /** Removing a song's entries leaves none for it, and a second removal
      changes nothing. */
  lemma WithoutMusicIsIdempotent(c: Collection, mname: string)
    ensures forall o :: o in WithoutMusic(c, mname) ==> o.mname != mname
    ensures WithoutMusic(WithoutMusic(c, mname), mname) == WithoutMusic(c, mname)
  {
  }

  /** Deleting an account is a soft delete: the row stays and is only
      marked inactive. */
  function Deactivated(users: map<string, Account>, name: string): (users': map<string, Account>)
    requires name in users
    ensures users'.Keys == users.Keys
    ensures users'[name] == users[name].(isActive := false)
    ensures forall o :: o in users && o != name ==> users'[o] == users[o]
  {
    users[name := users[name].(isActive := false)]
  }

  /** The check shared by login and account deletion: the user exists, is
      active, and the given password matches the stored encoding. */
  predicate PasswordAccepted(users: map<string, Account>, name: string, password: string,
                             checkPassword: (string, string) -> bool)
  {
    name in users && users[name].isActive && checkPassword(password, users[name].password)
  }

  /** A deleted account can no longer log in with any password, and its
      name stays taken, so registering it again is refused. */
  lemma DeletedAccountIsLockedOut(users: map<string, Account>, name: string,
                                  checkPassword: (string, string) -> bool)
    requires name in users
    ensures name in Deactivated(users, name)
    ensures forall password :: !PasswordAccepted(Deactivated(users, name), name, password, checkPassword)
  {
  }

  /** What a session stores: the logged-in user's row, or a counter kept
      by other pages. */
  datatype SessionValue = UserRow(username: string, account: Account) | Counter(n: int)

  type SessionMap = map<string, SessionValue>

  /** The session key that holds the logged-in user. */
  const USER_KEY: string := "user"

  /** Logging in stores the user's row under the user key, replacing any
      earlier one. */
  function LoggedIn(s: SessionMap, name: string, account: Account): (s': SessionMap)
    ensures s'.Keys == s.Keys + {USER_KEY}
    ensures s'[USER_KEY] == UserRow(name, account)
    ensures forall key :: key in s && key != USER_KEY ==> s'[key] == s[key]
  {
    s[USER_KEY := UserRow(name, account)]
  }

  /** Logging out drops the user key when it is there. */
  function LoggedOut(s: SessionMap): (s': SessionMap)
    ensures s'.Keys == s.Keys - {USER_KEY}
    ensures forall key :: key in s' ==> s'[key] == s[key]
  {
    if USER_KEY in s then s - {USER_KEY} else s
  }

  /** Logging out twice is the same as logging out once. */
  lemma LogoutIsIdempotent(s: SessionMap)
    ensures LoggedOut(LoggedOut(s)) == LoggedOut(s)
  {
  }

  /** Logging out after a login restores the session as it was apart from
      any earlier user. */
  lemma LoginThenLogout(s: SessionMap, name: string, account: Account)
    ensures LoggedOut(LoggedIn(s, name, account)) == LoggedOut(s)
  {
  }
}
