# Music library web application: pagination and catalog handlers

A Dafny model of the core of a server-rendered music catalog (C++ request
handlers over a relational store). Two pieces are modelled.

**Pagination.** Every listing handler (users, songs, collection, singer
details, recommendations, by language, by title, by singer) runs the same
block: from a row count it computes `total_pages = ceil(count / 10)`, and
for the requested page it builds a `pagination` object with the total, the
current page, optional previous/next links, a run of page numbers to the
left with a `left_ellipsis` flag and a run to the right with a
`right_ellipsis` flag. No object is produced when there are no rows. In
the listings that page their rows (users, songs, by language, by title, by
singer, and four of the five recommendation lists), the rows of page `p`
are `limit 10 offset (p-1)*10` of the listing; the collection and
singer-detail listings and the first recommendation list (songs by the
user's most-played singers) fetch all their rows.
`Paging.Window` states the object as a function, `Paging.Paginate` builds
it with the two counting loops of the handlers and is proved equal to it,
and lemmas state what the links mean (consecutive, in range, at most four
per side, an ellipsis always hides a page, all pages together give back
every row once).

The left run starts at page 1 whenever `page - 3 <= 2`. This agrees with
`[max(1, page-3), page-1]` for every page except page 5, where the code
gives `[1..4]` and that formula `[2..4]`. Likewise the right run goes to
the last page whenever `page + 3 >= total - 1`; this differs from
`[page+1, min(total, page+3)]` only when `total == page + 4`, where the
code gives four numbers. The model follows the code in both places.

**Catalog state.** The tables `collection`, `auth_user`, `music` and
`singers` are map fields of a `Database` object (key columns to the other
columns); each client's session is a `Session` object holding a map. Each
handler is a method that checks its form fields and an existence guard,
then applies one change with a row-by-row frame. The collection, account
deletion, song deletion and session changes are functions in module
`Tables`; registering a user, a song or a singer adds or replaces one map
entry directly in the handler. Lemmas relate the changes: toggling a favourite twice is
the identity, clearing is idempotent and forgets plays, collecting then
deleting restores the collection, deleting a song leaves no entry for it,
a deleted account stays registered but cannot log in, logout is
idempotent. Every handler keeps the invariant that no play count is
negative.

Inputs that come from outside the model are parameters: the request's
form fields (a map from field name to string, assuming every value is a string), the password encoder and
the password check (function-valued parameters), and, for registering a
song or a singer, the row to store.

## Model

| member | source | states |
|---|---|---|
| Paging.TotalPages | WebApp/handlers.cpp:899-900 | the page count is the least n with count <= 10n, and it is 0 exactly when there are no rows |
| Paging.Span | WebApp/handlers.cpp:933-942 | the appended run lo..hi has hi-lo+1 elements (none when hi < lo) and its k-th element is lo+k |
| Paging.Window | WebApp/handlers.cpp:909-944 | no object iff count is 0; previous present iff page > 1 and then page-1; next present iff page < total and then page+1; left ellipsis iff page-3 > 2 and then exactly [page-3, page-2, page-1], else 1..page-1; right ellipsis iff page+3 < total-1 and then exactly [page+1, page+2, page+3], else page+1..total |
| Paging.Paginate | WebApp/handlers.cpp:909-943 | the imperative block with its two counting loops yields exactly Window(count, page) |
| Paging.WindowIsContiguous | WebApp/handlers.cpp:918-942 | for 1 <= page <= total, left run, current page and right run are consecutive page numbers inside [1, total] |
| Paging.WindowSize | WebApp/handlers.cpp:918-942 | each run holds at most four page numbers |
| Paging.EllipsisHidesAPage | WebApp/handlers.cpp:918-931 | with a left ellipsis the left run starts at page 3 or later, without it at page 1; with a right ellipsis the right run stops at total-2 or earlier, without it at total |
| Paging.PageSlice | WebApp/handlers.cpp:902 | page p holds at most 10 rows, namely the rows from offset (p-1)*10 on, and none when the offset is past the end |
| Paging.PagesArePrefix | WebApp/handlers.cpp:966 | pages 1..n laid end to end are exactly the first min(10n, count) rows |
| Paging.AllPagesReconstruct | WebApp/handlers.cpp:899-902 | pages 1..total_pages together are the whole listing, with no row missing or repeated |
| Paging.PageInRangeIffNonEmpty | WebApp/handlers.cpp:899-902 | a page has rows if and only if its number is at most total_pages |
| Tables.Collected | WebApp/handlers.cpp:481-495 | adds exactly the one entry, with play count 0 and not a favourite; every other entry is unchanged |
| Tables.ToggledFavorite | WebApp/handlers.cpp:532-543 | negates the favourite flag of the one entry, keeps its play count and every other entry |
| Tables.Played | WebApp/handlers.cpp:580-591 | adds 1 to the play count of the one entry, keeps its flag and every other entry |
| Tables.Cleared | WebApp/handlers.cpp:628-639 | sets the play count of the one entry to 0, keeps its flag and every other entry |
| Tables.Uncollected | WebApp/handlers.cpp:676-686 | removes only that entry |
| Tables.WithoutMusic | WebApp/handlers.cpp:301-305 | keeps exactly the entries of other songs, unchanged |
| Tables.FavorTwiceIsIdentity | WebApp/handlers.cpp:532-543 | toggling the favourite flag twice restores the collection |
| Tables.ClearIsIdempotent | WebApp/handlers.cpp:628-639 | clearing twice equals clearing once |
| Tables.ClearForgetsPlays | WebApp/handlers.cpp:580-639 | a play followed by a clear equals the clear alone |
| Tables.CollectThenUncollect | WebApp/handlers.cpp:481-495 | collecting a new entry and deleting it again restores the collection |
| Tables.WithoutMusicIsIdempotent | WebApp/handlers.cpp:301-305 | after the cascade no entry names the song, and a second cascade changes nothing |
| Tables.Deactivated | WebApp/handlers.cpp:260-266 | the account stays, marked inactive with its other columns kept; every other account unchanged |
| Tables.DeletedAccountIsLockedOut | WebApp/handlers.cpp:238-266 | a deleted account's name stays taken and no password logs it in |
| Tables.LoggedIn | WebApp/handlers.cpp:742-743 | the session's "user" key holds the user's row; every other key is unchanged |
| Tables.LoggedOut | WebApp/handlers.cpp:772-774 | the "user" key is gone; every other key is unchanged |
| Tables.LogoutIsIdempotent | WebApp/handlers.cpp:769-779 | logging out twice equals logging out once |
| Tables.LoginThenLogout | WebApp/handlers.cpp:742-774 | logout after login leaves the session as logout alone would |
| Handlers.GetOrEmpty | WebApp/handlers.cpp:113-117 | the field's value when present, the empty string when absent |
| Handlers.NewAccount | WebApp/handlers.cpp:193-205 | the inserted account is active, stores the encoded password, is superuser iff the field reads "true", and holds the first name, last name and email fields, each empty when absent |
| Handlers.Database.UserRegister | WebApp/handlers.cpp:171-211 | missing username or password is reported; an existing username (active or not) is refused; otherwise exactly one account is added; other tables unchanged |
| Handlers.Database.UserDelete | WebApp/handlers.cpp:223-272 | missing fields, unknown user, inactive user and wrong password are refused without change; otherwise the account is deactivated and nothing else changes |
| Handlers.Database.ListDelete | WebApp/handlers.cpp:284-317 | a song that does not exist is refused; otherwise the song and every user's entry for it are removed, nothing else |
| Handlers.Database.ListRegister | WebApp/handlers.cpp:329-375 | an existing song name is refused; otherwise exactly that song is added |
| Handlers.Database.SingerRegister | WebApp/handlers.cpp:386-453 | the singer's row ends up holding the given record whether it existed or not; other singers unchanged |
| Handlers.Database.ListCollect | WebApp/handlers.cpp:464-503 | an already collected (song, user) pair is refused; otherwise exactly that entry is added with play count 0 and no favourite |
| Handlers.Database.CollectedEntry | WebApp/handlers.cpp:515-531 | the name field is required, a missing user field throws, and the guard passes (no refusal) iff the (song, user) entry exists |
| Handlers.Database.FavorSet | WebApp/handlers.cpp:515-551 | refused without change when the entry is absent; otherwise only its favourite flag is negated |
| Handlers.Database.PlaySet | WebApp/handlers.cpp:563-599 | refused without change when the entry is absent; otherwise only its play count grows by 1 |
| Handlers.Database.ClearSet | WebApp/handlers.cpp:611-647 | refused without change when the entry is absent; otherwise only its play count becomes 0 |
| Handlers.Database.DeleteSet | WebApp/handlers.cpp:659-694 | refused without change when the entry is absent; otherwise only that entry is removed |
| Handlers.UserLogin | WebApp/handlers.cpp:705-747 | succeeds iff the user exists, is active and the password is accepted; then the session holds the user's row, otherwise it is unchanged |
| Handlers.UserLogout | WebApp/handlers.cpp:769-779 | always succeeds; the session afterwards has no user and every other key unchanged |

## Left out

- The SQL text, transactions and commits, logging, and the row-to-object conversion: the tables are maps, not queries.
- Rendering, templates, static files, the HTTP method checks that throw "not found", the HTTP client and the WebSocket echo loop: input/output and foreign calls.
- Password encoding and checking: foreign cryptography, passed in as function parameters.
- The recommendation queries of the recommendations page: their meaning lives in SQL grouping and `>= all` aggregation.
- `get_or_zero`: for an absent key it builds a string from a null pointer, which is undefined behaviour.
- Handlers.Database.ListRegister: models only the path where the form validation passes; the validation reads misspelled keys ("legnth", "langauge"), so an ordinary form throws, and the stored row is taken as a parameter.
- Handlers.Database.SingerRegister: models only the path where the form validation passes; the validation reads keys ("birthyear", "sex", "sname") other than those it stores ("addbirthyear", "addsex"), so a form sending only the stored keys makes `as_string` throw on a null value before anything is written; the stored row is taken as a parameter.
- Request fields that are not strings: every field value is assumed to be a string. A JSON body may carry a number, a boolean or null instead, and then the handler's `as_string` read throws before anything is written (for example `user_register` with `"superuser": true`). For such input the handler contracts, which promise a reply and, on success, a change, do not apply.
- Handlers.GetOrEmpty: field values are assumed to contain no NUL character; `get_or_empty` goes through `c_str()` and so returns only the part before the first NUL, while the existence checks use the whole value, so for such a value the key checked and the key written can differ.
- Which rows a listing selects, and the link between the count and those rows: the count queries count whole tables while the row queries filter, and the collection and singer-detail listings and the first recommendation query (songs by the user's most-played singers) apply no limit or offset; pagination is a function of a given count and a given ordered row list.
- Parsing the page number with `std::stoi`: the model requires page >= 1, which the handlers never check.
- Paging.Window: integers are unbounded; the C++ `int` arithmetic `(int)count` and `page + 3` overflows for counts or pages near 2^31, which is not modelled.
- Paging.PageSlice: the offset `(page - 1) * 10` is a C++ `int` and overflows (undefined behaviour) once the page exceeds 2^31/10, about 214748365, a number any request can carry since the page comes from the URL; the model says such a page is simply empty.
- Tables.Played: the play count is unbounded; the column's integer width is not modelled.
- Uniqueness of (song, user) collection rows and of usernames is assumed (keys of maps); the store's own constraints, foreign keys and concurrent requests are not modelled.
- The session counters kept by other pages ("count", "cnt") are only carried along as session values.
