# airtable-back, modelled in Dafny

This project models the core of a small REST back end for a student-project
showcase. The back end keeps projects, comments and users in an Airtable base.
The model covers three parts:

- **The record-store service** (`airtableService`). It decodes records into
  projects with defaults, lists visible projects, and searches by substring. It
  computes statistics, creates projects with zero likes, and adds likes by
  read-modify-write. It also handles comments and creates users with a
  duplicate-name check.
- **The authentication chain.** This covers the bearer-token middleware, the
  admin gate, login, and registration with its validation order and
  first-user-is-admin rule.
- **The project routes' own logic.** This covers the required-field check and
  field defaulting of `POST /`, the 404 rule of `GET /:id`, and the form
  metadata of `GET /new`.

## Layout

| file | module | what it holds |
|---|---|---|
| `wrappers.dfy` | `Wrappers` | `Option`, `Result` |
| `strings.dfy` | `Strings` | JavaScript `split` and `join` on one character, and the formula language's `FIND` |
| `json.dfy` | `Json` | JSON request bodies and JavaScript truthiness |
| `records.dfy` | `Records` | A table is the sequence of its records in store order. Also: find, update and destroy by record id |
| `entities.dfy` | `Entities` | The cells of Projects, Comments and Users records. The decoded objects. The two project decodings with their defaults |
| `queries.dfy` | `Queries` | The visible-project listing, the search predicate, the lookup of a user by name, and the comments of a project |
| `statistics.dfy` | `Statistics` | The `getStatistics` fold. The `__proto__` finding |
| `airtable_service.dfy` | `AirtableService` | `class Base`: the three tables and a method per service operation |
| `auth.dfy` | `Auth` | The decision functions of the middleware and routes. `class Exchange` applies them to one request/response pair |
| `project_routes.dfy` | `ProjectRoutes` | `POST /`, `GET /:id` and `GET /new` |

### How the environment is modelled

- **The remote base** is `AirtableService.Base`, which holds three tables:
  - each table is a sequence of records with distinct ids, so listings keep the
    store's order;
  - new ids come from a serial counter;
  - `online` says whether the store answers during the request.
- **When the store does not answer:**
  - calls the source wraps into `null` yield `None`;
  - `addLike` throws 'Project not found', because its `getProjectById` yields
    `null` first;
  - `createUser` throws its prefixed message for an unreachable users table;
  - the others fail with `Unreachable`.
- **Crypto and the clock are parameters:**
  - token verification is `verify`;
  - bcrypt comparison is `compare`;
  - token signing is `sign`;
  - bcrypt hashing is `hash`;
  - the clock is a string `now`.

## Model

| member | source | states |
|---|---|---|
| Strings.Split | src/routes/auth.ts:31 | `split(' ')` yields at least one piece, and no piece contains the separator |
| Strings.JoinSplit | src/routes/auth.ts:31 | Joining the pieces of a split with the separator gives back the header |
| Strings.SplitWithoutSeparator | src/routes/auth.ts:31 | A header without a space is one piece, so it has no second piece |
| Strings.SplitAfterPrefix | src/routes/auth.ts:31 | Splitting `a + ' ' + b`, where `a` has no space, gives `a` followed by the pieces of `b` |
| Strings.Find | src/lib/airtable.service.ts:256-262 | `FIND` is the 1-based position of the first occurrence of the query, or 0 when there is none |
| Strings.FindPositiveIffOccurs | src/lib/airtable.service.ts:256-262 | `FIND(q, s) > 0` holds exactly when `q` is a substring of `s` |
| Records.Lookup | src/lib/airtable.service.ts:112 | `find` yields nothing exactly when no record has the id. Otherwise it yields a record of the table with that id |
| Records.LookupFindsRecord | src/lib/airtable.service.ts:112 | With distinct ids, finding a record's id yields that record |
| Records.Replace | src/lib/airtable.service.ts:182-203 | `update` changes the cells of the record with that id. Length, ids, order and every other record stay as they were |
| Records.LookupReplaced | src/lib/airtable.service.ts:182-203 | After an update, finding the id yields the new cells |
| Records.LookupOtherAfterReplace | src/lib/airtable.service.ts:240-242 | An update of one record does not change what any other id finds |
| Records.Remove | src/lib/airtable.service.ts:479 | `destroy` keeps exactly the records with other ids, and it keeps ids distinct |
| Entities.ListedDefaults | src/lib/airtable.service.ts:71-93 | An empty record decodes to these defaults: `''`, `[]`, 'En cours', 'Intermédiaire', the current time, `false` and 0. Its projectID is the record id |
| Entities.ListedIsComplete | src/lib/airtable.service.ts:71-93 | The listing's decoding always fills every text field, and status, difficulty and startDate are never empty |
| Entities.ListedRoundTrip | src/lib/airtable.service.ts:71-93 | Decoding keeps every present value: a complete project written back as cells decodes to itself |
| Entities.ListedIdempotent | src/lib/airtable.service.ts:71-93 | Decoding the cells of a decoded project again changes nothing |
| Entities.DecodingsAgreeOnFullRecords | src/lib/airtable.service.ts:113-134 | The single-record decoding and the listing's decoding agree on records whose text cells are all present |
| Entities.DecodedEnumerations | src/lib/airtable.service.ts:27-28 | An empty status or difficulty, or one from its type union, decodes into that union |
| Queries.VisibleProjects | src/lib/airtable.service.ts:62-98 | Every record that is not hidden gives exactly one decoded project, and nothing else does. The result length is the table length minus the hidden count |
| Queries.MatchesIffSubstring | src/lib/airtable.service.ts:256-262 | A record matches exactly when the query is a case-sensitive substring of name, description, technologies, category or tags |
| Queries.SearchResults | src/lib/airtable.service.ts:253-287 | Each matching record is decoded exactly once, in store order: the result has as many entries as there are matches, and the match at index `i` sits at the position counting the matches before it. Hidden records are not excluded |
| Queries.SearchSingleMatch | src/lib/airtable.service.ts:253-287 | When exactly one record matches, the search returns exactly that project |
| Queries.NoMatches | src/lib/airtable.service.ts:253-287 | When no record matches, the search returns nothing |
| Queries.UserByName | src/lib/airtable.service.ts:371-391 | The result is null exactly when no user has the name. Otherwise it is the first record with that name |
| Queries.UserByNameFindsRecord | src/lib/airtable.service.ts:371-391 | With unique usernames, looking up a user's name finds that user |
| Queries.CommentsFor | src/lib/airtable.service.ts:318-331 | Each comment whose projectID cell is the given id is decoded exactly once, in store order, and no other comment appears |
| Statistics.KeysAreCounted | src/lib/airtable.service.ts:301-304 | A category is a key of the histogram exactly when at least one project has it |
| Statistics.Tally | src/lib/airtable.service.ts:295-310 | totalProjects is the number of projects and totalLikes is the sum of their likes. Each histogram key counts exactly the projects of that category |
| Statistics.CategoryCountsSumToTotal | src/lib/airtable.service.ts:298-304 | The category counts add up to totalProjects, whatever order the keys are listed in |
| Statistics.ProtoCategoryIsDropped | src/lib/airtable.service.ts:301-304 | As written, a project of category `__proto__` leaves the histogram empty while totalProjects is 1 |
| AirtableService.LikedCells | src/lib/airtable.service.ts:240-242 | After a like the likes cell holds old likes + 1, with an absent value counted as 0. Every other cell of the record is unchanged |
| AirtableService.LikedIncrements | src/lib/airtable.service.ts:235-245 | A like on an existing project returns old likes + 1. The record then holds exactly those cells, and the table keeps its length |
| AirtableService.LikedLeavesOthers | src/lib/airtable.service.ts:240-242 | A like leaves every other record as it was |
| AirtableService.LikedUnknown | src/lib/airtable.service.ts:236-238 | A like on an unknown id throws 'Project not found' and writes nothing |
| AirtableService.LikedTwice | src/lib/airtable.service.ts:235-245 | Two sequential likes add 2 |
| AirtableService.PatchProjectLaws | src/lib/airtable.service.ts:180-202 | An update that sends no field changes nothing. Sending the same fields twice is the same as sending them once |
| AirtableService.Base.GetAllProjects | src/lib/airtable.service.ts:54-107 | Returns the visible projects decoded with defaults, or fails when the store does not answer |
| AirtableService.Base.GetProjectById | src/lib/airtable.service.ts:110-139 | Returns the decoded record exactly when the store answers and has the id. Otherwise it returns null |
| AirtableService.Base.CreateProject | src/lib/airtable.service.ts:143-172 | Stores and returns the given cells with likes forced to 0, under a fresh id. The other tables are untouched |
| AirtableService.Base.UpdateProject | src/lib/airtable.service.ts:180-231 | Changes only the fields sent, and returns the record decoded. An unknown id yields null and writes nothing |
| AirtableService.Base.AddLike | src/lib/airtable.service.ts:235-250 | Follows `Liked` on the table. When the store does not answer it throws 'Project not found' and writes nothing |
| AirtableService.Base.SearchProjects | src/lib/airtable.service.ts:253-292 | Returns the search results, or fails when the store does not answer |
| AirtableService.Base.GetStatistics | src/lib/airtable.service.ts:295-315 | Returns the count, the likes sum and the category histogram of the visible projects, with each category counted exactly. The histogram follows the corrected `Statistics.Tally` of "## Findings", not the code as written, which drops a `__proto__` category |
| AirtableService.Base.GetComments | src/lib/airtable.service.ts:318-336 | Returns the comments of the given project, or fails when the store does not answer |
| AirtableService.Base.AddComment | src/lib/airtable.service.ts:338-358 | Appends one comment stamped with the current time under a fresh id, and returns it |
| AirtableService.Base.DeleteComment | src/lib/airtable.service.ts:361-368 | Removes exactly that comment. An unknown id is an error and changes nothing |
| AirtableService.Base.GetUserByUsername | src/lib/airtable.service.ts:371-392 | Returns the first user with the name, or null when there is none |
| AirtableService.Base.CreateUser | src/lib/airtable.service.ts:395-444 | A taken username fails with the prefixed message and creates nothing. Otherwise exactly one record with the given cells is added. Unique usernames are preserved |
| AirtableService.Base.GetUserById | src/lib/airtable.service.ts:446-459 | Returns the decoded user exactly when the store answers and has the id. Otherwise it returns null |
| AirtableService.Base.GetAllUsers | src/lib/airtable.service.ts:462-475 | Returns every user decoded, in store order |
| AirtableService.Base.DeleteProject | src/lib/airtable.service.ts:477-484 | Removes exactly that project and leaves its comments. An unknown id is an error and changes nothing |
| AirtableService.Base.GetCommentById | src/lib/airtable.service.ts:486-500 | Returns the decoded comment exactly when the store answers and has the id |
| AirtableService.Base.UpdateComment | src/lib/airtable.service.ts:502-519 | Changes only the content, projectID and author sent, and returns the comment decoded, or null |
| Auth.TokenOf | src/routes/auth.ts:30-31 | A token, when there is one, is non-empty and contains no space |
| Auth.BearerToken | src/routes/auth.ts:30-31 | A header whose second word is a non-empty token yields that token, whatever the scheme word |
| Auth.TokenNeedsSpace | src/routes/auth.ts:30-43 | A header without a space, such as a bare token, yields no token |
| Auth.TokenIsSecondWord | src/routes/auth.ts:30-31 | Any token obtained is the second space-separated word of the header |
| Auth.AuthenticateAdmitsExactly | src/routes/auth.ts:29-69 | A request passes exactly when its token verifies to the id of a stored user. The attached user is that record's id, username and role, never the password |
| Auth.AuthenticateRejections | src/routes/auth.ts:39-67 | Every refusal is 401 'Token manquant', 403 'Token invalide' or 401 'Utilisateur non trouvé'. Each is tied to its cause: 401 'Token manquant' exactly when there is no token, 403 'Token invalide' exactly when the token does not verify, and 401 'Utilisateur non trouvé' exactly when it verifies but the store does not answer or has no such id |
| Auth.AdminRouteAdmits | src/routes/auth.ts:72-78 | Behind the middleware, the admin gate lets a request through exactly when its token names a stored user whose role is 'admin' |
| Auth.LoginSucceedsExactly | src/routes/auth.ts:81-103 | Login succeeds exactly when the first user with the name has a hash the password matches. The token is signed for that id with expiry '24h' |
| Auth.LoginHidesUnknownUsers | src/routes/auth.ts:85-95 | An unknown username and a wrong password get the same 401 'Identifiants invalides' |
| Auth.RegistrationValidation | src/routes/auth.ts:111-118 | The body passes exactly when both credentials are non-empty and the password has at least 6 characters. The missing check comes first: any missing or empty credential is reported as missing, and the short-password error comes exactly when both are given and the password has fewer than 6 characters |
| Auth.RegistrationCreates | src/routes/auth.ts:120-148 | A valid body for a free name creates a user whose password cell is the hash. The user is 'admin' exactly when the table was empty |
| Auth.RegistrationKeepsAdminFirst | src/routes/auth.ts:130-140 | Registering keeps the first user the only admin |
| Auth.Exchange.AuthenticateToken | src/routes/auth.ts:29-69 | Applies `Authenticate`. On success it attaches the user and calls `next` once. On refusal it sends the status and error and does not call `next` |
| Auth.Exchange.IsAdmin | src/routes/auth.ts:72-78 | Calls `next` exactly for an attached admin. Otherwise it sends 403 'Accès non autorisé' |
| Auth.Exchange.Login | src/routes/auth.ts:81-103 | Sends the session or the refusal that `LoginOutcome` decides |
| Auth.Exchange.Register | src/routes/auth.ts:106-160 | A refusal sends its status and creates nothing. Otherwise it sends 201 with the new id, the role and 'Utilisateur créé avec succès (role)', and adds exactly one user. Admin-first and unique names are preserved |
| ProjectRoutes.MissingFrom | src/routes/projects.ts:64-65 | The missing fields are exactly the required fields whose body value is falsy, in their order. The list is empty exactly when all are present |
| ProjectRoutes.FormattedData | src/routes/projects.ts:75-83 | Every body field is kept and likes is 0. Falsy technologies, students and tags become `''`, startDate becomes the current time, and isHidden becomes `false` |
| ProjectRoutes.FormattedIdempotent | src/routes/projects.ts:75-83 | Formatting twice is the same as formatting once |
| ProjectRoutes.PostProjectDecides | src/routes/projects.ts:63-87 | The route refuses with 400 and the joined missing names exactly when a required field is falsy. Otherwise it creates the formatted body |
| ProjectRoutes.EmptyBodyMessage | src/routes/projects.ts:64-72 | An empty body gets 'Les champs suivants sont requis: name, description, category, promotion' |
| ProjectRoutes.ShowProject | src/routes/projects.ts:44-51 | 404 'Projet non trouvé' exactly when `getProjectById` yields null. Otherwise the route returns the project |
| ProjectRoutes.NewProjectFormLists | src/routes/projects.ts:19-36 | 401 'Non autorisé' exactly without a user. Otherwise the form carries five categories, and difficulties and statuses equal the project type's unions |
| ProjectRoutes.NewProjectFormBehindAuth | src/routes/projects.ts:19-24 | Behind the middleware, the 401 of `GET /new` cannot happen |

## Left out

- The Airtable SDK, the network, environment loading and logging. The base is
  modelled as three in-memory tables, and a failure of the store is the
  `online` flag.
- Filter-formula strings and their injection hazard. The search, the username
  filter and the comment filter are modelled as the predicates they intend. A
  query or name containing a quote is not modelled.
- `FIND` with an empty query. The model answers 1 at the start of any text. How
  Airtable treats an empty `FIND` needle is not modelled.
- List cells (technologies, tags) are seen by the formula language as their
  items joined with ", ". This is an assumption about Airtable, not something
  in this repository.
- bcrypt, JWT signing and verification, and token expiry. These are the
  parameters `hash`, `compare`, `sign` and `verify`. A token that verifies but
  carries no `userID` is treated like one naming an unknown user.
- The wall clock (`new Date().toISOString()`) is the parameter `now`.
- Concurrency. The lost update of two simultaneous `addLike` calls is not
  modelled, only sequential calls.
- JavaScript numbers are unbounded integers here, with no floating point, no
  `NaN` and no overflow.
- Cells of the wrong type are not modelled: each column holds values of its
  declared type.
- Lengths count characters, not UTF-16 code units: the 6-character password
  rule uses `|password|`.
- Non-string `username`/`password` values in the login and registration bodies
  are not modelled. Those values are absent or strings. This also leaves out
  the outer `catch` of `/register` (`src/routes/auth.ts:153-159`), which only
  such values could reach.
- JSON `null` sent in an update. In `updateProject`/`updateComment` a field is
  either sent or left out.
- `ProjectRoutes.PostProject` stops where `createProject` is called with the
  formatted body. The hand-off from that untyped JSON object to the typed
  record cells is not modelled, and neither are the 201/500 replies after it.
- The other project routes (`GET /`, like, `PUT`, `DELETE`, search,
  statistics) only forward to the service and map errors to 500, so only the
  service side is modelled.
- `src/routes/comments.ts`, `src/index.ts` and `src/types/index.ts` are not
  part of this model. They are pass-through handlers, server set-up and unused
  declarations. The `isAuthorOrAdmin` middleware is not part of this model.
- `Statistics.CategoriesAsWritten` models only the `__proto__` key of the
  plain-object histogram. Other inherited names (`constructor`, `toString`, …)
  read a function first and store a string, which is not modelled.
- `AirtableService.Base.GetStatistics` computes the corrected histogram of
  `Statistics.Tally`, not the plain-object reduction as written: a `__proto__`
  category is counted rather than dropped, and other inherited names are
  counted rather than stored as strings.
- `AirtableService.Base.CreateUser` does not model a second, racing creation
  of the same username between its check and its write.

## Findings

| source | as written | input that shows it | evidently intended | confidence | as-written member | corrected member |
|---|---|---|---|---|---|---|
| src/lib/airtable.service.ts:301-304 | The histogram is a plain object `{}` updated by `acc[category] = (acc[category] \|\| 0) + 1`. For the key `__proto__` the read yields the prototype, and the write is silently ignored | One visible project whose category is `__proto__`: `categories` comes out empty while `totalProjects` is 1 | Every category, `__proto__` included, is counted, and the counts add up to `totalProjects` | not executed; depends on JavaScript's `__proto__` accessor on plain objects | Statistics.ProtoCategoryIsDropped | Statistics.Tally |
