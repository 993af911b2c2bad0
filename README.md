# Defect tracking back end: access policy, entity lifecycle and migrations

This project models a construction-site defect tracker. The back end is a
Go service built on gin and gorm over PostgreSQL. Users have one of three
roles: observer, engineer or manager. Managers own projects. Defects are
raised against projects and assigned to users. Users comment on defects.

The model covers:

- **Access gates.** The route table, the bearer-token middleware and the
  role middleware decide who reaches which handler.
- **Handlers.** Each handler checks its input in a fixed order, answers
  with an HTTP status, and either changes the store or leaves it alone.
- **Migration bookkeeping.** This is the record of which schema migrations
  are applied.
- **Environment defaults.** These are the defaults the configuration
  reads from the environment.
- **Two browser-side functions.** One is the comment-deletion rule. The
  other generates the demo defect statistics.

Modules, one per source file:

- `Wrappers`: the Option type.
- `Http`: statuses and the `Reply` type a handler answers with.
- `Models`: roles, the string-typed enumerations, the entities, and the
  request payloads with their binding rules.
- `Strconv`: Go's `strconv.Atoi`/`Itoa` and `fmt.Sscanf("%d")`, on text.
- `Config`: `getEnv`, `getEnvAsInt` and `GetConfig`.
- `Auth`: claim construction, `AuthMiddleware` and `RoleMiddleware`. The
  gin request context is a class.
- `Routes`: the route table, gin's route resolution, and the middleware
  pipeline as a pure function and as a method on the context.
- `Store`: the database.
  - `Database` is a class holding one map per table plus the next
    primary key of each.
  - Rows carry gorm's soft-delete marker.
  - `KeysBelow` and `FirstKey` are what gorm's `Find` and `First` read.
    `First` orders by primary key. `Find` sends no ORDER BY, so its
    order is up to the database; the model lists its rows in ascending
    key order.
- `UserController`, `ProjectController`, `DefectController`,
  `CommentController`, `DebugController`: one method per handler.
  - A handler that writes states its whole new `State()`.
  - The handler's checks, in source order, are a pure `…Failure` function
    with a lemma stating what it means.
- `Migrations`: `MigrationService` as a class. `RunMigrations` is proved
  against the recursive specification `RunFrom`, and `RollbackMigration`
  against `LastApplied`.
- `CommentService`, `DefectService`: the two front-end functions.

Inputs the service gets from libraries or from outside are parameters:

- the bcrypt hash (an `Option`, where `None` is a hashing error);
- password verification;
- JWT validation;
- the e-mail validator's verdict;
- the wall clock;
- the outcomes of each migrator's `Up` and `Down`.

Where the source is inconsistent:

- The registration payload has no role field, yet the handler copies
  `userReg.Role`, so the handler does not compile as written. The model
  stores the column default, observer (backend/models/user.go:26).
- `GetEngineers` is modelled but no route reaches it.

## Model

| member | source | states |
|---|---|---|
| Models.ParseRole | backend/models/user.go:11-17 | a role text is accepted iff it is `observer`, `engineer` or `manager`, and the accepted role prints back as that text |
| Models.RoleNameRoundTrip | backend/models/user.go:14-16 | every role's name parses back to the same role |
| Models.EnumerationSizes | backend/models/defect.go:12-27 | five distinct defect statuses and three priorities (and three project statuses, backend/models/project.go:13-15) |
| Models.View | backend/models/user.go:20-30 | the serialized user keeps id, username, email, full name and role |
| Models.ViewHidesPasswordHash | backend/models/user.go:24 | the serialized user does not depend on the password hash |
| Strconv.AtoiItoa | backend/controllers/user_controller.go:242-246 | `Atoi` reads back every 64-bit integer from its decimal text |
| Strconv.ScanIntItoa | backend/config/config.go:76-80 | `Sscanf("%d")` reads a 64-bit integer's decimal text, whatever non-digit text follows |
| Config.GetEnv | backend/config/config.go:62-68 | the default when the variable is unset or empty, otherwise its value |
| Config.GetEnvAsInt | backend/config/config.go:70-83 | the default for empty text and for text that does not scan as an integer, the scanned integer otherwise |
| Config.GetEnvAsIntReadsDecimal | backend/config/config.go:70-83 | a variable holding an integer's decimal text, possibly followed by non-digits, reads as that integer |
| Config.WrapInt64 | backend/config/config.go:44-45 | `time.Duration` arithmetic lands in the int64 range, congruent to the exact value mod 2^64 and equal to it when it fits |
| Config.DefaultConfiguration | backend/config/config.go:40-60 | with an empty environment: port 8080, 10-second timeouts, 24-hour tokens, the stated secret and database defaults |
| Config.ReadTimeoutFromEnv | backend/config/config.go:44 | a read timeout of n seconds that fits a Duration becomes n·10^9 nanoseconds |
| Auth.IssueClaims | backend/middleware/auth.go:24-33 | the claims carry the user's id, username and role; issue time is now in seconds; expiry is issue time plus the configured hours whenever that lifetime fits an int64 |
| Auth.JoinSplit | backend/middleware/auth.go:75 | `strings.Split` loses nothing: joining the pieces rebuilds the header |
| Auth.SplitPiecesHaveNoSeparator | backend/middleware/auth.go:75 | no piece of the split contains a space |
| Auth.SplitAtFirstSeparator | backend/middleware/auth.go:75 | splitting `a + " " + b` with no space in `a` gives `a` followed by the pieces of `b` |
| Auth.BearerTokenExact | backend/middleware/auth.go:69-80 | the header is accepted iff it is exactly `Bearer` + one space + a token without spaces (so the empty header is refused) |
| Auth.Authenticate | backend/middleware/auth.go:68-87 | admitted iff the header is `Bearer <token>` with a token the validator accepts, and the claims are the validator's |
| Auth.ValuesOf | backend/middleware/auth.go:90-92 | the context gets exactly the claims' user id, username and role |
| Auth.Context.AbortWith | backend/middleware/auth.go:70-71 | aborting records the status and keeps the context values |
| Auth.AuthMiddleware | backend/middleware/auth.go:66-96 | a refused header aborts with 401 and sets nothing; an accepted one sets the claims' values and does not abort |
| Auth.RoleGateAdmitsMembers | backend/middleware/auth.go:101-122 | no role in the context is 401; a role passes iff it is in the list, otherwise 403 |
| Auth.RoleMiddleware | backend/middleware/auth.go:99-126 | the membership loop aborts with exactly the gate's status and otherwise leaves the context alone |
| Routes.Serve | backend/routes/routes.go:14-125 | on a fresh context the CORS middleware, routing and the route's middlewares answer or pick a handler exactly as `Admit` says |
| Routes.OptionsAnsweredFirst | backend/routes/routes.go:27-30 | every OPTIONS request is answered 204, before routing and before any token is read |
| Routes.ApiRoutesNeedToken | backend/routes/routes.go:87-88 | without an accepted token every `/api` route is 401 (and an unknown path 404) |
| Routes.PublicRoutesIgnoreHeader | backend/routes/routes.go:42-84 | `/auth` and `/debug` routes do not depend on the Authorization header or the validator |
| Routes.ManagerOnlyRoutes | backend/routes/routes.go:95-105 | the user list, role change and project create, update and delete run only for a signed-in manager |
| Routes.DefectDeletionRoles | backend/routes/routes.go:118 | defect deletion runs only for a signed-in manager or engineer |
| Routes.SignedInRoutesAdmitEveryRole | backend/routes/routes.go:90-122 | routes without a role gate run for any signed-in role, with the token's values in the context |
| Routes.WrongRoleIsForbidden | backend/routes/routes.go:95-118 | a signed-in role outside a gated route's list is 403 |
| Routes.CommentRoutesBeforeDefectIds | backend/routes/routes.go:109-123 | `/defects/comments/:id` and `/defects/:id/comments` reach the comment handlers; DELETE `/defects/comments` is a defect deletion with id `comments` |
| Store.KeysBelow | backend/controllers/project_controller.go:88-92 | `Find` returns exactly the rows the conditions accept; the model lists them in ascending key order |
| Store.FirstKey | backend/controllers/user_controller.go:45 | `First` returns the smallest key the conditions accept, or none exactly when no row qualifies |
| Store.WideIdTextRefused | backend/migrations/002_create_projects.go:21 | text that `Atoi` reads as a 64-bit `int` can still lie outside an `INTEGER` id column's range, and the database then refuses it |
| Store.PrimaryKeyLookup | backend/controllers/project_controller.go:130-134 | in a table whose rows carry their own keys, gorm's `First(&row, id)` query (that id, not deleted, lowest id first) finds a row exactly when the direct key lookup finds a live row, and it is the same row |
| Store.InsertKeepsCredentialsUnique | backend/models/user.go:22-23 | inserting a user whose username and email no row holds keeps both unique indexes satisfied |
| Store.SaveKeepsCredentialsUnique | backend/models/user.go:22-23 | saving a user without changing username or email keeps the unique indexes satisfied |
| UserController.FindByUsernameOrEmail | backend/controllers/user_controller.go:45 | finds a live user exactly when one has the username or the email |
| UserController.LoginLookup | backend/controllers/user_controller.go:104 | the identifier matches the live user with the smallest id whose username or email equals it; none iff no live user has it as either |
| UserController.NewUser | backend/controllers/user_controller.go:58-64 | the new user carries the payload's username and email, the hash, and the observer role |
| UserController.RegisterFailureMeaning | backend/controllers/user_controller.go:43-73 | a live user with the same username or email gives 400; a valid payload is stored iff hashing works and no row, deleted or not, holds the username or email |
| UserController.RegisterValidatesPayload | backend/models/user.go:34-37 | a payload breaking a binding rule is 400 whatever the table holds |
| UserController.Register | backend/controllers/user_controller.go:31-88 | on failure nothing is stored; otherwise exactly one observer row is added under the next id and returned without its hash |
| UserController.Login | backend/controllers/user_controller.go:91-139 | 400 for a bad body; the same 401 for an unknown identifier and a wrong password; on success a token for the user found, matching the user returned |
| UserController.GetProfile | backend/controllers/user_controller.go:142-164 | returns only the caller's own live record; 401 without a user id, 404 when it is gone |
| UserController.SafeUsers | backend/controllers/user_controller.go:178-188 | the loop copies every user into its hash-free view, in order |
| UserController.GetAllUsers | backend/controllers/user_controller.go:167-194 | exactly the live users, without hashes (listed in ascending key order) |
| UserController.GetEngineers | backend/controllers/user_controller.go:197-234 | exactly the live engineers, minus the caller when the caller is an engineer |
| UserController.RoleChangeFailureMeaning | backend/controllers/user_controller.go:237-289 | changing one's own role is 403 before the body is read; the change goes through iff the id is numeric, names a live other user and the body names a role |
| UserController.UpdateUserRole | backend/controllers/user_controller.go:237-303 | on failure nothing is stored; otherwise only the target's role changes |
| UserController.RegisteredUsernameShadowedByEmail | backend/controllers/user_controller.go:45-48 | as written: a username equal to another account's email passes registration and `Login` then finds the other account |
| UserController.CorrectedRegistrationCanLogIn | backend/controllers/user_controller.go:104-108 | with the widened duplicate check, everything the original refuses is refused, and a registered user is found by `Login` by username and by email |
| UserController.LoginFindsRegisteredUser | backend/controllers/user_controller.go:104-108 | when no live account's username or email equals the new username or email, `Login` finds the new account by either |
| ProjectController.NewProject | backend/controllers/project_controller.go:42-55 | a new project gets the payload's fields, and status `active` when none is given |
| ProjectController.CreateProjectFailureMeaning | backend/controllers/project_controller.go:29-39 | a valid payload is stored iff the manager id names a live user, whatever that user's role |
| ProjectController.CreateProject | backend/controllers/project_controller.go:26-67 | on failure nothing is stored; otherwise exactly one project row is added under the next id |
| ProjectController.GetAllProjects | backend/controllers/project_controller.go:70-97 | exactly the live projects matching every given filter (listed in ascending key order); 500 for a manager filter that is not a number or lies outside the 32-bit `INTEGER` range of `manager_id` |
| ProjectController.GetProject | backend/controllers/project_controller.go:100-112 | the live project with the numeric id, otherwise 404 |
| ProjectController.ProjectUpdateLaws | backend/controllers/project_controller.go:137-163 | an update keeps id and deletion state, an empty update changes nothing, and an update applied twice is applied once |
| ProjectController.ProjectUpdatesCompose | backend/controllers/project_controller.go:137-163 | two updates in a row equal one update taking each field from the later one when it supplies it |
| ProjectController.OverwriteSuppliedFields | backend/controllers/project_controller.go:137-154 | the field-by-field overwrite equals the partial update without the manager |
| ProjectController.UpdateProjectFailureMeaning | backend/controllers/project_controller.go:117-163 | an update goes through iff the id is numeric, the project is live and a supplied manager is a live user; a missing project is 404 |
| ProjectController.UpdateProject | backend/controllers/project_controller.go:115-174 | on failure nothing is stored; otherwise only that project changes, to the partial update |
| ProjectController.DeleteProject | backend/controllers/project_controller.go:177-196 | a missing project is 404; otherwise only its deletion marker is set and lookups no longer find it |
| DefectController.AssignmentPolicy | backend/controllers/defect_controller.go:59-64 | assignment is refused exactly when an engineer assigns a non-engineer; other roles are not restricted |
| DefectController.NewDefect | backend/controllers/defect_controller.go:68-83 | a new defect has status `new`, the caller as reporter, the payload's title, description, project, assignee and due date, and priority `medium` when none is given |
| DefectController.CreateDefectFailureMeaning | backend/controllers/defect_controller.go:29-65 | a defect is created iff the payload binds, the caller is known, the project is live and the assignee is none or a live user the caller may assign; an engineer assigning a non-engineer is 403 |
| DefectController.CreateDefect | backend/controllers/defect_controller.go:26-95 | on failure nothing is stored; otherwise exactly one defect row is added under the next id |
| DefectController.EffectiveFilters | backend/controllers/defect_controller.go:103-107 | a path id replaces the project filter; the other filters are kept |
| DefectController.SatisfiesAllAppend | backend/controllers/defect_controller.go:109-131 | adding a condition to the query narrows it by exactly that condition |
| DefectController.BuildConditions | backend/controllers/defect_controller.go:109-131 | the conditions built one filter at a time accept exactly the defects matching every given filter |
| DefectController.GetAllDefects | backend/controllers/defect_controller.go:98-142 | exactly the live defects matching every effective filter (listed in ascending key order); 500 for an id filter that is not a number or lies outside the 32-bit `INTEGER` range of its column |
| DefectController.GetDefect | backend/controllers/defect_controller.go:145-157 | the live defect with the numeric id, otherwise 404 |
| DefectController.DefectUpdateLaws | backend/controllers/defect_controller.go:182-212 | an update never changes id, project, reporter or deletion state; an empty update changes nothing; an update is idempotent; any non-empty status is accepted |
| DefectController.UpdateDefectFailureMeaning | backend/controllers/defect_controller.go:161-209 | an update goes through iff the id is numeric, the defect is live and a supplied assignee is a live user the caller may assign; an engineer assigning a non-engineer is 403 |
| DefectController.OverwriteSuppliedFields | backend/controllers/defect_controller.go:182-193 | the field-by-field overwrite equals the partial update without assignee and due date |
| DefectController.UpdateDefect | backend/controllers/defect_controller.go:160-223 | on failure, the assignee check included, nothing is stored; otherwise only that defect changes, to the partial update |
| DefectController.DeleteDefect | backend/controllers/defect_controller.go:226-245 | a missing defect is 404; otherwise only its deletion marker is set |
| CommentController.DeletionRule | backend/controllers/comment_controller.go:109 | a comment may be deleted iff the caller wrote it or is a manager |
| CommentController.CreateCommentFailureMeaning | backend/controllers/comment_controller.go:28-45 | a comment is created iff it names a defect, has content, the caller is known and the defect is live |
| CommentController.CreateComment | backend/controllers/comment_controller.go:25-66 | on failure nothing is stored; otherwise one comment is added whose author is the caller |
| CommentController.GetDefectComments | backend/controllers/comment_controller.go:69-81 | exactly the live comments of that defect id (listed in ascending key order); 500 for an id that is not a number or lies outside the 32-bit `INTEGER` range of `defect_id` |
| CommentController.DeleteCommentFailureMeaning | backend/controllers/comment_controller.go:102-112 | a missing comment is 404 for everyone; an existing one is deleted iff the caller wrote it or is a manager |
| CommentController.DeleteComment | backend/controllers/comment_controller.go:84-123 | on failure nothing is stored; otherwise only the comment's deletion marker is set |
| DebugController.FindByUsername | backend/controllers/debug_controller.go:43 | finds a live user exactly when one has that username; an email does not match |
| DebugController.ResetFailureMeaning | backend/controllers/debug_controller.go:30-55 | a reset goes through iff the username is given, the new password has at least 6 characters, a live user has that username and hashing works |
| DebugController.ResetUserPassword | backend/controllers/debug_controller.go:29-77 | on failure nothing is stored; otherwise only that user's password hash changes |
| DebugController.TestUser | backend/controllers/debug_controller.go:82-120 | the test user is a live manager named `testuser` with `test@example.com` |
| DebugController.CreateTestUser | backend/controllers/debug_controller.go:80-142 | an existing user with that username or email is returned and nothing is stored; otherwise exactly one manager row is added |
| DebugController.TestUserCreationIsIdempotent | backend/controllers/debug_controller.go:89-103 | after a creation the next call finds the test user, so it creates nothing more |
| Migrations.IndexOfName | backend/migrations/migration.go:56 | the first record with the name, or none iff no record has it |
| Migrations.SkipIfApplied | backend/migrations/migration.go:58-61 | an applied migration is skipped: no `Up` call and no change |
| Migrations.StepInsertsOrFlips | backend/migrations/migration.go:75-91 | after a successful `Up` the migration has an applied record, other records are unchanged, and names stay unique |
| Migrations.StepKeepsApplied | backend/migrations/migration.go:51-97 | one iteration keeps the table valid and never un-applies a record |
| Migrations.RunKeepsApplied | backend/migrations/migration.go:51-97 | a run keeps the table valid and never un-applies a record |
| Migrations.SuccessfulRunAppliesAll | backend/migrations/migration.go:51-97 | after a run without failure every listed migration is applied |
| Migrations.RunOverAppliedChangesNothing | backend/migrations/migration.go:51-61 | a run over applied migrations calls no `Up` and changes nothing |
| Migrations.SecondRunChangesNothing | backend/migrations/migration.go:46-102 | running again after a successful run calls no `Up` and changes no record |
| Migrations.RunFromAppend | backend/migrations/migration.go:51 | migrators run in list order: a run over `pre + rest` is the run over `pre`, then, if it did not fail, over `rest` |
| Migrations.RunStopsAtFirstFailure | backend/migrations/migration.go:69-72 | the first failing `Up` ends the run: earlier steps keep their effect, the failing one records nothing, later ones are not attempted |
| Migrations.LastApplied | backend/migrations/migration.go:106-109 | the applied record with the largest id, or none iff none is applied |
| Migrations.MigrationService.RunMigrations | backend/migrations/migration.go:46-102 | a failed setup changes nothing; otherwise the table and `Up` log are those of `RunFrom`, with the first failing migration reported |
| Migrations.MigrationService.ApplyOne | backend/migrations/migration.go:52-97 | the loop body does exactly one `Step` |
| Migrations.MigrationService.RollbackMigration | backend/migrations/migration.go:105-146 | targets the newest applied record; no record or no migrator of that name changes nothing; a successful `Down` clears only that record's flag |
| Migrations.FirstMigratorNamed | backend/migrations/migration.go:112-118 | the first migrator carrying the name |
| Migrations.RollbackTargetsNewest | backend/migrations/migration.go:106-137 | after a rollback the newest applied record, if any, is older than the one just rolled back |
| Migrations.RunnerOrderDistinct | backend/migrations/runner.go:10-17 | the runner lists five distinct migrations and not `006_seed_admin_user` |
| Migrations.FreshRunAppendsInOrder | backend/migrations/migration.go:51-97 | migrators with distinct unrecorded names whose `Up`s succeed are each called once, in list order, and appended as applied records in that order |
| Migrations.FirstRunOfRunnerList | backend/migrations/runner.go:21-30 | on an empty table a successful run of the runner's list calls the five `Up`s once each in list order and records them as applied with ids 1 to 5 |
| CommentService.CanDeleteComment | frontend/src/services/commentService.ts:120-130 | no user cannot delete; a `manager` can delete any comment; anyone else iff they wrote it |
| CommentService.AgreesWithBackEnd | frontend/src/services/commentService.ts:120-130 | for a back-end user the browser's verdict equals the handler's rule |
| DefectService.Seed | frontend/src/services/defectService.ts:102 | the seed lies in [0, 100) for a non-negative id, with JavaScript's sign-keeping `%` |
| DefectService.DemoStatsBounds | frontend/src/services/defectService.ts:100-112 | for a non-negative id, active and resolved each lie in 1..10 and total is their sum |
| DefectService.DemoStatsPeriodic | frontend/src/services/defectService.ts:100-112 | the figures depend only on the id modulo 100 |
| DefectService.DemoStatsNegativeId | frontend/src/services/defectService.ts:102-105 | a negative id leaves the 1..10 range (id -1 gives -1, -2, -3) |
| DefectService.CancelledSpellingMismatch | frontend/src/services/defectService.ts:9 | as written: the back end's `canceled` is outside the front-end union, whose `cancelled` no back-end constant names |
| DefectService.FrontStatusesMatchBackEnd | frontend/src/services/defectService.ts:9 | with the back end's spelling the two status sets coincide |

## Left out

- HTTP plumbing is a `Reply` value. This covers JSON binding and encoding, error messages, CORS headers and logging.
- Payload binding is a predicate per payload type. The e-mail format check is an input, because the validator library is not part of this model.
- bcrypt is left out because it is a foreign library. Hashing is an `Option` input and verification is a function parameter.
- JWT signing and parsing are left out for the same reason. Validation is a function from token to optional claims, and no MAC or expiry property is claimed. A failure to sign a token (user_controller.go:122-126) is not modelled.
- The wall clock is a parameter. `GenerateToken` reads the clock twice; the model reads it once.
- Auth.IssueClaims: the expiry is stated only when hours × 3600·10^9 fits in an int64, negative settings included. It does not describe the wrapped value for settings outside that range.
- Store failures other than the unique indexes on username and email are left out. These include connection errors, varchar width limits and foreign-key violations.
  - In particular, the foreign key on `defects.assignee_id` would make PostgreSQL refuse assignee 0. The model follows the handler and stores an unassigned defect.
- gorm `First(&row, idText)` with text that `Atoi` rejects is answered 404.
  - gorm actually sends such text to SQL as a raw condition; that path is left out.
  - Numeric filter text that `Atoi` rejects, or that lies outside the 32-bit range of the `INTEGER` id columns, is answered 500, as PostgreSQL refuses the parameter.
  - PostgreSQL's tolerance of surrounding spaces in such text is not modelled.
- The order of list results is not modelled. `Find` sends no ORDER BY, so PostgreSQL may return rows in any order, and updates can change it. `GetAllUsers`, `GetAllProjects`, `GetAllDefects` and `GetDefectComments` list their rows in ascending key order, which is a choice of the model.
- `Preload` of associations, and the timestamps gorm fills in, are not modelled.
- Migrations: the table setup is a boolean input. Errors from the record insert, update and commit are left out because they come from the database. The DDL of migrations 001-006 is not part of this model.
- `SetupRoutes` itself is not modelled. The route table it builds is the function `Resolve`.
  - gin's trailing-slash redirects are left out.
  - In the model an empty segment does not match; gin matches it inside a path, so `GET /api/defects//comments` reaches `GetDefectComments` with an empty id (answered 500) where the model answers 404.
  - The inline `/debug/users` handler is left out. Its route appears only in the route table.
- `fmt.Sscanf` skips leading ASCII spaces, tabs, carriage returns, vertical tabs and form feeds; a leading newline makes it fail. Other Unicode spaces are not modelled.
- A 64-bit platform is assumed for Go's `int` and `uint`.
- Concurrent requests are not modelled: handlers run one at a time against one store.
- Browser storage and `fetch` are left out. The front-end functions take the current user as a parameter.
- DefectService.GenerateDemoDefectStats works on integers. JavaScript's floating-point numbers, which agree for ids below 2^53/13, are not modelled.

## Findings

| source | as written | input that shows it | evidently intended | confidence | as-written member | corrected member |
|---|---|---|---|---|---|---|
| backend/controllers/user_controller.go:45-48 | registration refuses a username equal to an existing username and an email equal to an existing email. Login (line 104) matches the identifier against both columns and takes the lowest id | user 1 has email `x@y.z`; user 2 registers username `x@y.z`; logging in as `x@y.z` finds user 1, so user 2 cannot log in by username | registration also refuses a username equal to an existing email, and an email equal to an existing username | medium, not executed | UserController.RegisteredUsernameShadowedByEmail | UserController.CorrectedRegistrationCanLogIn |
| frontend/src/services/defectService.ts:9 | the front-end `Defect.status` union spells the cancelled status `cancelled` | a defect whose status the back end stores as `canceled` (backend/models/defect.go:17) | the union uses the back end's `canceled` | high, not executed | DefectService.CancelledSpellingMismatch | DefectService.FrontStatusesMatchBackEnd |

The `Register` handler itself is modelled as written.
`UserController.RegisterFailureCorrected` is the widened check. It is
proved to refuse everything the original refuses and to admit only users
whom `Login` then finds.
