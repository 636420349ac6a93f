# PAWSIES backend core in Dafny

This project models the core of the PAWSIES veterinary-clinic backend and proves properties about it.

- **Appointment booking.** `AppointmentService` guards every write to the appointment table. Its repository's conflict lookup decides whether a slot is free.
- **Enum coercion.** Five case-insensitive, defaulting maps turn request strings into the closed enumerations that are stored.
- **Permission decision.** `checkPermission` and the two role-table guards behind it.
- **Entity services.** Pets, owners, vets and users share a check-then-write shape with a fixed error order.
- **Authentication.** `login` and `logout` share a module-level list of refresh tokens.
- **Legacy owner module.** An older owner service with no error translation.
- **Date strings.** `convertToISODate`.

## How it is modelled

- **Stores.** Each Prisma-backed store is a class. Its state is `rows: seq<Record>` in storage order, plus a `nextId` counter that stands for the ids the database assigns.
  - Queries are functions of `rows`.
  - Writes are methods whose `ensures` give the new table, as a function of the old one.
  - `Tables` gives the generic keyed-table operations: `Lookup`, `Remove`, `Overwrite`, and the invariant that keys are unique and below `nextId`.
- **Services.** Each service is a class holding its store.
  - Every method is proved equal to an outcome function of the old table and the request, such as `CreateOutcome` or `UpdateOutcome`.
  - The method also states the new table.
  - Lemmas about the outcome functions state the error order, the success conditions and the invariants.
- **Errors.** An error is an `ErrorKind`. `Status` gives the HTTP status it carries.
  - The `catch` block shared by the services is `Errors.Catch`. An error whose class is on the method's re-throw list passes through unchanged. Any other error becomes `UnknownError` (500).
- **Unique columns.** The repositories look records up by email and username with `findUnique`, which Prisma allows only on unique columns.
  - The owner email is unique, and so are the user email and username.
  - Each such store keeps the unique column as part of its invariant `Valid()`, through `Tables.UniqueColumn`.
  - A `create` or `update` that would give a second record the same value raises. The write then answers None or `Err(StoreFailure)` and leaves the table unchanged.
  - The services treat that raise like any other store failure. Their `catch` turns it into `UnknownError`, and the legacy module passes it on unchanged.
- **Failing store.** A failing database is the flag `storeFails`: every persistence call of that request raises. The flag takes effect at the operation's first store call, so only the checks before that call keep their precedence.
- **Foreign calls become parameters.**
  - the date check `validateDate(date, today)`;
  - `bcrypt.hash` (`hash`) and `bcrypt.compare` (`compare`);
  - JWT signing (`sign`);
  - the Joi schemas (`schemaValid`);
  - `existsOwnerID`, `existsVetID` and `existsID` (sets of existing ids);
  - the role table of `config/roles.json`.
- **Falsy values.** A JavaScript value tested with `!value` is an `Option<string>`. It is falsy when it is `None` or `Some("")` (`ParseEnums.Falsy`).

Where the code and its documentation disagree, the model follows the code:

- `create` turns a rejected appointment date into `UnknownError`, because it does not re-throw `AppointmentValidationError`.
- `update` checks the date before it looks the appointment up, and it never runs the conflict lookup.
- `updateStatus` checks an empty status before it checks for a missing id.
- There is no hour-slot validation.
- The conflict lookup has no status filter.

## Model

| member | source | states |
|---|---|---|
| Errors.Catch | src/services/appointment/appointment.service.ts:91-106 | An error on the re-throw list, or UnknownError itself, passes unchanged. Any other error becomes UnknownError. A success is untouched. |
| ParseEnums.Upper | src/shared/util/parse.enums.ts:11 | Upper-casing keeps the length and maps each character to its ASCII upper case. |
| ParseEnums.UpperIdempotent | src/shared/util/parse.enums.ts:11 | Upper-casing twice is the same as once. |
| ParseEnums.ParseRole | src/shared/util/parse.enums.ts:9-16 | A falsy input gives ANONYMOUS. Any result other than the default is the role whose name equals the upper-cased input. A name match always wins over the default. |
| ParseEnums.ParseSpecialty | src/shared/util/parse.enums.ts:18-25 | The same for specialties, defaulting to CAT_DOG. |
| ParseEnums.ParsePetType | src/shared/util/parse.enums.ts:27-34 | The same for pet types, defaulting to UNKNOWN. |
| ParseEnums.ParseExamination | src/shared/util/parse.enums.ts:36-65 | The same for the ten examinations, defaulting to ROUTINE. |
| ParseEnums.ParseStatus | src/shared/util/parse.enums.ts:67-90 | The same for the seven statuses, defaulting to SCHEDULED. |
| ParseEnums.RoleNameRoundTrip | src/shared/util/parse.enums.ts:12-14 | Each of ADMIN, VET and OWNER maps to itself. |
| ParseEnums.SpecialtyNameRoundTrip | src/shared/util/parse.enums.ts:21-23 | Each specialty name maps to itself. |
| ParseEnums.PetTypeNameRoundTrip | src/shared/util/parse.enums.ts:30-32 | Each pet-type name maps to itself. |
| ParseEnums.ExaminationNameRoundTrip | src/shared/util/parse.enums.ts:41-61 | Each of the ten examination names maps to itself. |
| ParseEnums.StatusNameRoundTrip | src/shared/util/parse.enums.ts:72-86 | Each of the seven status names maps to itself. |
| ParseEnums.CoercionIdempotent | src/shared/util/parse.enums.ts:36-90 | Coercing the name of a coerced value gives that value back, for all five maps. |
| ParseEnums.CoercionIgnoresCase | src/shared/util/parse.enums.ts:9-90 | Every map gives the same result for a string and for its upper-cased form. |
| ParseEnums.UnrecognisedGivesDefault | src/shared/util/parse.enums.ts:9-90 | A non-empty string that names no value gives each map's default. |
| ParseEnums.PetTypeKnownOnlyForDogAndCat | src/shared/util/parse.enums.ts:30-33 | Only DOG and CAT, in any case, give a pet type other than UNKNOWN. The misspelled branch makes no difference. |
| ParseEnums.RoleRecognisedOnlyForThreeNames | src/shared/util/parse.enums.ts:12-15 | Only ADMIN, VET and OWNER give a role other than ANONYMOUS. 'ANONYMOUS' gives the default too. |
| ParseEnums.CoercionExamples | src/shared/util/parse.enums.ts:36-90 | "bogus" gives SCHEDULED, "cancelled" gives CANCELLED, "x_ray" gives X_RAY, and the misspelled pet type gives UNKNOWN. |
| ParseDate.ReordersFields | src/shared/util/parse.date.ts:1-4 | For D/M/Y the output is Y-M-D, with the fields copied verbatim. |
| ParseDate.DropsExtraFields | src/shared/util/parse.date.ts:2 | Fields after the third are dropped. |
| ParseDate.ThreeFieldsKeepLength | src/shared/util/parse.date.ts:2-3 | With exactly three fields, the output is as long as the input. |
| ParseDate.MissingFieldsPrintUndefined | src/shared/util/parse.date.ts:2-3 | Without a '/', the missing fields print as "undefined". |
| Seqs.JoinSplit | src/shared/util/parse.date.ts:2 | Splitting on a separator and joining again gives the input back. |
| Seqs.SplitJoin | src/shared/util/parse.date.ts:2 | Joining separator-free fields and splitting again gives the fields back. |
| Guards.RoleGuard.GetRoleByName | src/shared/guard/roles.guard.ts:12-14 | The result is the first entry whose name is exactly the argument. It is undefined iff no entry has that name. |
| Guards.NewRoleGuard | src/shared/guard/roles.guard.ts:6-18 | getRoles returns the whole table in its original order. |
| Guards.PermissionsGuard.GetPermissionsByRoleName | src/shared/guard/permissions.guard.ts:12-15 | The result is the permissions of the first role named exactly roleName, or the empty list when no role has that name. |
| Guards.NewPermissionsGuard | src/shared/guard/permissions.guard.ts:8-10 | The guard reads the given table, and its permissions field is empty. |
| Guards.GuardsAgree | src/shared/guard/permissions.guard.ts:12-15 | The permissions returned are those of the role that RoleGuard finds. |
| Guards.NamesAreCaseSensitive | src/shared/guard/permissions.guard.ts:13 | "admin" does not find a role named "ADMIN". |
| Guards.FirstEntryWins | src/shared/guard/permissions.guard.ts:13 | When two entries share a name, the first one decides. |
| PermissionMiddleware.CheckPermission | src/shared/middleware/permission.middleware.ts:6-11 | A missing list fails with the 400 configuration error. Any list, even an empty one, builds a handler. |
| PermissionMiddleware.PermissionHandler.Handle | src/shared/middleware/permission.middleware.ts:13-43 | No body means UserUnauthorized is thrown. `next()` is called iff the role is ADMIN, or is not ANONYMOUS and its first table entry holds a permission that is a whole-string member of the list. Otherwise `next(UserUnauthorized)` is called. |
| PermissionMiddleware.AdminAlwaysAllowed | src/shared/middleware/permission.middleware.ts:21 | ADMIN passes whatever the list, even an empty one. |
| PermissionMiddleware.MissingUserIsAnonymous | src/shared/middleware/permission.middleware.ts:17-19 | A body without a user is handled as the role ANONYMOUS. |
| PermissionMiddleware.AnonymousAlwaysDenied | src/shared/middleware/permission.middleware.ts:33-42 | ANONYMOUS is refused even when the table grants it the route's permissions. |
| PermissionMiddleware.CommaJoinedListDeniesOwner | src/routes/owner.routes.ts:28 | With the list as written, an OWNER holding both permissions is refused. |
| PermissionMiddleware.SplitListAllowsEitherPermission | src/routes/owner.routes.ts:28 | With the list split into its two names, any non-anonymous role holding either permission passes. |
| Tables.RemoveOne | src/infra/repository/appointment/appointment.repository.ts:133-147 | Deleting a present id removes exactly one record. |
| Tables.RemoveAbsent | src/infra/repository/appointment/appointment.repository.ts:133-147 | Deleting an absent id changes nothing. |
| Tables.RemoveKeepsKeys | src/infra/repository/appointment/appointment.repository.ts:133-147 | Deleting keeps ids unique and below the next fresh id. |
| Tables.AppendFreshKeepsColumn | src/infra/repository/user/user.repository.ts:34-52 | Appending a record whose value no record holds keeps a unique column unique. |
| Tables.OverwriteKeepsColumn | src/infra/repository/user/user.repository.ts:54-70 | Rewriting one record with a value no other record holds keeps a unique column unique. |
| Tables.RemoveKeepsColumn | src/infra/repository/user/user.repository.ts:72-82 | Deleting keeps a unique column unique. |
| AppointmentRepository.FindOneByID | src/infra/repository/appointment/appointment.repository.ts:44-60 | The result is a stored appointment with that id. It is undefined iff no record has that id. |
| AppointmentRepository.FindAllByPetID | src/infra/repository/appointment/appointment.repository.ts:27-42 | The result holds exactly the appointments whose pet is the argument. |
| AppointmentRepository.FindAnyByVetAndOwnerWithDateAndHour | src/infra/repository/appointment/appointment.repository.ts:149-182 | A stored appointment of the vet in that exact date and hour is returned whenever one exists. Otherwise only an appointment of the owner in that slot is returned. The result is undefined iff neither exists. Status is not consulted. |
| AppointmentRepository.AppointmentStore.Save | src/infra/repository/appointment/appointment.repository.ts:62-83 | Exactly one record is appended, under a fresh id. Status and examination are coerced and the other six fields are copied. |
| AppointmentRepository.AppointmentStore.Update | src/infra/repository/appointment/appointment.repository.ts:85-112 | The record with that id gets all eight data fields rewritten, with coercion. The others are untouched. The call fails iff the id is absent. |
| AppointmentRepository.AppointmentStore.UpdateStatus | src/infra/repository/appointment/appointment.repository.ts:114-131 | Only the coerced status of that record changes. |
| AppointmentRepository.AppointmentStore.Delete | src/infra/repository/appointment/appointment.repository.ts:133-147 | Exactly the record with that id is removed and returned. |
| AppointmentService.CheckReferences | src/services/appointment/appointment.service.ts:203-228 | Owner, vet and pet are checked in that order, and the first missing one decides the error. The check passes iff all three exist. |
| AppointmentService.AppointmentService.GetAll | src/services/appointment/appointment.service.ts:27-35 | The whole table is returned, or UnknownError when the store fails. |
| AppointmentService.AppointmentService.GetOneByID | src/services/appointment/appointment.service.ts:48-63 | The result equals the lookup outcome: AppointmentNotFound for a missing id, UnknownError for a store failure. |
| AppointmentService.AppointmentService.Create | src/services/appointment/appointment.service.ts:65-107 | The result equals CreateOutcome: date, then owner, vet and pet, then the conflict lookup, then save, with the catch applied. The table grows by the returned record on success and is unchanged otherwise. |
| AppointmentService.AppointmentService.Update | src/services/appointment/appointment.service.ts:109-145 | The result equals UpdateOutcome: date, then existence, then owner, vet and pet, with no conflict lookup. On success the record is rewritten. |
| AppointmentService.AppointmentService.UpdateStatus | src/services/appointment/appointment.service.ts:147-174 | The result equals UpdateStatusOutcome: an empty status is refused before the missing id. On success only the coerced status changes. |
| AppointmentService.AppointmentService.Delete | src/services/appointment/appointment.service.ts:176-192 | The result equals the lookup outcome. On success exactly that record is removed. |
| AppointmentService.CreateCheckOrder | src/services/appointment/appointment.service.ts:65-89 | With owner, vet and pet all missing, the error is OwnerNotFound. Then comes VetNotFound, then PetNotFound. |
| AppointmentService.CreateRejectedDateIsUnknown | src/services/appointment/appointment.service.ts:65-107 | A date that validateDate rejects comes out of create as UnknownError. |
| AppointmentService.CreateSucceedsIff | src/services/appointment/appointment.service.ts:65-90 | Create succeeds iff the date is accepted, the store answers, all three references exist and neither the vet nor the owner holds the slot. The saved record is the coerced request under the next id. |
| AppointmentService.CreateRejectsOccupiedSlot | src/services/appointment/appointment.service.ts:75-87 | Any appointment holding the slot on either axis makes create fail with AppointmentAlreadyExists (409). |
| AppointmentService.CancelledAppointmentStillBlocks | src/infra/repository/appointment/appointment.repository.ts:155-157 | A cancelled appointment still blocks its slot. |
| AppointmentService.RepeatedCreateRejected | src/services/appointment/appointment.service.ts:75-89 | Repeating a successful create is refused. |
| AppointmentService.CreatePreservesNoDoubleBooking | src/services/appointment/appointment.service.ts:75-89 | Create keeps every vet slot and every owner slot held at most once. |
| AppointmentService.UpdateChecksDateFirst | src/services/appointment/appointment.service.ts:111-118 | A rejected date is AppointmentValidation, even for an unknown id. |
| AppointmentService.UpdateCheckOrder | src/services/appointment/appointment.service.ts:111-144 | A missing id is AppointmentNotFound. Then a missing owner is OwnerNotFound. A store failure becomes UnknownError. |
| AppointmentService.UpdateCanDoubleBook | src/services/appointment/appointment.service.ts:109-126 | Update can move an appointment into a slot its vet already holds, which leaves a double booking. |
| AppointmentService.UpdateStatusChecksStatusFirst | src/services/appointment/appointment.service.ts:152-162 | An empty or absent status is AppointmentStatusField, even for an unknown id. |
| AppointmentService.UpdateStatusAnyTransition | src/services/appointment/appointment.service.ts:158-164 | Any status can be written from any status, and only the status changes. |
| AppointmentService.UpdateStatusBogusIsScheduled | src/services/appointment/appointment.service.ts:158-164 | An unrecognised status is stored as SCHEDULED. |
| AppointmentService.LookupErrors | src/services/appointment/appointment.service.ts:27-192 | A lookup succeeds iff the store answers and the id exists. A missing id is AppointmentNotFound. UnknownError appears iff the store fails, and the same holds for getAll. |
| UserRepository.WithoutPassword | src/services/user/user.service.ts:34 | The password is removed and every other field is kept. |
| UserRepository.FindOneByEmail | src/infra/repository/user/user.repository.ts:84-96 | The result is a stored user with that email, or undefined iff there is none. |
| UserRepository.FindOneByEmailOrUsername | src/infra/repository/user/user.repository.ts:98-126 | The user holding the email wins. Otherwise the first holding the username is returned. The result is undefined iff neither exists. |
| UserRepository.SaveStoresRoleAsName | src/infra/repository/user/user.repository.ts:37-46 | Save writes the caller's role text into the name column, and the coerced role into the role column. |
| UserRepository.UpdateKeepsPasswordUnlessGiven | src/infra/repository/user/user.repository.ts:54-70 | Update keeps the stored password unless a non-empty one is given, and never touches the name or the links. |
| UserRepository.UserStore.Save | src/infra/repository/user/user.repository.ts:34-52 | A falsy password gives undefined and writes nothing. Otherwise the create raises, writing nothing, iff some user holds the email or the username. Otherwise one row is appended under a fresh id. Email and username stay unique. |
| UserRepository.UserStore.Update | src/infra/repository/user/user.repository.ts:54-70 | The row with that id becomes its updated form. The call raises, leaving the table unchanged, iff the id is absent or another user holds the email or the username. |
| UserRepository.UserStore.Delete | src/infra/repository/user/user.repository.ts:72-82 | Exactly that row is removed and returned. |
| AccountChecks.HashPassword | src/services/owner/owner.service.ts:135-146 | A falsy password is UserPasswordField (405). Otherwise the result is the hash of the password. The vet and user services have the same helper. |
| AccountChecks.CheckLinkedUser | src/services/owner/owner.service.ts:148-172 | A matched user linked to an owner gives OwnerAlreadyExists. Otherwise one linked to a vet gives VetAlreadyExists. Otherwise any match gives UserAlreadyExists. All three are 409. No match passes. The vet service runs the same check. |
| AccountChecks.CheckAnyUser | src/services/user/user.service.ts:142-156 | Any match gives UserAlreadyExists, and no match passes. |
| AccountChecks.ChecksAgreeOnRejection | src/services/vet/vet.service.ts:141-164 | Both checks reject exactly when some user holds the email or the username. |
| AccountChecks.EmailMatchDecides | src/infra/repository/user/user.repository.ts:102-112 | When the email is held by an owner-linked user, the error is OwnerAlreadyExists, whoever holds the username. |
| UserService.WithoutPasswords | src/services/user/user.service.ts:19 | Every user is kept in order, without its password. |
| UserService.UserService.GetAll | src/services/user/user.service.ts:15-24 | The result equals GetAllOutcome: each password is deleted in turn, and a store failure becomes UnknownError. |
| UserService.UserService.GetOneByID | src/services/user/user.service.ts:26-42 | A missing id is UserNotFound. Otherwise the user is returned without its password. |
| UserService.UserService.Create | src/services/user/user.service.ts:44-77 | The result equals CreateOutcome: schema, hashing, uniqueness, then save. A falsy save is UserPasswordField (500). The table grows by the hashed row on success. |
| UserService.UserService.Update | src/services/user/user.service.ts:79-104 | The result equals UpdateOutcome: schema, then existence, then the write, which raises as UnknownError on a held email or username. On success the row is rewritten without hashing. |
| UserService.UserService.Delete | src/services/user/user.service.ts:106-127 | The result equals the lookup outcome. On success exactly that row is removed. |
| UserService.NoPasswordLeaves | src/services/user/user.service.ts:15-104 | No user returned by getAll, getOneByID, create or update carries a password. |
| UserService.GetAllKeepsEverythingElse | src/services/user/user.service.ts:15-24 | Apart from the password, getAll returns the table as it is. |
| UserService.CreateCheckOrder | src/services/user/user.service.ts:44-52 | An invalid body beats a missing password, which beats a taken email. |
| UserService.CreateSucceedsIff | src/services/user/user.service.ts:44-156 | Create succeeds iff the password is present, its hash is non-empty, and no user holds the email or the username. |
| UserService.EmptyHashIsPasswordError500 | src/services/user/user.service.ts:54-58 | A falsy save result reaches the caller as UserPasswordField with status 500. |
| UserService.UpdateWritesPasswordUnhashed | src/services/user/user.service.ts:79-95 | When no other user holds the email or username, update succeeds and stores the given password verbatim. |
| UserService.UpdateToHeldColumnIsUnknown | src/services/user/user.service.ts:79-104 | Update to an email or username another user holds is UnknownError, not an already-exists error. |
| UserService.MissingUserNotFound | src/services/user/user.service.ts:26-104 | A missing id is UserNotFound (404) for getOneByID and update. |
| PetRepository.ExactPetType | src/infra/repository/pet/pet.repository.ts:102 | The database column accepts exactly the three enum names. |
| PetRepository.FindOneByOwnerWithNameAndType | src/infra/repository/pet/pet.repository.ts:124-142 | The result is a stored pet of that owner with that name and the coerced type. It is undefined iff there is none. |
| PetRepository.DuplicateLookupIgnoresTypeCase | src/infra/repository/pet/pet.repository.ts:133 | The duplicate lookup gives the same answer for a type and its upper-cased form. |
| PetRepository.SaveAndUpdateDisagreeOnType | src/infra/repository/pet/pet.repository.ts:70-110 | Save turns "dog" into DOG, while update's raw text "dog" is not a column value. |
| PetRepository.PetStore.Save | src/infra/repository/pet/pet.repository.ts:70-89 | One row is appended under a fresh id, with the type coerced. |
| PetRepository.PetStore.Update | src/infra/repository/pet/pet.repository.ts:91-110 | The row is rewritten iff the id exists and the type text is absent or an exact enum name. Otherwise nothing changes. |
| PetRepository.PetStore.Delete | src/infra/repository/pet/pet.repository.ts:112-122 | Exactly that row is removed and returned. |
| PetService.CheckOwner | src/services/pet/pet.service.ts:134-141 | The check passes iff the owner exists. Otherwise it fails with OwnerNotFound (404). |
| PetService.PetService.GetAll | src/services/pet/pet.service.ts:16-24 | The table is returned, or UnknownError when the store fails. |
| PetService.PetService.GetOneByID | src/services/pet/pet.service.ts:37-52 | A missing id is PetNotFound. |
| PetService.PetService.Create | src/services/pet/pet.service.ts:54-86 | The result equals CreateOutcome: owner, then duplicate, then save. The table grows by the returned pet on success. |
| PetService.PetService.Update | src/services/pet/pet.service.ts:88-114 | The result equals UpdateOutcome: pet, then owner, then the write. On success the row is rewritten. |
| PetService.PetService.Delete | src/services/pet/pet.service.ts:116-132 | A missing id is PetNotFound and removes nothing. On success exactly that row is removed. |
| PetService.CreateChecksOwnerFirst | src/services/pet/pet.service.ts:54-141 | An unknown owner is OwnerNotFound, whatever pets are stored. |
| PetService.CreateSucceedsIff | src/services/pet/pet.service.ts:56-72 | Create succeeds iff the owner exists and no pet of that owner has the same name and coerced type. The saved pet is the coerced request. |
| PetService.DuplicateIgnoresTypeCase | src/services/pet/pet.service.ts:58-68 | A pet saved as "dog" blocks a later "DOG" of the same name and owner with PetAlreadyExists. |
| PetService.UpdateChecksPetFirst | src/services/pet/pet.service.ts:90-99 | PetNotFound takes precedence over OwnerNotFound. |
| PetService.UpdateRejectsCoercibleType | src/services/pet/pet.service.ts:99-113 | A lower-case type that create accepts makes update fail with UnknownError. |
| PetService.UpdateWithExactType | src/services/pet/pet.service.ts:88-101 | With an exact type name, update rewrites every data field. |
| PetService.LookupErrors | src/services/pet/pet.service.ts:16-132 | A missing id is PetNotFound. UnknownError appears iff the store fails, and the same holds for getAll. |
| OwnerRepository.UpdatedOwner | src/infra/repository/owner/owner.repository.ts:65-75 | Update rewrites name, email and username, and keeps the stored password. |
| OwnerRepository.OwnerStore.Save | src/infra/repository/owner/owner.repository.ts:44-63 | The create raises, writing nothing, iff some owner holds the email. Otherwise one row is appended under a fresh id. The email stays unique. |
| OwnerRepository.OwnerStore.Update | src/infra/repository/owner/owner.repository.ts:65-86 | The row with that id becomes its updated form. The call raises, leaving the table unchanged, iff the id is absent or another owner holds the email. |
| OwnerRepository.OwnerStore.Delete | src/infra/repository/owner/owner.repository.ts:88-104 | Exactly that row is removed and returned. |
| OwnerService.OwnerService.GetAll | src/services/owner/owner.service.ts:20-28 | The table is returned, or UnknownError when the store fails. |
| OwnerService.OwnerService.GetOneByID | src/services/owner/owner.service.ts:30-45 | A missing id is OwnerNotFound. |
| OwnerService.OwnerService.Create | src/services/owner/owner.service.ts:47-81 | The result equals CreateOutcome: schema, password, the user-table check, then save of the hashed owner, which raises as UnknownError on a held owner email. The table grows by the returned owner on success. |
| OwnerService.OwnerService.Update | src/services/owner/owner.service.ts:83-112 | The result equals UpdateOutcome: schema, then existence, then the write, which raises as UnknownError on a held email. The password is hashed when given, but the write does not keep it. |
| OwnerService.OwnerService.Delete | src/services/owner/owner.service.ts:114-133 | A missing id is OwnerNotFound. On success exactly that row is removed. |
| OwnerService.CreateCheckOrder | src/services/owner/owner.service.ts:47-57 | An invalid body is OwnerValidation, and a missing password beats any already-exists error. |
| OwnerService.CreateRejectsTakenAccount | src/services/owner/owner.service.ts:47-172 | A user found by email or username rejects create with the class its links decide, always 409. |
| OwnerService.CreateStoresHash | src/services/owner/owner.service.ts:51-55 | A created owner holds the hash of its password. No user held its email or username, and no owner held its email. |
| OwnerService.UpdateKeepsPassword | src/services/owner/owner.service.ts:87-97 | A missing owner is OwnerNotFound. An existing owner whose new email no other owner holds is updated and keeps its stored password even when a new one is given. |
| OwnerService.CreateTakenOwnerEmailIsUnknown | src/services/owner/owner.service.ts:47-81 | With no user in the way, an owner email that is already held makes create UnknownError. A repeat of a successful create is UnknownError too. |
| OwnerService.UpdateToHeldEmailIsUnknown | src/services/owner/owner.service.ts:83-112 | Update of an existing owner to an email another owner holds is UnknownError. |
| OwnerService.LookupErrors | src/services/owner/owner.service.ts:30-133 | A missing id is OwnerNotFound (404). UnknownError appears iff the store fails. |
| VetRepository.Stripped | src/infra/repository/vet/vet.repository.ts:44 | The password is removed and every other field is kept. |
| VetRepository.UpdatedVet | src/infra/repository/vet/vet.repository.ts:75-92 | The specialty is coerced. The stored password is kept unless a non-empty one is given. |
| VetRepository.FindOneByID | src/infra/repository/vet/vet.repository.ts:31-46 | The result is the stored vet without its password, or undefined iff the id is absent. |
| VetRepository.FindAll | src/infra/repository/vet/vet.repository.ts:9-29 | Every vet is returned in order, without its password. |
| VetRepository.VetStore.Save | src/infra/repository/vet/vet.repository.ts:48-73 | The result is undefined, with nothing written, iff the password is falsy. Otherwise the create raises, writing nothing, iff some vet holds the email or the username. Otherwise one row is appended and returned without its password. |
| VetRepository.VetStore.Update | src/infra/repository/vet/vet.repository.ts:75-98 | The row becomes its updated form and is returned without its password. The call raises, leaving the table unchanged, iff the id is absent or another vet holds the email or the username. |
| VetRepository.VetStore.Delete | src/infra/repository/vet/vet.repository.ts:100-112 | Exactly that row is removed and returned without its password. |
| VetService.VetService.GetAll | src/services/vet/vet.service.ts:19-28 | The vets are returned without passwords, or UnknownError when the store fails. |
| VetService.VetService.GetOneByID | src/services/vet/vet.service.ts:30-45 | A missing id is VetNotFound. |
| VetService.VetService.Create | src/services/vet/vet.service.ts:47-79 | The result equals CreateOutcome: password, then the user-table check, then save. A falsy save and a raise on a held column are both UnknownError. The table grows by the hashed row on success. |
| VetService.VetService.Update | src/services/vet/vet.service.ts:81-108 | The result equals UpdateOutcome: existence, then the hash when a password is given, then the write, which raises as UnknownError on a held email or username. On success the row is rewritten. |
| VetService.VetService.Delete | src/services/vet/vet.service.ts:110-126 | A missing id is VetNotFound. On success exactly that row is removed. |
| VetService.CreateChecksPasswordFirst | src/services/vet/vet.service.ts:47-139 | A missing password is UserPasswordField (405), whatever else holds. |
| VetService.CreateSucceedsIff | src/services/vet/vet.service.ts:47-57 | Create succeeds iff the password is present, its hash is non-empty, and no user and no vet holds the email or the username. The result has no password. |
| VetService.UpdateToHeldColumnIsUnknown | src/services/vet/vet.service.ts:81-108 | Update to an email or username another vet holds is UnknownError. |
| VetService.UpdateOrderAndPassword | src/services/vet/vet.service.ts:81-95 | A missing vet is VetNotFound. The stored password is kept when none is given, and replaced by the hash when one is. |
| VetService.LookupErrors | src/services/vet/vet.service.ts:30-126 | A missing id is VetNotFound (404). No vet leaves the service with a password. |
| AuthenticationService.BearerToken | src/services/authentication/authentication.service.ts:99 | The token is the second space-separated word of the header. It is undefined iff the header has no space. |
| AuthenticationService.AuthenticationService.constructor | src/services/authentication/authentication.service.ts:12 | The token list starts empty. |
| AuthenticationService.AuthenticationService.Login | src/services/authentication/authentication.service.ts:17-75 | The result equals LoginOutcome. On success exactly the returned token is appended to the list. Otherwise the list is unchanged. |
| AuthenticationService.AuthenticationService.Logout | src/services/authentication/authentication.service.ts:77-116 | The result equals LogoutOutcome. On success the header's token is revoked. Otherwise the list is unchanged. |
| AuthenticationService.LoginErrors | src/services/authentication/authentication.service.ts:22-45 | An unknown email is UserNotFound, then a missing stored password is UserPasswordField (405), then a mismatch is UserUnauthorized. |
| AuthenticationService.LoginSession | src/services/authentication/authentication.service.ts:47-59 | A successful login returns the user without its password, the token signed for its id, and expiresIn '31d'. |
| AuthenticationService.LogoutErrors | src/services/authentication/authentication.service.ts:86-103 | An unknown user is UserNotFound before an absent header is UserUnauthorized. Success returns all-undefined fields. |
| AuthenticationService.RevokedRemovesEveryCopy | src/services/authentication/authentication.service.ts:101 | Every copy of the token is removed, and every other token stays as often as before. |
| AuthenticationService.RevokedKeepsOrder | src/services/authentication/authentication.service.ts:101 | Revoking distributes over concatenation, so the order is kept. |
| AuthenticationService.OneWordHeaderRevokesNothing | src/services/authentication/authentication.service.ts:99-101 | A header without a second word leaves the list unchanged. |
| AuthenticationService.LogoutRevokesIssuedToken | src/services/authentication/authentication.service.ts:17-116 | "Bearer " followed by a token that login issued revokes that token. |
| LegacyOwnerService.FindOneByEmailAndUsername | src/owner/modules/owner.repository.ts:62-83 | The result is a stored owner matching both email and username. It is undefined iff none matches both. |
| LegacyOwnerService.OwnerStore.Save | src/owner/modules/owner.repository.ts:31-39 | The create raises, writing nothing, iff some owner holds the email. Otherwise one row is appended under a fresh id. The email stays unique. |
| LegacyOwnerService.OwnerStore.Delete | src/owner/modules/owner.repository.ts:54-60 | Exactly that row is removed and returned. |
| LegacyOwnerService.OwnerService.GetOneByID | src/owner/modules/owner.service.ts:12-20 | A missing id is OwnerNotFound (404). A store failure propagates. |
| LegacyOwnerService.OwnerService.Create | src/owner/modules/owner.service.ts:22-34 | The result equals CreateOutcome: OwnerAlreadyExists, with nothing saved, when an owner matches both fields. Otherwise save runs: it raises, uncaught, on a held email, and otherwise saves and returns the new row. |
| LegacyOwnerService.OwnerService.Update | src/owner/modules/owner.service.ts:36-45 | A missing id is OwnerNotFound. Otherwise save runs: it raises, uncaught, on a held email, and otherwise adds a new row. |
| LegacyOwnerService.OwnerService.Delete | src/owner/modules/owner.service.ts:47-56 | A missing id is OwnerNotFound. On success exactly that row is removed. |
| LegacyOwnerService.StoreFailurePropagates | src/owner/modules/owner.service.ts:12-56 | A store failure reaches the caller unchanged and is never UnknownError. |
| LegacyOwnerService.CreateNeedsBothToClash | src/owner/modules/owner.service.ts:23-31 | Create answers OwnerAlreadyExists iff some owner matches both email and username. With the email free, the owner is saved. The same email under another username raises on the unique column, and the caller gets that failure. |
| LegacyOwnerService.UpdateAddsCopy | src/owner/modules/owner.service.ts:36-45 | Update of an existing owner to an email no owner holds keeps the old row and returns a copy under a fresh id. |
| LegacyOwnerService.UpdateKeepingEmailFails | src/owner/modules/owner.service.ts:36-45 | Update that keeps the owner's stored email raises on the unique column, because save creates a second row with that email. |

## Left out

- **Prisma.** Persistence, asynchrony and the check-then-write race are left out. Each operation is one sequential step over in-memory tables. A failing database is one flag per request that makes every store call raise, so partial failures are not modelled. The created and updated timestamps are not modelled. The `include` joins are not modelled either.
- **Foreign calls.** `validateDate`, bcrypt, JWT signing and `getToken` are parameters, because their code is foreign or not shown. The Joi schemas (`schemaOwnerValidation`, `schemaUserValidation`) are a boolean parameter, and a valid body is taken to come back unchanged.
- **Existence checks.** `existsOwnerID`, `existsVetID` and `existsID` are membership in a set of ids. `existsOwnerID` is not defined among the repository files that are part of this model.
- **Role table.** `config/roles.json` is not part of this model, so the table is a parameter.
- **Strings.** Upper-casing is ASCII only, while JavaScript's `toUpperCase` covers all of Unicode.
- **Numbers and dates.** Pet age and weight are integers, not floating-point numbers. Dates are integers compared by equality. `getDateRangeForDay` is left out because it depends on `Date.UTC` and millisecond arithmetic.
- **Absent fields.** Fields absent from a request body are modelled as present, except the pet type in `update`, the status and examination, and the passwords.
- **Omitted operations.** `getAllByPetName`, `getAllByOwnerUsername` and the legacy `getAll` are left out. They are pass-through queries with no checks.
- **Other modules.** `src/owners.ts` and `src/owner/owner.service.ts` are left out. The Express layers (controllers, routes, the error and logger middleware) are left out too, except the permission list of the owner route.
- **Owner mapping.** The owner repository builds its `Owner` result with arguments in a different order from the entity's constructor. The model returns the stored row.
- **Vet table.** Vets are rows of the user table in the database. The model keeps them in a separate table and gives `_checkValidation` the user table. As a result, a vet created here is not seen by a later uniqueness check. Likewise, the unique email and username of a vet write are checked against the vet table only, not against other users.
- **Other unique columns.** Only the columns that the repositories query with `findUnique` are unique in the model: the owner email, and the user email and username. The database schema is not part of this model, so any other unique constraint it declares, the owner username for instance, is not enforced.
- **Refresh-token list.** The module-level `refreshTokens` array is a field of `AuthenticationService`. Every instance in the model has its own list, while the source shares one list between all instances. The routes build a single instance, so the two agree there.
- **Login logging.** The `console.log` in `login` writes the clear-text password and the stored hash to the console on every login that reaches the comparison. Console output is not modelled, so this leak of credentials does not appear in the model.
- **Vet specialty.** The nested `vet: { create: ... }` of the vet update is modelled as overwriting the specialty.
- **Stale test expectations.** Tests that expect errors the services never raise are left out, for example `VetValidationError` and `PetValidationError`. The appointment test that uses a boolean status is left out too.

## Findings

| source | as written | input that shows it | evidently intended | confidence | as-written member | corrected member |
|---|---|---|---|---|---|---|
| src/routes/owner.routes.ts:28 | `checkPermission(['view_owners, all_owner'])` passes a one-element list holding both names in one string. Membership is whole-string, so neither permission matches. The same one-string lists guard lines 36, 54 and 62 of this file and lines 28, 36, 54 and 62 of src/routes/vet.routes.ts. So every guarded owner and vet route refuses every role except ADMIN, unless the role table grants the combined string itself. Only create is unguarded. | An OWNER whose table entry grants `view_owners` and `all_owner` requests the owner list. | A two-element list, so that a holder of either permission passes. | not executed | PermissionMiddleware.CommaJoinedListDeniesOwner | PermissionMiddleware.SplitListAllowsEitherPermission |
