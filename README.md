# mini-crm service layer in Dafny

This project models the four services that hold the decision logic of a small
NestJS CRM backend, and proves properties about them:

- the **customer directory** (`CustomersService`): clamping of page and limit,
  the page-window arithmetic, and the translation of the store's error codes
  (`P2002` unique violation, `P2025` record not found) into HTTP errors;
- the **task assignment engine** (`TasksService`): the validation order on
  create (assignee exists, assignee is an EMPLOYEE, customer exists), the
  role-scoped listing, and the ownership check on status updates;
- **registration and login** (`AuthService`): the email conflict on register,
  the single `Unauthorized('Invalid email or password')` for every failed
  login, and the `{sub, role, email}` token payload;
- the **user projection** (`UsersService`): `stripPassword` and the lookups and
  updates that always return stripped users.

The relational store behind Prisma is replaced by `Store.Database`, a class
with one map per table (users, customers, tasks) keyed by record id. Its
invariant `Valid()` says that every record sits under its own id and that the
unique columns (user email; customer email and phone) hold distinct values.
Its methods are the store operations the services call: create, update and
delete with the store's error codes, and listings `orderBy createdAt desc`,
specified by `ListsNewestFirst` (every record once, newest first; records with
equal creation times in any order). `CustomersService`, `TasksService`
and `UsersService` are classes that each hold a `const db: Database` in place
of the injected Prisma client; `AuthService` holds the `UsersService` and the
bcrypt and JWT functions. The state-changing methods say exactly what the new
tables are, in terms of the old ones.

Inputs the services take from outside are parameters: the id the store would
generate (`newId`), the current time (`now`, a natural number; `createdAt` and
`updatedAt` are `nat`), and, for `AuthService`, the bcrypt functions
`hash(password, rounds)` and `compare(password, digest)` and the JWT signer
`sign(payload)`. The only thing assumed of them is
`compare(p, hash(p, n))` for every password and work factor, required when an
`AuthService` is built.

Modules: `Common` (identifiers, `Role`, `TaskStatus`, `Option`, `Result`, the
error taxonomy), `Store`, `Users`, `Auth`, `Customers`, `Tasks`.

`CustomersService.findAll` takes no search term and never filters. The
controller passes a `search` term (src/customers/customers.controller.ts:110)
that its API documentation describes as a case-insensitive match over name,
email, phone and company (src/customers/customers.controller.ts:96), and the
service's test expects an `OR` filter in `count`
(src/customers/customers.service.spec.ts:45-51); the service ignores the term,
and the model follows the service and lists all customers.

## Model

| member | source | states |
|---|---|---|
| `Customers.NormalizeLimit` | src/customers/customers.service.ts:39 | the limit always lies in [1, 100]; 0 becomes 10; an in-range limit is kept; above 100 gives 100; a negative limit gives 1 |
| `Customers.NormalizePage` | src/customers/customers.service.ts:40 | the page is always at least 1; a positive page is kept; 0 and negatives give 1 |
| `Customers.CeilDiv` | src/customers/customers.service.ts:45 | the page count is the least q with q * limit >= records: q pages hold them and q - 1 do not |
| `Customers.Paginate` | src/customers/customers.service.ts:38-51 | totalPages is 0 exactly when there are no records, otherwise the ceiling of records / limit; the page lies in [1, max(totalPages, 1)], equals the requested page when that exists and the last page when it overshoots; an empty store gives page 1 and skip 0; otherwise skip = (page - 1) * limit and skip < totalRecords |
| `Customers.PaginateClampsOversizedRequest` | src/customers/customers.service.spec.ts:41-56 | page 1000 and limit 5000 over one record give page 1, limit 100, one page, skip 0 |
| `Customers.ConflictField` | src/customers/customers.service.ts:24-25 | the conflict names the first target field, or `field` when the target is missing or its first entry is empty; the name is never empty |
| `Customers.TranslateCreateError` | src/customers/customers.service.ts:21-31 | a unique violation becomes Conflict "Customer with this <field> already exists"; every other store error propagates unchanged |
| `Customers.TranslateUpdateError` | src/customers/customers.service.ts:89-103 | a missing record becomes NotFound "Customer not found"; a unique violation becomes the Conflict; any other store error propagates unchanged |
| `Customers.TranslateRemoveError` | src/customers/customers.service.ts:111-116 | a missing record becomes NotFound; any other store error propagates unchanged |
| `Customers.CustomersService.Create` | src/customers/customers.service.ts:16-32 | a clash on id, email or phone gives the Conflict naming that field and leaves the table unchanged; otherwise exactly the new record (submitted fields, assigned id, timestamps) is added and a lookup of its id returns it |
| `Customers.CustomersService.FindAll` | src/customers/customers.service.ts:34-66 | the answer carries the normalised page and limit, the record count and the page count of `Paginate`, and as data the window of at most limit records starting at skip in the newest-first listing of the table; the window is non-empty whenever the table is |
| `Customers.CustomersService.FindOne` | src/customers/customers.service.ts:68-78 | succeeds exactly when the id is stored, with the stored record; otherwise NotFound "Customer not found" |
| `Customers.CustomersService.Update` | src/customers/customers.service.ts:80-104 | a missing id gives NotFound; a patched email or phone held by another customer gives the Conflict; either way nothing changes; otherwise only that record is replaced by its patched version |
| `Customers.CustomersService.Remove` | src/customers/customers.service.ts:106-117 | a missing id gives NotFound and nothing changes; otherwise the deleted record is returned, only it leaves the table, and a later lookup gives NotFound |
| `Tasks.TasksService.ValidateCreate` | src/tasks/tasks.service.ts:58-60 | validation passes exactly when the assignee exists with role EMPLOYEE and the customer exists; a missing assignee is reported before anything about the customer, then a non-EMPLOYEE assignee, then a missing customer |
| `Tasks.TasksService.ValidateAssignee` | src/tasks/tasks.service.ts:32-45 | passes exactly for an existing EMPLOYEE; a missing user gives NotFound, any other role BadRequest |
| `Tasks.TasksService.ValidateCustomer` | src/tasks/tasks.service.ts:47-56 | passes exactly for an existing customer, otherwise NotFound "Customer not found" |
| `Tasks.TasksService.Create` | src/tasks/tasks.service.ts:58-74 | a failed validation is returned as is and adds no task; otherwise exactly one task is added, with the given title, description, assignee and customer and the given status or PENDING; a created task's assignee is an EMPLOYEE and its customer exists |
| `Tasks.ScopeFilter` | src/tasks/tasks.service.ts:77-80 | no filter exactly for an ADMIN; otherwise the filter is the caller's own id |
| `Tasks.TasksService.FindAll` | src/tasks/tasks.service.ts:76-89 | a task is listed exactly when it is stored and the caller is an ADMIN or its assignee; an ADMIN gets every task; the list is newest first with each task once |
| `Tasks.TasksService.GetTaskById` | src/tasks/tasks.service.ts:91-102 | succeeds exactly for a stored id, with that task; otherwise NotFound "Task not found" |
| `Tasks.CheckOwnership` | src/tasks/tasks.service.ts:111-116 | the update is allowed exactly for an ADMIN or the task's assignee; otherwise Forbidden "You can only update your own tasks" |
| `Tasks.OwnershipMatchesScope` | src/tasks/tasks.service.ts:77-116 | a caller may update the status of exactly the tasks its listing contains |
| `Tasks.TasksService.UpdateStatus` | src/tasks/tasks.service.ts:104-125 | a missing id gives NotFound, another employee's task Forbidden, both with the table unchanged; otherwise only that task changes, in its status and update time |
| `Users.StripPassword` | src/users/users.service.ts:44-47 | every field but the password is carried over unchanged |
| `Users.StripPasswordForgetsOnlyPassword` | src/users/users.service.ts:5 | two users have the same projection exactly when they differ in nothing but the password |
| `Users.UsersService.CreateUser` | src/users/users.service.ts:11-14 | without a clash exactly one user is added (the table grows by one) and it is returned stripped; a duplicated id or email is the store's untranslated unique violation and adds nothing |
| `Users.UsersService.FindByEmail` | src/users/users.service.ts:16-18 | finds a user exactly when one has that email, and returns that stored user |
| `Users.UsersService.FindById` | src/users/users.service.ts:20-23 | nothing exactly for an absent id, otherwise the stripped stored user |
| `Users.UsersService.FindAll` | src/users/users.service.ts:25-31 | every stored user appears, stripped, once, newest first |
| `Users.UsersService.UpdateUserRole` | src/users/users.service.ts:33-42 | a missing id is the store's untranslated record-not-found error; otherwise only that user's role and update time change and the user is returned stripped |
| `Auth.AuthService.Register` | src/auth/auth.service.ts:16-32 | a taken email gives Conflict "Email is already registered" and adds no user; otherwise the user is stored with the hash of the password (work factor 10), the request's name, email and role, and returned stripped with the signed `{sub, role, email}` token; logging in right after with the same password gives the same answer |
| `Auth.RegisterTwice` | src/auth/auth.service.ts:16-20 | when a first registration succeeds, a second one with the same email is refused with Conflict "Email is already registered", and the user table holds exactly one more user than before |
| `Auth.AuthService.Login` | src/auth/auth.service.ts:34-48 | every failure is Unauthorized "Invalid email or password"; success happens exactly when a user with that email has a digest the password verifies against, and returns that user stripped with the token of its id, role and email |
| `Auth.LoginFailuresIndistinguishable` | src/auth/auth.service.ts:36-43 | a login with an unknown email and one with a wrong password fail with the same error |
| `Auth.AuthService.SignToken` | src/auth/auth.service.ts:50-53 | the token is the signature of exactly the payload `{sub: id, role, email}` of the user |
| `Store.InsertNewestFirst` | src/customers/customers.service.ts:56 | inserting a key into a newest-first listing keeps it newest first and duplicate-free and adds exactly that key |
| `Store.SortNewestFirst` | src/customers/customers.service.ts:56 | the result lists every key of the table once, newest first |
| `Store.ListingCount` | src/customers/customers.service.ts:42 | a full listing has exactly as many entries as the table has records |
| `Store.ListingRows` | src/tasks/tasks.service.ts:82-86 | the rows of a full listing are exactly the table's records |
| `Store.Window` | src/customers/customers.service.ts:53-57 | skip/take returns at most take records, the ones at positions skip, skip + 1, ... of the listing |
| `Store.Database.ListCustomers` | src/customers/customers.service.ts:53-57 | the window of the newest-first customer listing, itself newest first |
| `Store.Database.ListTasks` | src/tasks/tasks.service.ts:82-86 | a task is listed exactly when the `where` selects it; the list is newest first |
| `Store.Database.ListUsers` | src/users/users.service.ts:26-28 | the newest-first listing of all users: one row per user, each user exactly once |
| `Store.Patched` | src/customers/customers.service.ts:85-88 | a partial update replaces the given fields, keeps the others, keeps the id and creation time, and stamps the update time |

## Left out

- Controllers, route metadata and the guards that authenticate the bearer token and check the route's roles: the guard code is not part of this model, so the Session Authenticator and Role Authorizer are not modelled.
- Customer search: the service has no search parameter and applies no filter, so none is modelled.
- The `assignedUser` and `customer` projections that task responses include, and `mapToResponse` (a cast): tasks are returned as the stored record.
- bcrypt and JWT internals: hashing is a function of password and work factor (the random salt is not modelled) and signing a function of the payload (no issue or expiry time).
- How the store picks the single field of a unique violation when several columns clash: the model reports id, then email, then phone.
- Foreign keys: the store model does not check that a task's assignee and customer keep existing, so deleting a customer never fails on dependent tasks.
- Explicit `null` values in update requests: a patch field is either given or absent.
- JavaScript number precision: page and limit are unbounded integers, so values beyond 2^53 are not treated as the runtime would.
- Concurrency, including the check-then-act gap between task validation and insert; the `console.log` in the user listing; the static welcome object and the store connection.
- The Prisma schema is not part of this model: the `@updatedAt`-style stamping of `updatedAt` on every update is assumed.
- Customers.CustomersService.FindAll: records with equal creation times may come in any order, as the store does not fix one.
- Auth.AuthService.Register: the stored password digest is not shown to differ from the plaintext, since the hash function is an abstract parameter here.
