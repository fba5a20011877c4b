/** An in-memory stand-in for the relational store the services reach through
    Prisma: one table per model, keyed by record id, with the store's unique
    constraints, its error codes and its `orderBy: { createdAt: 'desc' }`
    listings. The services only ever see the store through these operations. */
module Store {
  import opened Common

  /** Prisma's error code for a unique-constraint violation. */
  const UniqueViolation: string := "P2002"
  /** Prisma's error code for an update or delete whose record is absent. */
  const RecordNotFound: string := "P2025"

  datatype User = User(id: Id, name: string, email: string, password: string,
                       role: Role, createdAt: nat, updatedAt: nat)
  /** The fields a caller supplies when creating a user. */
  datatype UserData = UserData(name: string, email: string, password: string, role: Role)

  datatype Customer = Customer(id: Id, name: string, email: string, phone: string,
                               company: Option<string>, createdAt: nat, updatedAt: nat)
  /** The fields a caller supplies when creating a customer. */
  datatype CustomerData = CustomerData(name: string, email: string, phone: string,
                                       company: Option<string>)
  /** A partial customer update: `None` leaves the field as it is. */
  datatype CustomerPatch = CustomerPatch(name: Option<string>, email: Option<string>,
                                         phone: Option<string>, company: Option<string>)

  datatype Task = Task(id: Id, title: string, description: Option<string>, status: TaskStatus,
                       assignedTo: Id, customerId: Id, createdAt: nat, updatedAt: nat)
  /** The fields a caller supplies when creating a task. */
  datatype TaskData = TaskData(title: string, description: Option<string>, status: TaskStatus,
                               assignedTo: Id, customerId: Id)

  // ---------------------------------------------------------------------------
  // Table invariants: every record is stored under its own id, and the unique
  // columns (user email; customer email and phone) hold distinct values.

  ghost predicate UsersWellFormed(users: map<Id, User>) {
    && (forall k :: k in users ==> users[k].id == k)
    && (forall a, b :: a in users && b in users && users[a].email == users[b].email ==> a == b)
  }

  ghost predicate CustomersWellFormed(cs: map<Id, Customer>) {
    && (forall k :: k in cs ==> cs[k].id == k)
    && (forall a, b :: a in cs && b in cs && cs[a].email == cs[b].email ==> a == b)
    && (forall a, b :: a in cs && b in cs && cs[a].phone == cs[b].phone ==> a == b)
  }

  ghost predicate TasksWellFormed(ts: map<Id, Task>) {
    forall k :: k in ts ==> ts[k].id == k
  }

  // ---------------------------------------------------------------------------
  // Listings ordered by creation time, newest first.

  ghost predicate KeysIn<V>(ks: seq<Id>, m: map<Id, V>) {
    forall i :: 0 <= i < |ks| ==> ks[i] in m
  }

  ghost predicate Distinct(ks: seq<Id>) {
    forall i, j :: 0 <= i < j < |ks| ==> ks[i] != ks[j]
  }

  ghost predicate NewestFirst(ks: seq<Id>, created: map<Id, nat>)
    requires KeysIn(ks, created)
  {
    forall i, j :: 0 <= i < j < |ks| ==> created[ks[i]] >= created[ks[j]]
  }

  /** `ks` lists every key of `created` exactly once, newest first; records
      created at the same instant may come in any order. */
  ghost predicate ListsNewestFirst(ks: seq<Id>, created: map<Id, nat>) {
    && KeysIn(ks, created)
    && (forall k :: k in created ==> k in ks)
    && Distinct(ks)
    && NewestFirst(ks, created)
  }

  /** Putting a key in front of a newest-first listing of keys no newer than
      it keeps the listing newest first. */
  lemma PrependNewestFirst(x: Id, ks: seq<Id>, created: map<Id, nat>)
    requires x in created && KeysIn(ks, created) && NewestFirst(ks, created)
    requires forall i :: 0 <= i < |ks| ==> created[x] >= created[ks[i]]
    ensures KeysIn([x] + ks, created) && NewestFirst([x] + ks, created)
  {
  }

  /** Putting a key not in a duplicate-free listing in front of it keeps it
      duplicate free. */
  lemma PrependDistinct(x: Id, ks: seq<Id>)
    ensures x !in ks && Distinct(ks) ==> Distinct([x] + ks)
  {
  }

  /** The tail of a duplicate-free listing is duplicate free. */
  lemma TailDistinct(ks: seq<Id>)
    requires ks != []
    ensures Distinct(ks) ==> Distinct(ks[1..])
  {
  }

  /** The head of a newest-first listing is not older than anything its tail
      holds once an older key is inserted there. */
  lemma HeadNotOlder(ks: seq<Id>, k: Id, rest: seq<Id>, created: map<Id, nat>)
    requires ks != [] && k in created && KeysIn(ks, created) && NewestFirst(ks, created)
    requires created[k] < created[ks[0]]
    requires KeysIn(rest, created)
    requires forall x :: x in rest <==> x == k || x in ks[1..]
    ensures forall i :: 0 <= i < |rest| ==> created[ks[0]] >= created[rest[i]]
  {
    forall i | 0 <= i < |rest| ensures created[ks[0]] >= created[rest[i]] {
      if rest[i] != k {
        assert rest[i] in ks[1..];
        var j :| 0 <= j < |ks[1..]| && ks[1..][j] == rest[i];
        assert ks[j + 1] == rest[i];
      }
    }
  }

  /** Inserts key `k` into a newest-first listing, in front of every key that
      is not newer than it. */
  function InsertNewestFirst(ks: seq<Id>, k: Id, created: map<Id, nat>): (r: seq<Id>)
    requires k in created && KeysIn(ks, created) && NewestFirst(ks, created)
    ensures |r| == |ks| + 1
    ensures forall x :: x in r <==> x == k || x in ks
    ensures KeysIn(r, created) && NewestFirst(r, created)
    ensures k !in ks && Distinct(ks) ==> Distinct(r)
  {
    if ks == [] || created[k] >= created[ks[0]] then
      PrependNewestFirst(k, ks, created);
      PrependDistinct(k, ks);
      [k] + ks
    else
      var tail := ks[1..];
      assert KeysIn(tail, created) && NewestFirst(tail, created);
      var rest := InsertNewestFirst(tail, k, created);
      HeadNotOlder(ks, k, rest, created);
      PrependNewestFirst(ks[0], rest, created);
      TailDistinct(ks);
      assert ks == [ks[0]] + tail;
      PrependDistinct(ks[0], rest);
      [ks[0]] + rest
  }

  /** Orders the keys of a table newest first (the store's
      `orderBy: { createdAt: 'desc' }`). */
  method SortNewestFirst(created: map<Id, nat>) returns (ks: seq<Id>)
    ensures ListsNewestFirst(ks, created)
  {
    ks := [];
    var rest := created.Keys;
    while rest != {}
      invariant rest <= created.Keys
      invariant KeysIn(ks, created) && NewestFirst(ks, created) && Distinct(ks)
      invariant forall k :: k in created ==> (k in ks <==> k !in rest)
      decreases rest
    {
      var k :| k in rest;
      ks := InsertNewestFirst(ks, k, created);
      rest := rest - {k};
    }
  }

  lemma {:induction false} DistinctCard(ks: seq<Id>)
    requires Distinct(ks)
    ensures |set x | x in ks| == |ks|
  {
    if ks != [] {
      assert Distinct(ks[1..]) by {
        forall i, j | 0 <= i < j < |ks[1..]| ensures ks[1..][i] != ks[1..][j] {
          assert ks[1..][i] == ks[i + 1] && ks[1..][j] == ks[j + 1];
        }
      }
      DistinctCard(ks[1..]);
      assert (set x | x in ks) == (set x | x in ks[1..]) + {ks[0]};
    }
  }

  /** A newest-first listing has exactly one entry per record: the store's
      `count()` and the length of its full listing agree. */
  lemma ListingCount(ks: seq<Id>, created: map<Id, nat>)
    requires ListsNewestFirst(ks, created)
    ensures |ks| == |created|
  {
    DistinctCard(ks);
    assert (set x | x in ks) == created.Keys;
  }

  /** The records of `m` in the order of `ks`. */
  function Rows<R>(ks: seq<Id>, m: map<Id, R>): (r: seq<R>)
    requires KeysIn(ks, m)
    ensures |r| == |ks|
    ensures forall i :: 0 <= i < |ks| ==> r[i] == m[ks[i]]
  {
    if ks == [] then [] else [m[ks[0]]] + Rows(ks[1..], m)
  }

  /** Listing the keys of a table yields each of its records: the rows are
      exactly the table's values. */
  lemma ListingRows<R>(ks: seq<Id>, m: map<Id, R>, created: map<Id, nat>)
    requires created.Keys == m.Keys && ListsNewestFirst(ks, created)
    ensures forall x :: x in Rows(ks, m) <==> x in m.Values
  {
  }

  /** The store's `skip`/`take`: at most `take` consecutive elements of `s`,
      starting at position `skip`. */
  function Window<R>(s: seq<R>, skip: nat, take: nat): (r: seq<R>)
    ensures |r| == if skip < |s| then Min(take, |s| - skip) else 0
    ensures forall i :: 0 <= i < |r| ==> skip + i < |s| && r[i] == s[skip + i]
  {
    if skip >= |s| then [] else s[skip..Min(skip + take, |s|)]
  }

  function UserTimes(users: map<Id, User>): (t: map<Id, nat>)
    ensures t.Keys == users.Keys
  {
    map k | k in users :: users[k].createdAt
  }

  function CustomerTimes(cs: map<Id, Customer>): (t: map<Id, nat>)
    ensures t.Keys == cs.Keys
  {
    map k | k in cs :: cs[k].createdAt
  }

  function TaskTimes(ts: map<Id, Task>): (t: map<Id, nat>)
    ensures t.Keys == ts.Keys
  {
    map k | k in ts :: ts[k].createdAt
  }

  /** The tasks a `where` clause selects: all of them for `None`, the tasks
      assigned to `who` for `Some(who)`. */
  function Matching(ts: map<Id, Task>, assignedTo: Option<Id>): (r: map<Id, Task>)
    ensures forall k :: k in r <==> k in ts && (assignedTo.None? || ts[k].assignedTo == assignedTo.value)
    ensures forall k :: k in r ==> r[k] == ts[k]
    ensures assignedTo.None? ==> r == ts
  {
    map k | k in ts && (assignedTo.None? || ts[k].assignedTo == assignedTo.value) :: ts[k]
  }

  // ---------------------------------------------------------------------------

  class Database {
    var users: map<Id, User>
    var customers: map<Id, Customer>
    var tasks: map<Id, Task>

    ghost predicate Valid()
      reads this
    {
      UsersWellFormed(users) && CustomersWellFormed(customers) && TasksWellFormed(tasks)
    }

    constructor ()
      ensures Valid()
      ensures users == map[] && customers == map[] && tasks == map[]
    {
      users, customers, tasks := map[], map[], map[];
    }

    // ---- users

    /** The unique column a new user would duplicate, if any: its id, then its email. */
    function UserClash(newId: Id, email: string): (f: Option<string>)
      reads this
      ensures f.None? <==> newId !in users && forall k :: k in users ==> users[k].email != email
      ensures f.Some? ==> f.value == (if newId in users then "id" else "email")
    {
      if newId in users then Some("id")
      else if exists k :: k in users && users[k].email == email then Some("email")
      else None
    }

    method CreateUser(data: UserData, newId: Id, now: nat) returns (r: Result<User, StoreError>)
      requires Valid()
      modifies this
      ensures Valid() && customers == old(customers) && tasks == old(tasks)
      ensures old(UserClash(newId, data.email)).Some? ==>
        && r == Err(StoreError(UniqueViolation, [old(UserClash(newId, data.email)).value]))
        && users == old(users)
      ensures old(UserClash(newId, data.email)).None? ==>
        && r == Ok(User(newId, data.name, data.email, data.password, data.role, now, now))
        && users == old(users)[newId := r.value]
    {
      var clash := UserClash(newId, data.email);
      if clash.Some? {
        r := Err(StoreError(UniqueViolation, [clash.value]));
      } else {
        var u := User(newId, data.name, data.email, data.password, data.role, now, now);
        users := users[newId := u];
        r := Ok(u);
      }
    }

    method UpdateUserRole(id: Id, role: Role, now: nat) returns (r: Result<User, StoreError>)
      requires Valid()
      modifies this
      ensures Valid() && customers == old(customers) && tasks == old(tasks)
      ensures id !in old(users) ==> r == Err(StoreError(RecordNotFound, [])) && users == old(users)
      ensures id in old(users) ==>
        && r == Ok(old(users)[id].(role := role, updatedAt := now))
        && users == old(users)[id := r.value]
    {
      if id !in users {
        r := Err(StoreError(RecordNotFound, []));
      } else {
        var u := users[id].(role := role, updatedAt := now);
        users := users[id := u];
        r := Ok(u);
      }
    }

    method ListUsers() returns (rows: seq<User>, ghost order: seq<Id>)
      ensures ListsNewestFirst(order, UserTimes(users))
      ensures rows == Rows(order, users)
      ensures |rows| == |order| == |users|
      ensures forall i :: 0 <= i < |rows| ==> order[i] in users && rows[i] == users[order[i]]
      ensures forall u :: u in users.Values <==> u in rows
      ensures forall i, j :: 0 <= i < j < |rows| ==> rows[i].createdAt >= rows[j].createdAt
    {
      var ks := SortNewestFirst(UserTimes(users));
      rows, order := Rows(ks, users), ks;
      ListingCount(order, UserTimes(users));
      ListingRows(order, users, UserTimes(users));
    }

    // ---- customers

    /** The unique column (email, then phone) that customer `c` shares with
        another stored customer, if any. */
    function CustomerFieldClash(c: Customer): (f: Option<string>)
      reads this
      ensures f.None? <==> forall k :: k in customers && k != c.id ==>
                             customers[k].email != c.email && customers[k].phone != c.phone
      ensures f.Some? ==> f.value == "email" || f.value == "phone"
    {
      if exists k :: k in customers && k != c.id && customers[k].email == c.email then Some("email")
      else if exists k :: k in customers && k != c.id && customers[k].phone == c.phone then Some("phone")
      else None
    }

    /** The unique column a new customer would duplicate, if any: its id, then
        its email, then its phone. */
    function CustomerClash(c: Customer): (f: Option<string>)
      reads this
    {
      if c.id in customers then Some("id") else CustomerFieldClash(c)
    }

    method CreateCustomer(data: CustomerData, newId: Id, now: nat) returns (r: Result<Customer, StoreError>)
      requires Valid()
      modifies this
      ensures Valid() && users == old(users) && tasks == old(tasks)
      ensures var c := Customer(newId, data.name, data.email, data.phone, data.company, now, now);
        match old(CustomerClash(c))
        case Some(f) => r == Err(StoreError(UniqueViolation, [f])) && customers == old(customers)
        case None => r == Ok(c) && customers == old(customers)[newId := c]
    {
      var c := Customer(newId, data.name, data.email, data.phone, data.company, now, now);
      var clash := CustomerClash(c);
      if clash.Some? {
        r := Err(StoreError(UniqueViolation, [clash.value]));
      } else {
        customers := customers[newId := c];
        r := Ok(c);
      }
    }

    method UpdateCustomer(id: Id, patch: CustomerPatch, now: nat) returns (r: Result<Customer, StoreError>)
      requires Valid()
      modifies this
      ensures Valid() && users == old(users) && tasks == old(tasks)
      ensures id !in old(customers) ==> r == Err(StoreError(RecordNotFound, [])) && customers == old(customers)
      ensures id in old(customers) ==>
        var c := Patched(old(customers)[id], patch, now);
        match old(CustomerFieldClash(c))
        case Some(f) => r == Err(StoreError(UniqueViolation, [f])) && customers == old(customers)
        case None => r == Ok(c) && customers == old(customers)[id := c]
    {
      if id !in customers {
        r := Err(StoreError(RecordNotFound, []));
        return;
      }
      var c := Patched(customers[id], patch, now);
      var clash := CustomerFieldClash(c);
      if clash.Some? {
        r := Err(StoreError(UniqueViolation, [clash.value]));
      } else {
        customers := customers[id := c];
        r := Ok(c);
      }
    }

    method DeleteCustomer(id: Id) returns (r: Result<Customer, StoreError>)
      requires Valid()
      modifies this
      ensures Valid() && users == old(users) && tasks == old(tasks)
      ensures id !in old(customers) ==> r == Err(StoreError(RecordNotFound, [])) && customers == old(customers)
      ensures id in old(customers) ==> r == Ok(old(customers)[id]) && customers == old(customers) - {id}
    {
      if id !in customers {
        r := Err(StoreError(RecordNotFound, []));
      } else {
        r := Ok(customers[id]);
        customers := customers - {id};
      }
    }

    method ListCustomers(skip: nat, take: nat) returns (rows: seq<Customer>, ghost order: seq<Id>)
      ensures ListsNewestFirst(order, CustomerTimes(customers))
      ensures rows == Window(Rows(order, customers), skip, take)
      ensures forall i, j :: 0 <= i < j < |rows| ==> rows[i].createdAt >= rows[j].createdAt
    {
      var ks := SortNewestFirst(CustomerTimes(customers));
      rows, order := Window(Rows(ks, customers), skip, take), ks;
    }

    // ---- tasks

    method CreateTask(data: TaskData, newId: Id, now: nat) returns (r: Result<Task, StoreError>)
      requires Valid()
      modifies this
      ensures Valid() && users == old(users) && customers == old(customers)
      ensures newId in old(tasks) ==> r == Err(StoreError(UniqueViolation, ["id"])) && tasks == old(tasks)
      ensures newId !in old(tasks) ==>
        && r == Ok(Task(newId, data.title, data.description, data.status, data.assignedTo,
                        data.customerId, now, now))
        && tasks == old(tasks)[newId := r.value]
    {
      if newId in tasks {
        r := Err(StoreError(UniqueViolation, ["id"]));
      } else {
        var t := Task(newId, data.title, data.description, data.status, data.assignedTo,
                      data.customerId, now, now);
        tasks := tasks[newId := t];
        r := Ok(t);
      }
    }

    method UpdateTaskStatus(id: Id, status: TaskStatus, now: nat) returns (r: Result<Task, StoreError>)
      requires Valid()
      modifies this
      ensures Valid() && users == old(users) && customers == old(customers)
      ensures id !in old(tasks) ==> r == Err(StoreError(RecordNotFound, [])) && tasks == old(tasks)
      ensures id in old(tasks) ==>
        && r == Ok(old(tasks)[id].(status := status, updatedAt := now))
        && tasks == old(tasks)[id := r.value]
    {
      if id !in tasks {
        r := Err(StoreError(RecordNotFound, []));
      } else {
        var t := tasks[id].(status := status, updatedAt := now);
        tasks := tasks[id := t];
        r := Ok(t);
      }
    }

    /** `findMany({ where, orderBy: { createdAt: 'desc' } })` on the task table,
        with `where` either empty or `{ assignedTo }`. */
    method ListTasks(assignedTo: Option<Id>) returns (rows: seq<Task>, ghost order: seq<Id>)
      ensures ListsNewestFirst(order, TaskTimes(Matching(tasks, assignedTo)))
      ensures rows == Rows(order, Matching(tasks, assignedTo))
      ensures forall t :: t in rows <==> t in tasks.Values && (assignedTo.None? || t.assignedTo == assignedTo.value)
      ensures forall i, j :: 0 <= i < j < |rows| ==> rows[i].createdAt >= rows[j].createdAt
    {
      var selected := Matching(tasks, assignedTo);
      var ks := SortNewestFirst(TaskTimes(selected));
      rows, order := Rows(ks, selected), ks;
      ListingRows(ks, selected, TaskTimes(selected));
    }
  }

  /** Customer `c` after a partial update at time `now`: the fields the patch
      gives are replaced, the others are kept; the id and creation time never change. */
  function Patched(c: Customer, p: CustomerPatch, now: nat): (r: Customer)
    ensures r.id == c.id && r.createdAt == c.createdAt && r.updatedAt == now
    ensures r.name == (if p.name.Some? then p.name.value else c.name)
    ensures r.email == (if p.email.Some? then p.email.value else c.email)
    ensures r.phone == (if p.phone.Some? then p.phone.value else c.phone)
    ensures r.company == (if p.company.Some? then p.company else c.company)
  {
    Customer(c.id, p.name.GetOr(c.name), p.email.GetOr(c.email), p.phone.GetOr(c.phone),
             if p.company.Some? then p.company else c.company, c.createdAt, now)
  }
}
