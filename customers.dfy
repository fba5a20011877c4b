/** The customer directory: create, paginated listing, lookup, partial update
    and delete, with the store's error codes translated into HTTP errors. */
module Customers {
  import opened Common
  import opened Store

  const DefaultLimit: int := 10
  const MaxLimit: int := 100
  const DefaultPage: int := 1


  // ---------------------------------------------------------------------------
  // Pagination arithmetic. Page and limit arrive as integers (they are parsed
  // as such before the service sees them), so a "falsy" value is exactly 0.

  /** `Math.min(Math.max(limit || 10, 1), 100)` */
  function NormalizeLimit(limit: int): (r: int)
    ensures 1 <= r <= MaxLimit
    ensures limit == 0 ==> r == DefaultLimit
    ensures 1 <= limit <= MaxLimit ==> r == limit
    ensures limit > MaxLimit ==> r == MaxLimit
    ensures limit < 0 ==> r == 1
  {
    Min(Max(if limit == 0 then DefaultLimit else limit, 1), MaxLimit)
  }

  /** `Math.max(page || 1, 1)` */
  function NormalizePage(page: int): (r: int)
    ensures r >= 1
    ensures page >= 1 ==> r == page
    ensures page < 1 ==> r == 1
  {
    Max(if page == 0 then DefaultPage else page, 1)
  }

  /** `Math.ceil(a / b)` for a natural `a` and a positive `b`: the fewest pages
      of `b` records that hold `a` records. */
  function CeilDiv(a: nat, b: nat): (q: nat)
    requires b > 0
    ensures q * b >= a
    ensures a > 0 ==> (q - 1) * b < a
    ensures a == 0 ==> q == 0
  {
    var q := (a + b - 1) / b;
    assert q * b + (a + b - 1) % b == a + b - 1;
    q
  }

  /** The page window the service computes before it queries the store. */
  datatype PageWindow = PageWindow(page: int, limit: int, totalPages: nat, skip: nat)

  function Paginate(page: int, limit: int, totalRecords: nat): (w: PageWindow)
    ensures 1 <= w.limit <= MaxLimit && w.limit == NormalizeLimit(limit)
    ensures w.totalPages == 0 <==> totalRecords == 0
    ensures totalRecords > 0 ==> (w.totalPages - 1) * w.limit < totalRecords <= w.totalPages * w.limit
    ensures 1 <= w.page <= Max(w.totalPages, 1)
    ensures NormalizePage(page) <= w.totalPages ==> w.page == NormalizePage(page)
    ensures NormalizePage(page) > w.totalPages > 0 ==> w.page == w.totalPages
    ensures totalRecords == 0 ==> w.page == 1 && w.skip == 0
    ensures totalRecords > 0 ==> w.skip == (w.page - 1) * w.limit && w.skip < totalRecords
    ensures totalRecords > 0 ==> w.skip + w.limit >= totalRecords || w.page < w.totalPages
  {
    var l := NormalizeLimit(limit);
    var p := NormalizePage(page);
    var totalPages := if totalRecords == 0 then 0 else CeilDiv(totalRecords, l);
    var current := if totalPages == 0 then 1 else Min(p, totalPages);
    var skip := if totalPages == 0 then 0 else (current - 1) * l;
    if totalPages == 0 then PageWindow(current, l, totalPages, skip)
    else
      WindowInRange(totalRecords, l, totalPages, current);
      PageWindow(current, l, totalPages, skip)
  }

  /** The window of any existing page starts before the last record, and the
      window of the last page reaches it. Kept apart from `Paginate` so that
      the solver meets its multiplications in a small context. */
  lemma WindowInRange(total: nat, limit: int, pages: nat, page: int)
    requires limit >= 1 && 1 <= page <= pages
    requires (pages - 1) * limit < total <= pages * limit
    ensures 0 <= (page - 1) * limit < total
    ensures page == pages ==> (page - 1) * limit + limit >= total
  {
  }

  /** An oversized page and limit over a single record give page 1 of at most
      100 records. */
  lemma PaginateClampsOversizedRequest()
    ensures var w := Paginate(1000, 5000, 1); w.page == 1 && w.limit == 100 && w.totalPages == 1 && w.skip == 0
  {
  }

  datatype Paginated = Paginated(page: int, limit: int, totalRecords: nat, totalPages: nat,
                                 data: seq<Customer>)

  // ---------------------------------------------------------------------------
  // Translation of store errors.

  /** The field named in a conflict message: the first target field, or
      `"field"` when the target is missing or empty (`target?.[0] || 'field'`). */
  function ConflictField(target: seq<string>): (f: string)
    ensures f != ""
    ensures |target| > 0 && target[0] != "" ==> f == target[0]
    ensures f != "field" ==> |target| > 0 && f == target[0]
  {
    if |target| > 0 && target[0] != "" then target[0] else "field"
  }

  function ConflictError(target: seq<string>): Error {
    Http(Conflict, "Customer with this " + ConflictField(target) + " already exists")
  }

  /** The catch block of create: only a unique violation is translated. */
  function TranslateCreateError(e: StoreError): (err: Error)
    ensures err.Http? <==> e.code == UniqueViolation
    ensures err.Http? ==> err == ConflictError(e.target)
    ensures err.Unhandled? ==> err.cause == e
  {
    if e.code == UniqueViolation then ConflictError(e.target) else Unhandled(e)
  }

  /** The catch block of update: a missing record, then a unique violation. */
  function TranslateUpdateError(e: StoreError): (err: Error)
    ensures e.code == RecordNotFound ==> err == CustomerNotFound
    ensures e.code == UniqueViolation ==> err == ConflictError(e.target)
    ensures err.Unhandled? <==> e.code != RecordNotFound && e.code != UniqueViolation
    ensures err.Unhandled? ==> err.cause == e
  {
    if e.code == RecordNotFound then CustomerNotFound
    else if e.code == UniqueViolation then ConflictError(e.target)
    else Unhandled(e)
  }

  /** The catch block of remove: only a missing record is translated. */
  function TranslateRemoveError(e: StoreError): (err: Error)
    ensures err.Http? <==> e.code == RecordNotFound
    ensures err.Http? ==> err == CustomerNotFound
    ensures err.Unhandled? ==> err.cause == e
  {
    if e.code == RecordNotFound then CustomerNotFound else Unhandled(e)
  }

  // ---------------------------------------------------------------------------

  class CustomersService {
    const db: Database

    constructor (db: Database)
      ensures this.db == db
    {
      this.db := db;
    }

    method Create(dto: CustomerData, newId: Id, now: nat) returns (r: Result<Customer, Error>)
      requires db.Valid()
      modifies db
      ensures db.Valid() && db.users == old(db.users) && db.tasks == old(db.tasks)
      ensures var c := Customer(newId, dto.name, dto.email, dto.phone, dto.company, now, now);
        match old(db.CustomerClash(c))
        case Some(f) => r == Err(ConflictError([f])) && db.customers == old(db.customers)
        case None => r == Ok(c) && db.customers == old(db.customers)[newId := c]
      // What was created is what a lookup of its id returns.
      ensures r.Ok? ==> FindOne(r.value.id) == r
    {
      var created := db.CreateCustomer(dto, newId, now);
      match created
      case Ok(c) => r := Ok(c);
      case Err(e) => r := Err(TranslateCreateError(e));
    }

    method FindAll(page: int, limit: int) returns (r: Paginated, ghost order: seq<Id>)
      requires db.Valid()
      ensures ListsNewestFirst(order, CustomerTimes(db.customers))
      ensures var w := Paginate(page, limit, |db.customers|);
        && r == Paginated(w.page, w.limit, |db.customers|, w.totalPages,
                          Window(Rows(order, db.customers), w.skip, w.limit))
        && |r.data| <= w.limit
        && (|db.customers| > 0 ==> |r.data| > 0)
      ensures forall i, j :: 0 <= i < j < |r.data| ==> r.data[i].createdAt >= r.data[j].createdAt
    {
      var totalRecords := |db.customers|;
      var w := Paginate(page, limit, totalRecords);
      var data;
      data, order := db.ListCustomers(w.skip, w.limit);
      ListingCount(order, CustomerTimes(db.customers));
      r := Paginated(w.page, w.limit, totalRecords, w.totalPages, data);
    }

    function FindOne(id: Id): (r: Result<Customer, Error>)
      reads db
      requires db.Valid()
      ensures r.Ok? <==> id in db.customers
      ensures r.Ok? ==> r.value == db.customers[id] && r.value.id == id
      ensures r.Err? ==> r.error == CustomerNotFound
    {
      if id in db.customers then Ok(db.customers[id]) else Err(CustomerNotFound)
    }

    method Update(id: Id, dto: CustomerPatch, now: nat) returns (r: Result<Customer, Error>)
      requires db.Valid()
      modifies db
      ensures db.Valid() && db.users == old(db.users) && db.tasks == old(db.tasks)
      ensures id !in old(db.customers) ==> r == Err(CustomerNotFound) && db.customers == old(db.customers)
      ensures id in old(db.customers) ==>
        var c := Patched(old(db.customers)[id], dto, now);
        match old(db.CustomerFieldClash(c))
        case Some(f) => r == Err(ConflictError([f])) && db.customers == old(db.customers)
        case None => r == Ok(c) && db.customers == old(db.customers)[id := c]
    {
      var updated := db.UpdateCustomer(id, dto, now);
      match updated
      case Ok(c) => r := Ok(c);
      case Err(e) => r := Err(TranslateUpdateError(e));
    }

    method Remove(id: Id) returns (r: Result<Customer, Error>)
      requires db.Valid()
      modifies db
      ensures db.Valid() && db.users == old(db.users) && db.tasks == old(db.tasks)
      ensures id !in old(db.customers) ==> r == Err(CustomerNotFound) && db.customers == old(db.customers)
      ensures id in old(db.customers) ==>
        && r == Ok(old(db.customers)[id])
        && db.customers == old(db.customers) - {id}
        && id !in db.customers
        && FindOne(id) == Err(CustomerNotFound)
    {
      var deleted := db.DeleteCustomer(id);
      match deleted
      case Ok(c) => r := Ok(c);
      case Err(e) => r := Err(TranslateRemoveError(e));
    }
  }
}
