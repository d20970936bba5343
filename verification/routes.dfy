/**
 * The protected /sleep-records routes: the token middleware runs first, and only an
 * authenticated caller reaches the store, always scoped to the user id inside the token.
 */
module Routes {
  import opened Common
  import opened Records
  import opened Accounts

  /** POST /sleep-records. */
  function CreateRoute(st: Store, header: Option<string>, verify: string -> Option<Claims>, e: Entry)
    : (res: (Store, Result<Record, ApiError>))
    requires Valid(st)
    ensures Valid(res.0)
    ensures Authenticate(header, verify).Err? ==>
      res == (st, Err(Authenticate(header, verify).error))
    ensures Authenticate(header, verify).Ok? ==>
      && res.1.Ok?
      && res.1.value.userId == Authenticate(header, verify).value.id
      && res.1.value == MakeRecord(st.nextId, Authenticate(header, verify).value.id, e)
      && res.1.value.id !in st.rows
      && res.0.rows == st.rows[res.1.value.id := res.1.value]
      && res.1.value.hours == Clock.Duration(e.sleep, e.wake)
  {
    match Authenticate(header, verify)
    case Err(err) => (st, Err(err))
    case Ok(caller) =>
      var (st', r) := Create(st, caller.id, e);
      (st', Ok(r))
  }

  /** PUT /sleep-records/:id. */
  function UpdateRoute(
    st: Store, header: Option<string>, verify: string -> Option<Claims>, id: int, e: Entry)
    : (res: (Store, Result<Ack, ApiError>))
    requires Valid(st)
    ensures Valid(res.0)
    ensures res.1.Err? ==> res.0 == st
    ensures Authenticate(header, verify).Err? ==> res.1 == Err(Authenticate(header, verify).error)
    ensures res.1.Ok? <==>
      Authenticate(header, verify).Ok? && OwnedBy(st, id, Authenticate(header, verify).value.id)
    ensures res.1 == Err(NotFound) <==>
      Authenticate(header, verify).Ok? && !OwnedBy(st, id, Authenticate(header, verify).value.id)
    ensures res.1.Ok? ==>
      res.0 == Store(st.rows[id := MakeRecord(id, Authenticate(header, verify).value.id, e)], st.nextId)
  {
    match Authenticate(header, verify)
    case Err(err) => (st, Err(err))
    case Ok(caller) => Update(st, caller.id, id, e)
  }

  /** DELETE /sleep-records/:id. */
  function DeleteRoute(st: Store, header: Option<string>, verify: string -> Option<Claims>, id: int)
    : (res: (Store, Result<Ack, ApiError>))
    requires Valid(st)
    ensures Valid(res.0)
    ensures res.1.Err? ==> res.0 == st
    ensures Authenticate(header, verify).Err? ==> res.1 == Err(Authenticate(header, verify).error)
    ensures res.1.Ok? <==>
      Authenticate(header, verify).Ok? && OwnedBy(st, id, Authenticate(header, verify).value.id)
    ensures res.1 == Err(NotFound) <==>
      Authenticate(header, verify).Ok? && !OwnedBy(st, id, Authenticate(header, verify).value.id)
    ensures res.1.Ok? ==> res.0 == Store(st.rows - {id}, st.nextId)
  {
    match Authenticate(header, verify)
    case Err(err) => (st, Err(err))
    case Ok(caller) => Delete(st, caller.id, id)
  }

  /** GET /sleep-records. */
  method ListRoute(st: Store, header: Option<string>, verify: string -> Option<Claims>)
    returns (out: Result<seq<Record>, ApiError>)
    requires Valid(st)
    ensures Authenticate(header, verify).Err? ==> out == Err(Authenticate(header, verify).error)
    ensures Authenticate(header, verify).Ok? ==> out.Ok?
    ensures out.Ok? ==>
      var caller := Authenticate(header, verify).value.id;
      && NewestFirst(out.value)
      && DistinctIds(out.value)
      && (forall r :: r in out.value ==> r.userId == caller && r.id in st.rows && st.rows[r.id] == r)
      && (forall id :: OwnedBy(st, id, caller) ==> st.rows[id] in out.value)
  {
    match Authenticate(header, verify)
    case Err(err) =>
      out := Err(err);
    case Ok(caller) =>
      var rs := List(st, caller.id);
      out := Ok(rs);
  }

  /**
   * Without a usable token nothing reaches the store: every write answers 401 and leaves
   * the table as it was.
   */
  lemma NoTokenNoWrite(st: Store, verify: string -> Option<Claims>, id: int, e: Entry)
    requires Valid(st)
    ensures CreateRoute(st, None, verify, e) == (st, Err(MissingToken))
    ensures UpdateRoute(st, None, verify, id, e) == (st, Err(MissingToken))
    ensures DeleteRoute(st, None, verify, id) == (st, Err(MissingToken))
  {
  }
}
