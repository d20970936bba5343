/**
 * The sleep_records table as an owner-scoped store: a map from row id to record plus the
 * AUTOINCREMENT counter. Create and update recompute `hours` from the two clock times;
 * update and delete match on the row id AND the caller's user id, and touching zero rows
 * is reported as not found.
 */
module Records {
  import opened Common
  import opened Clock

  /**
   * The quality column. `Unrated` stands for an absent value, an empty one, and any other text
   * that is not a property name every JavaScript object inherits (such as `constructor`).
   */
  datatype Quality = Excellent | Good | Fair | Poor | Unrated

  /** One row of sleep_records. `date` is the calendar date as an ordinal that sorts like the ISO text. */
  datatype Record = Record(
    id: int,
    userId: int,
    sleep: Time,
    wake: Time,
    hours: real,
    quality: Quality,
    notes: Option<string>,
    date: int)

  /** The body of a create or update request. */
  datatype Entry = Entry(sleep: Time, wake: Time, quality: Quality, notes: Option<string>, date: int)

  /** The table: rows by id, and the next id AUTOINCREMENT hands out. */
  datatype Store = Store(rows: map<int, Record>, nextId: int)

  /** The acknowledgement of a successful update or delete (HTTP 200). */
  datatype Ack = Ack

  /** What every row satisfies: its key is its id, below the counter, and its hours are derived. */
  predicate Valid(st: Store)
  {
    && 1 <= st.nextId
    && forall id :: id in st.rows ==>
         && st.rows[id].id == id
         && 1 <= id < st.nextId
         && st.rows[id].hours == Duration(st.rows[id].sleep, st.rows[id].wake)
  }

  /** The empty table; SQLite's first AUTOINCREMENT id is 1. */
  function Empty(): (st: Store)
    ensures Valid(st) && st.rows == map[]
  {
    Store(map[], 1)
  }

  /** The row a write stores: the entry's fields, the owner, and the derived hours. */
  function MakeRecord(id: int, owner: int, e: Entry): (r: Record)
    ensures r.id == id && r.userId == owner
    ensures r.sleep == e.sleep && r.wake == e.wake && r.quality == e.quality
    ensures r.notes == e.notes && r.date == e.date
    ensures r.hours == Duration(r.sleep, r.wake)
    ensures 0.0 <= r.hours < 24.0
    ensures r.sleep == r.wake ==> r.hours == 0.0
  {
    Record(id, owner, e.sleep, e.wake, Duration(e.sleep, e.wake), e.quality, e.notes, e.date)
  }

  /** True when row `id` exists and belongs to `owner` (the WHERE id = ? AND user_id = ? test). */
  predicate OwnedBy(st: Store, id: int, owner: int)
  {
    id in st.rows && st.rows[id].userId == owner
  }

  /** POST /sleep-records: insert a new row owned by the caller under a fresh id. */
  function Create(st: Store, owner: int, e: Entry): (res: (Store, Record))
    requires Valid(st)
    ensures var (st', r) := res;
      && Valid(st')
      && r.id !in st.rows
      && st'.rows.Keys == st.rows.Keys + {r.id}
      && st'.rows[r.id] == r
      && (forall id :: id in st.rows ==> st'.rows[id] == st.rows[id])
      && r.userId == owner
      && r.sleep == e.sleep && r.wake == e.wake && r.quality == e.quality && r.date == e.date
      && r.notes == e.notes
      && r.hours == Duration(e.sleep, e.wake)
  {
    var r := MakeRecord(st.nextId, owner, e);
    (Store(st.rows[r.id := r], st.nextId + 1), r)
  }

  /** PUT /sleep-records/:id: overwrite the caller's row with the entry, or report not found. */
  function Update(st: Store, owner: int, id: int, e: Entry): (res: (Store, Result<Ack, ApiError>))
    ensures var (st', out) := res;
      && (Valid(st) ==> Valid(st'))
      && (out.Ok? <==> OwnedBy(st, id, owner))
      && (out.Err? ==> out.error == NotFound && st' == st)
      && (out.Ok? ==>
            && st'.rows.Keys == st.rows.Keys
            && st'.nextId == st.nextId
            && (forall k :: k in st.rows && k != id ==> st'.rows[k] == st.rows[k])
            && st'.rows[id].userId == owner
            && st'.rows[id].sleep == e.sleep && st'.rows[id].wake == e.wake
            && st'.rows[id].quality == e.quality && st'.rows[id].notes == e.notes
            && st'.rows[id].date == e.date
            && st'.rows[id].hours == Duration(e.sleep, e.wake))
  {
    if OwnedBy(st, id, owner) then
      (Store(st.rows[id := MakeRecord(id, owner, e)], st.nextId), Ok(Ack))
    else
      (st, Err(NotFound))
  }

  /** DELETE /sleep-records/:id: remove the caller's row, or report not found. */
  function Delete(st: Store, owner: int, id: int): (res: (Store, Result<Ack, ApiError>))
    ensures var (st', out) := res;
      && (Valid(st) ==> Valid(st'))
      && (out.Ok? <==> OwnedBy(st, id, owner))
      && (out.Err? ==> out.error == NotFound && st' == st)
      && (out.Ok? ==>
            && st'.rows.Keys == st.rows.Keys - {id}
            && st'.nextId == st.nextId
            && (forall k :: k in st'.rows ==> st'.rows[k] == st.rows[k]))
  {
    if OwnedBy(st, id, owner) then
      (Store(st.rows - {id}, st.nextId), Ok(Ack))
    else
      (st, Err(NotFound))
  }

  /** No update or delete by one user changes or removes a row that belongs to someone else. */
  lemma WritesIsolateOwners(st: Store, owner: int, id: int, e: Entry, k: int)
    requires k in st.rows && st.rows[k].userId != owner
    ensures k in Update(st, owner, id, e).0.rows && Update(st, owner, id, e).0.rows[k] == st.rows[k]
    ensures k in Delete(st, owner, id).0.rows && Delete(st, owner, id).0.rows[k] == st.rows[k]
  {
    if OwnedBy(st, id, owner) {
      assert id != k;
    }
  }

  /** Deleting the row just created, as its owner, gives back the rows as they were. */
  lemma DeleteUndoesCreate(st: Store, owner: int, e: Entry)
    requires Valid(st)
    ensures var (st1, r) := Create(st, owner, e);
      Delete(st1, owner, r.id) == (Store(st.rows, st.nextId + 1), Ok(Ack))
  {
    var (st1, r) := Create(st, owner, e);
    assert st1.rows - {r.id} == st.rows;
  }

  /** Sending the same update twice leaves the table as the first one left it. */
  lemma UpdateIdempotent(st: Store, owner: int, id: int, e: Entry)
    ensures var st1 := Update(st, owner, id, e).0;
      Update(st1, owner, id, e) == (st1, Update(st, owner, id, e).1)
  {
    var st1 := Update(st, owner, id, e).0;
    if OwnedBy(st, id, owner) {
      assert st1.rows[id := MakeRecord(id, owner, e)] == st1.rows;
    }
  }

  // ----- The store as a state machine -----

  /** One write request, already authenticated as `owner`. */
  datatype Write =
    | CreateOp(owner: int, entry: Entry)
    | UpdateOp(owner: int, id: int, entry: Entry)
    | DeleteOp(owner: int, id: int)

  function Step(st: Store, w: Write): (st': Store)
    requires Valid(st)
    ensures Valid(st')
  {
    match w
    case CreateOp(owner, e) => Create(st, owner, e).0
    case UpdateOp(owner, id, e) => Update(st, owner, id, e).0
    case DeleteOp(owner, id) => Delete(st, owner, id).0
  }

  function Run(st: Store, ws: seq<Write>): Store
    requires Valid(st)
    decreases |ws|
  {
    if |ws| == 0 then st else Run(Step(st, ws[0]), ws[1..])
  }

  /**
   * After any sequence of writes from the empty table, every stored `hours` equals the
   * duration of that row's own sleep and wake times, and lies in [0, 24).
   */
  lemma {:induction false} HoursAlwaysDerived(st: Store, ws: seq<Write>)
    requires Valid(st)
    ensures Valid(Run(st, ws))
    ensures forall id :: id in Run(st, ws).rows ==>
              0.0 <= Run(st, ws).rows[id].hours < 24.0
    decreases |ws|
  {
    if |ws| > 0 {
      HoursAlwaysDerived(Step(st, ws[0]), ws[1..]);
    }
  }

  // ----- GET /sleep-records -----

  /** Descending by date: the ORDER BY date DESC of the list query. */
  predicate NewestFirst(s: seq<Record>)
  {
    forall i, j :: 0 <= i < j < |s| ==> s[i].date >= s[j].date
  }

  predicate DistinctIds(s: seq<Record>)
  {
    forall i, j :: 0 <= i < j < |s| ==> s[i].id != s[j].id
  }

  /** Insert one record into a newest-first list, before every record not newer than it. */
  function InsertByDate(r: Record, s: seq<Record>): (t: seq<Record>)
    ensures |t| == |s| + 1
    ensures multiset(t) == multiset(s) + multiset{r}
  {
    if |s| == 0 || r.date >= s[0].date then [r] + s
    else
      assert s == [s[0]] + s[1..];
      [s[0]] + InsertByDate(r, s[1..])
  }

  /** The inserted list holds the new record and the old ones, and nothing else. */
  lemma InsertMembers(r: Record, s: seq<Record>)
    ensures forall x :: x in InsertByDate(r, s) <==> x == r || x in s
  {
    var t := InsertByDate(r, s);
    forall x
      ensures x in t <==> x == r || x in s
    {
      assert x in t <==> x in multiset(t);
      assert x in s <==> x in multiset(s);
    }
  }

  /** Inserting keeps the list newest first. */
  lemma {:induction false} InsertKeepsOrder(r: Record, s: seq<Record>)
    requires NewestFirst(s)
    ensures NewestFirst(InsertByDate(r, s))
  {
    if |s| > 0 && r.date < s[0].date {
      var rest := InsertByDate(r, s[1..]);
      InsertKeepsOrder(r, s[1..]);
      forall k | 0 <= k < |rest|
        ensures rest[k].date <= s[0].date
      {
        assert rest[k] in multiset(rest);
        if rest[k] != r {
          assert rest[k] in multiset(s[1..]);
          var j :| 0 <= j < |s[1..]| && s[1..][j] == rest[k];
          assert s[j + 1] == rest[k];
        }
      }
      assert InsertByDate(r, s) == [s[0]] + rest;
    }
  }

  /** Inserting a record whose id is new keeps the ids distinct. */
  lemma {:induction false} InsertKeepsIdsDistinct(r: Record, s: seq<Record>)
    requires DistinctIds(s)
    requires forall x :: x in s ==> x.id != r.id
    ensures DistinctIds(InsertByDate(r, s))
  {
    if |s| > 0 && r.date < s[0].date {
      var rest := InsertByDate(r, s[1..]);
      InsertKeepsIdsDistinct(r, s[1..]);
      forall k | 0 <= k < |rest|
        ensures rest[k].id != s[0].id
      {
        assert rest[k] in multiset(rest);
        if rest[k] != r {
          assert rest[k] in multiset(s[1..]);
          var j :| 0 <= j < |s[1..]| && s[1..][j] == rest[k];
          assert s[j + 1] == rest[k];
        } else {
          assert s[0] in s;
        }
      }
      assert InsertByDate(r, s) == [s[0]] + rest;
    }
  }

  /** GET /sleep-records: exactly the caller's rows, each once, newest date first. */
  method List(st: Store, owner: int) returns (rs: seq<Record>)
    requires Valid(st)
    ensures NewestFirst(rs)
    ensures DistinctIds(rs)
    ensures forall i :: 0 <= i < |rs| ==> OwnedBy(st, rs[i].id, owner) && st.rows[rs[i].id] == rs[i]
    ensures forall id :: OwnedBy(st, id, owner) ==> st.rows[id] in rs
  {
    // Scan the table in rowid order and keep the caller's rows sorted as they are found.
    rs := [];
    var k := 1;
    while k < st.nextId
      invariant 1 <= k <= st.nextId
      invariant NewestFirst(rs)
      invariant DistinctIds(rs)
      invariant forall x :: x in rs ==> OwnedBy(st, x.id, owner) && x.id < k && st.rows[x.id] == x
      invariant forall id :: id < k && OwnedBy(st, id, owner) ==> st.rows[id] in rs
    {
      if OwnedBy(st, k, owner) {
        InsertMembers(st.rows[k], rs);
        InsertKeepsOrder(st.rows[k], rs);
        InsertKeepsIdsDistinct(st.rows[k], rs);
        rs := InsertByDate(st.rows[k], rs);
      }
      k := k + 1;
    }
    forall i | 0 <= i < |rs|
      ensures OwnedBy(st, rs[i].id, owner) && st.rows[rs[i].id] == rs[i]
    {
      assert rs[i] in rs;
    }
  }
}
