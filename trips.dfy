/** The owner-scoped trips resource (backend/routes/trips.js): every route runs
    for an authenticated caller `userId`, and every read, update and delete is
    restricted to the rows whose user_id is that caller. The `trips` table is
    a sequence of rows; list and get are functions of it, create, update and
    delete are methods of `TripStore`, which holds it. */
module Trips {
  import opened Wrappers
  import opened Http
  import opened Seqs
  import opened Sql
  import V = Validators

  /** One row of the `trips` table. `destinations` is the array of destination
      ids the row stores as JSON text; `description` is NULL or a text. */
  datatype Trip = Trip(
    id: int,
    userId: int,
    title: string,
    description: Option<string>,
    startDate: string,
    endDate: string,
    destinations: seq<int>,
    createdAt: int,
    updatedAt: int)

  const TripNotFound := "Trip not found"
  const NoFieldsToUpdate := "No fields to update"
  const TripDeleted := "Trip deleted successfully"

  function CreatedAt(t: Trip): int {
    t.createdAt
  }

  /** `WHERE id = <id> AND user_id = <userId>` */
  predicate Owns(t: Trip, id: int, userId: int) {
    t.id == id && t.userId == userId
  }

  /** The rows selected by `WHERE id = <id> AND user_id = <userId>`, in table order. */
  function Where(rows: seq<Trip>, id: int, userId: int): (r: seq<Trip>)
    ensures forall t :: t in r <==> t in rows && Owns(t, id, userId)
  {
    Filter(rows, (t: Trip) => Owns(t, id, userId))
  }

  /** Primary key: no two rows share an id. */
  ghost predicate UniqueIds(rows: seq<Trip>) {
    forall i, j :: 0 <= i < j < |rows| ==> rows[i].id != rows[j].id
  }

  // ---------------------------------------------------------------------
  // GET /   and   GET /:id

  /** GET /: the caller's trips, newest first. Exactly the caller's rows are
      returned, each as often as it occurs in the table. */
  function ListTrips(rows: seq<Trip>, userId: int): (r: seq<Trip>)
    ensures forall t :: multiset(r)[t] == if t.userId == userId then multiset(rows)[t] else 0
    ensures forall t :: t in r <==> t in rows && t.userId == userId
    ensures SortedDesc(r, CreatedAt)
  {
    var mine := Filter(rows, (t: Trip) => t.userId == userId);
    var r := SortDesc(mine, CreatedAt);
    assert forall t :: t in r <==> t in mine by {
      forall t ensures t in r <==> t in mine {
        assert multiset(r)[t] == multiset(mine)[t];
      }
    }
    r
  }

  /** GET /:id: the caller's trip with that id, or 404. A trip that does not
      exist and a trip of another user give the same reply. */
  function GetTrip(rows: seq<Trip>, id: int, userId: int): (r: Reply<Trip>)
    ensures r.Ok? <==> exists t :: t in rows && Owns(t, id, userId)
    ensures r.Ok? ==> r.status == 200 && r.body in rows && Owns(r.body, id, userId)
    ensures !r.Ok? ==> r == Fail(404, TripNotFound)
  {
    var found := Where(rows, id, userId);
    if found == [] then Fail(404, TripNotFound)
    else
      assert found[0] in found;
      Ok(200, found[0])
  }

  // ---------------------------------------------------------------------
  // POST /

  /** The JSON body of POST /; a field that was not sent (or was null) is None. */
  datatype CreateRequest = CreateRequest(
    title: Option<string>,
    description: Option<string>,
    startDate: Option<string>,
    endDate: Option<string>,
    destinations: Option<seq<int>>)

  /** The messages of the failed validators, in declaration order. */
  function CreateErrors(req: CreateRequest): (errs: seq<string>)
    ensures errs == [] <==> V.NotEmpty(req.title) && V.IsIso8601(req.startDate) && V.IsIso8601(req.endDate)
    ensures "Title is required" in errs <==> !V.NotEmpty(req.title)
    ensures "Valid start date required" in errs <==> !V.IsIso8601(req.startDate)
    ensures "Valid end date required" in errs <==> !V.IsIso8601(req.endDate)
    ensures |errs| <= 3
  {
    (if V.NotEmpty(req.title) then [] else ["Title is required"])
    + (if V.IsIso8601(req.startDate) then [] else ["Valid start date required"])
    + (if V.IsIso8601(req.endDate) then [] else ["Valid end date required"])
  }

  /** The row INSERT ... RETURNING * produces: `description || null` turns a
      missing, null or empty description into NULL, and `destinations || []`
      stores an empty array when none was sent. */
  function NewTrip(id: int, userId: int, req: CreateRequest, now: int): Trip
    requires CreateErrors(req) == []
  {
    Trip(id, userId, req.title.value,
         if req.description.Some? && req.description.value != "" then req.description else None,
         req.startDate.value, req.endDate.value,
         req.destinations.GetOr([]),
         now, now)
  }

  lemma NewTripDefaults(id: int, userId: int, req: CreateRequest, now: int)
    requires CreateErrors(req) == []
    ensures NewTrip(id, userId, req, now).userId == userId
    ensures NewTrip(id, userId, req, now).description == None <==> req.description in {None, Some("")}
    ensures req.destinations == None ==> NewTrip(id, userId, req, now).destinations == []
    ensures req.destinations.Some? ==> NewTrip(id, userId, req, now).destinations == req.destinations.value
  {
  }

  /** A trip inserted with a fresh id is what GET /:id then returns to its
      owner, and only to its owner. */
  lemma {:induction false} GetAfterCreate(rows: seq<Trip>, t: Trip, caller: int)
    requires forall r :: r in rows ==> r.id != t.id
    ensures GetTrip(rows + [t], t.id, caller) == if caller == t.userId then Ok(200, t) else Fail(404, TripNotFound)
  {
    var p := (r: Trip) => Owns(r, t.id, caller);
    FilterConcat(rows, [t], p);
    assert Filter(rows, p) == [];
    assert Where(rows + [t], t.id, caller) == Filter([t], p);
  }

  // ---------------------------------------------------------------------
  // DELETE /:id

  /** The table after `DELETE FROM trips WHERE id = <id> AND user_id = <userId>`:
      the other rows, in their order. */
  function Without(rows: seq<Trip>, id: int, userId: int): (r: seq<Trip>)
    ensures forall t :: t in r <==> t in rows && !Owns(t, id, userId)
    ensures forall t :: !Owns(t, id, userId) ==> multiset(r)[t] == multiset(rows)[t]
    ensures SubsequenceOf(r, rows)
  {
    Filter(rows, (t: Trip) => !Owns(t, id, userId))
  }

  /** A second DELETE of the same trip finds nothing (so replies 404) and
      leaves the table as the first one left it. */
  lemma DeleteTwice(rows: seq<Trip>, id: int, userId: int)
    ensures Where(Without(rows, id, userId), id, userId) == []
    ensures Without(Without(rows, id, userId), id, userId) == Without(rows, id, userId)
  {
    var once := Without(rows, id, userId);
    FilterKeepsAll(once, (t: Trip) => !Owns(t, id, userId));
  }

  /** Another user's trip looks exactly like a missing one: GET /:id replies
      the same as it would on a table where that trip was never inserted. */
  lemma ForeignTripLooksMissing(rows: seq<Trip>, k: nat, caller: int)
    requires UniqueIds(rows)
    requires k < |rows| && rows[k].userId != caller
    ensures GetTrip(rows, rows[k].id, caller) == Fail(404, TripNotFound)
    ensures GetTrip(rows, rows[k].id, caller) == GetTrip(Without(rows, rows[k].id, rows[k].userId), rows[k].id, caller)
  {
    var id := rows[k].id;
    if exists t :: t in rows && Owns(t, id, caller) {
      var t :| t in rows && Owns(t, id, caller);
      var j :| 0 <= j < |rows| && rows[j] == t;
      assert false;
    }
  }

  // ---------------------------------------------------------------------
  // PUT /:id: the partial update and the statement built for it

  /** The JSON body of PUT /: a field that was not sent is None. The
      description may be sent as null, which clears it. */
  datatype Patch = Patch(
    title: Option<string>,
    description: Option<Option<string>>,
    startDate: Option<string>,
    endDate: Option<string>,
    destinations: Option<seq<int>>)

  /** The title validator of PUT: optional, but not empty when sent. */
  function UpdateErrors(p: Patch): (errs: seq<string>)
    ensures errs == [] <==> p.title != Some("")
  {
    if p.title == Some("") then ["Title cannot be empty"] else []
  }

  /** The trip as the partial update specifies it: each field that was sent
      replaces the stored one, the others stay, and the modification time
      becomes `now`. */
  function Patched(t: Trip, p: Patch, now: int): Trip {
    t.(title := p.title.GetOr(t.title),
       description := p.description.GetOr(t.description),
       startDate := p.startDate.GetOr(t.startDate),
       endDate := p.endDate.GetOr(t.endDate),
       destinations := p.destinations.GetOr(t.destinations),
       updatedAt := now)
  }

  /** The whole table after the partial update of the caller's trip `id`. */
  function PatchRows(rows: seq<Trip>, id: int, userId: int, p: Patch, now: int): (r: seq<Trip>)
    ensures |r| == |rows|
    ensures forall i :: 0 <= i < |rows| ==> r[i] == if Owns(rows[i], id, userId) then Patched(rows[i], p, now) else rows[i]
  {
    seq(|rows|, i requires 0 <= i < |rows| => if Owns(rows[i], id, userId) then Patched(rows[i], p, now) else rows[i])
  }

  /** The partial update keeps every row's id, so the primary key and the
      id counter stay valid. */
  lemma PatchKeepsKeys(rows: seq<Trip>, id: int, userId: int, p: Patch, now: int, nextId: int)
    requires UniqueIds(rows) && forall i :: 0 <= i < |rows| ==> rows[i].id < nextId
    ensures UniqueIds(PatchRows(rows, id, userId, p, now))
    ensures forall i :: 0 <= i < |rows| ==> PatchRows(rows, id, userId, p, now)[i].id < nextId
  {
    var patched := PatchRows(rows, id, userId, p, now);
    assert forall i :: 0 <= i < |rows| ==> patched[i].id == rows[i].id;
  }

  /** Sending only a title changes the title and the modification time and
      nothing else. */
  lemma TitleOnlyUpdate(t: Trip, title: string, now: int)
    ensures Patched(t, Patch(Some(title), None, None, None, None), now) == t.(title := title, updatedAt := now)
  {
  }

  /** The columns a PUT may set. */
  datatype Column = Title | Description | StartDate | EndDate | Destinations

  /** What one SET clause does once its placeholder is bound: write a value
      into a column, or `updated_at = NOW()`. */
  datatype Effect = Write(column: Column, value: Value) | StampUpdatedAt

  /** The value sent for the description: a text, or NULL for null. */
  function DescriptionValue(d: Option<string>): Value {
    if d.Some? then Text(d.value) else Null
  }

  function TitleField(p: Patch): seq<Effect> {
    if p.title.Some? then [Write(Title, Text(p.title.value))] else []
  }

  function DescriptionField(p: Patch): seq<Effect> {
    if p.description.Some? then [Write(Description, DescriptionValue(p.description.value))] else []
  }

  function StartDateField(p: Patch): seq<Effect> {
    if p.startDate.Some? then [Write(StartDate, Text(p.startDate.value))] else []
  }

  function EndDateField(p: Patch): seq<Effect> {
    if p.endDate.Some? then [Write(EndDate, Text(p.endDate.value))] else []
  }

  function DestinationsField(p: Patch): seq<Effect> {
    if p.destinations.Some? then [Write(Destinations, Json(p.destinations.value))] else []
  }

  /** How many of the five fields the body sends. */
  function SentCount(p: Patch): nat {
    (if p.title.Some? then 1 else 0) + (if p.description.Some? then 1 else 0)
    + (if p.startDate.Some? then 1 else 0) + (if p.endDate.Some? then 1 else 0)
    + (if p.destinations.Some? then 1 else 0)
  }

  /** The fields that were sent, as column writes, in the fixed order title,
      description, start_date, end_date, destinations. */
  function PresentFields(p: Patch): (r: seq<Effect>)
    ensures |r| == SentCount(p)
    ensures |r| <= 5
    ensures r == [] <==> p.title.None? && p.description.None? && p.startDate.None? && p.endDate.None? && p.destinations.None?
    ensures forall e :: e in r ==> e.Write? && Fits(e.column, e.value)
  {
    var a, b, c, d, e := TitleField(p), DescriptionField(p), StartDateField(p), EndDateField(p), DestinationsField(p);
    assert |a| + |b| + |c| + |d| + |e| == SentCount(p);
    assert |a| <= 1 && |b| <= 1 && |c| <= 1 && |d| <= 1 && |e| <= 1;
    assert forall x :: x in a + b + c + d + e ==> x in a || x in b || x in c || x in d || x in e;
    a + b + c + d + e
  }

  /** The column accepts the value: texts for title and dates, a text or NULL
      for the description, a JSON array for destinations. */
  predicate Fits(column: Column, v: Value) {
    match column
    case Title => v.Text?
    case Description => v.Text? || v.Null?
    case StartDate => v.Text?
    case EndDate => v.Text?
    case Destinations => v.Json?
  }

  function ApplyEffect(t: Trip, e: Effect, now: int): Trip {
    match e
    case StampUpdatedAt => t.(updatedAt := now)
    case Write(Title, Text(s)) => t.(title := s)
    case Write(Description, Text(s)) => t.(description := Some(s))
    case Write(Description, Null) => t.(description := None)
    case Write(StartDate, Text(s)) => t.(startDate := s)
    case Write(EndDate, Text(s)) => t.(endDate := s)
    case Write(Destinations, Json(ids)) => t.(destinations := ids)
    case Write(_, _) => t
  }

  /** The SET list applied to one row, left to right. */
  function ApplyEffects(t: Trip, es: seq<Effect>, now: int): Trip
    decreases |es|
  {
    if es == [] then t else ApplyEffects(ApplyEffect(t, es[0], now), es[1..], now)
  }

  lemma {:induction false} ApplyEffectsConcat(t: Trip, a: seq<Effect>, b: seq<Effect>, now: int)
    ensures ApplyEffects(t, a + b, now) == ApplyEffects(ApplyEffects(t, a, now), b, now)
    decreases |a|
  {
    if a == [] {
      assert a + b == b;
    } else {
      assert (a + b)[0] == a[0] && (a + b)[1..] == a[1..] + b;
      ApplyEffectsConcat(ApplyEffect(t, a[0], now), a[1..], b, now);
    }
  }

  /** Writing the fields that were sent and stamping the modification time
      is exactly the partial update. */
  lemma PresentFieldsPatch(t: Trip, p: Patch, now: int)
    ensures ApplyEffects(t, PresentFields(p) + [StampUpdatedAt], now) == Patched(t, p, now)
  {
    var a, b, c, d, e := TitleField(p), DescriptionField(p), StartDateField(p), EndDateField(p), DestinationsField(p);
    var s := [StampUpdatedAt];
    assert PresentFields(p) + s == ((((a + b) + c) + d) + e) + s;
    var t1 := ApplyEffects(t, a, now);
    assert t1 == t.(title := p.title.GetOr(t.title)) by { ApplyChunk(t, a, now); }
    var t2 := ApplyEffects(t1, b, now);
    assert t2 == t1.(description := p.description.GetOr(t.description)) by { ApplyChunk(t1, b, now); }
    var t3 := ApplyEffects(t2, c, now);
    assert t3 == t2.(startDate := p.startDate.GetOr(t.startDate)) by { ApplyChunk(t2, c, now); }
    var t4 := ApplyEffects(t3, d, now);
    assert t4 == t3.(endDate := p.endDate.GetOr(t.endDate)) by { ApplyChunk(t3, d, now); }
    var t5 := ApplyEffects(t4, e, now);
    assert t5 == t4.(destinations := p.destinations.GetOr(t.destinations)) by { ApplyChunk(t4, e, now); }
    ApplyChunk(t5, s, now);
    ApplyEffectsConcat(t, a, b, now);
    ApplyEffectsConcat(t, a + b, c, now);
    ApplyEffectsConcat(t, (a + b) + c, d, now);
    ApplyEffectsConcat(t, ((a + b) + c) + d, e, now);
    ApplyEffectsConcat(t, (((a + b) + c) + d) + e, s, now);
  }

  /** A SET list of at most one clause is that clause. */
  lemma ApplyChunk(t: Trip, es: seq<Effect>, now: int)
    requires |es| <= 1
    ensures ApplyEffects(t, es, now) == if es == [] then t else ApplyEffect(t, es[0], now)
  {
    if es != [] {
      assert es[1..] == [];
    }
  }

  /** A SET clause of the UPDATE statement: `column = $param`, or
      `updated_at = NOW()`. */
  datatype SetClause = SetParam(column: Column, param: nat) | TouchUpdatedAt

  /** `UPDATE trips SET <sets> WHERE id = $whereIdParam AND user_id = $whereUserParam RETURNING *` */
  datatype UpdateStatement = UpdateStatement(sets: seq<SetClause>, whereIdParam: nat, whereUserParam: nat)

  /** What the handler builds: nothing (no field was sent), or a statement with
      the values for its placeholders. */
  datatype UpdateBuild = NothingToUpdate | Prepared(stmt: UpdateStatement, values: seq<Value>)

  /** Every placeholder of the statement, in its SET list and in its WHERE
      clause, has a value. */
  predicate AllBound(stmt: UpdateStatement, values: seq<Value>) {
    && 1 <= stmt.whereIdParam <= |values|
    && 1 <= stmt.whereUserParam <= |values|
    && forall i :: 0 <= i < |stmt.sets| && stmt.sets[i].SetParam? ==> 1 <= stmt.sets[i].param <= |values|
  }

  /** The SET clauses with their placeholders replaced by their values. */
  function BindSets(sets: seq<SetClause>, values: seq<Value>): (r: seq<Effect>)
    ensures |r| == |sets|
    ensures forall i :: 0 <= i < |sets| && sets[i].TouchUpdatedAt? ==> r[i] == StampUpdatedAt
    ensures forall i :: 0 <= i < |sets| && sets[i].SetParam? && 1 <= sets[i].param <= |values| ==>
      r[i] == Write(sets[i].column, values[sets[i].param - 1])
  {
    seq(|sets|, i requires 0 <= i < |sets| =>
      match sets[i]
      case TouchUpdatedAt => StampUpdatedAt
      case SetParam(c, n) => Write(c, if 1 <= n <= |values| then values[n - 1] else Null))
  }

  /** The rows of the table with the SET list applied where the WHERE matches. */
  function UpdateWhere(rows: seq<Trip>, id: int, userId: int, es: seq<Effect>, now: int): (r: seq<Trip>)
    ensures |r| == |rows|
    ensures forall i :: 0 <= i < |rows| ==> r[i] == if Owns(rows[i], id, userId) then ApplyEffects(rows[i], es, now) else rows[i]
  {
    seq(|rows|, i requires 0 <= i < |rows| => if Owns(rows[i], id, userId) then ApplyEffects(rows[i], es, now) else rows[i])
  }

  /** The outcome of running an UPDATE: the new table and the RETURNING rows,
      or a statement the database rejects (the route then replies 500). */
  datatype UpdateResult = Updated(rows: seq<Trip>, returned: seq<Trip>) | Rejected

  /** Running the statement. It is rejected when a placeholder has no value,
      when a WHERE value is not an integer, or when a value does not fit its
      column. The SET list never writes id or user_id, so the rows the WHERE
      matches afterwards are the updated ones. */
  function RunUpdate(rows: seq<Trip>, stmt: UpdateStatement, values: seq<Value>, now: int): UpdateResult {
    if !AllBound(stmt, values) then Rejected
    else
      var idValue := values[stmt.whereIdParam - 1];
      var userValue := values[stmt.whereUserParam - 1];
      var es := BindSets(stmt.sets, values);
      if !idValue.Int? || !userValue.Int? then Rejected
      else if exists e :: e in es && e.Write? && !Fits(e.column, e.value) then Rejected
      else
        var updated := UpdateWhere(rows, idValue.i, userValue.i, es, now);
        Updated(updated, Where(updated, idValue.i, userValue.i))
  }

  /** The first k SET clauses are `column_i = $i` for the fields that were
      sent, in order, and value i - 1 is the value of field i. */
  ghost predicate FieldsPaired(fields: seq<Effect>, updates: seq<SetClause>, values: seq<Value>) {
    && |fields| <= |updates| && |fields| <= |values|
    && forall i :: 0 <= i < |fields| ==>
         fields[i].Write? && updates[i] == SetParam(fields[i].column, i + 1) && values[i] == fields[i].value
  }

  /** The shape of a statement built for `p` with the intended numbering:
      k field clauses, then `updated_at = NOW()`, then id as $k+1 and userId
      as $k+2. */
  ghost predicate PreparedFor(p: Patch, id: int, userId: int, stmt: UpdateStatement, values: seq<Value>) {
    var k := |PresentFields(p)|;
    && FieldsPaired(PresentFields(p), stmt.sets, values)
    && |stmt.sets| == k + 1 && stmt.sets[k] == TouchUpdatedAt
    && |values| == k + 2 && values[k] == Int(id) && values[k + 1] == Int(userId)
    && stmt.whereIdParam == k + 1 && stmt.whereUserParam == k + 2
  }

  /** The field part of the builder: one `column = $n` clause and one value per
      field that was sent, numbered from 1 by `paramCount`. */
  method CollectFields(p: Patch) returns (updates: seq<SetClause>, values: seq<Value>, paramCount: nat)
    ensures FieldsPaired(PresentFields(p), updates, values)
    ensures paramCount == |updates| == |values| == |PresentFields(p)|
  {
    updates, values, paramCount := [], [], 0;
    ghost var done: seq<Effect> := [];
    ghost var updates0, values0 := updates, values;
    if p.title.Some? {
      paramCount := paramCount + 1;
      updates := updates + [SetParam(Title, paramCount)];
      values := values + [Text(p.title.value)];
    }
    PairedStep(done, TitleField(p), updates0, values0, updates, values);
    assert paramCount == |updates| && done + TitleField(p) == TitleField(p);
    done, updates0, values0 := TitleField(p), updates, values;
    if p.description.Some? {
      paramCount := paramCount + 1;
      updates := updates + [SetParam(Description, paramCount)];
      values := values + [DescriptionValue(p.description.value)];
    }
    PairedStep(done, DescriptionField(p), updates0, values0, updates, values);
    assert paramCount == |updates|;
    done, updates0, values0 := done + DescriptionField(p), updates, values;
    if p.startDate.Some? {
      paramCount := paramCount + 1;
      updates := updates + [SetParam(StartDate, paramCount)];
      values := values + [Text(p.startDate.value)];
    }
    PairedStep(done, StartDateField(p), updates0, values0, updates, values);
    assert paramCount == |updates|;
    done, updates0, values0 := done + StartDateField(p), updates, values;
    if p.endDate.Some? {
      paramCount := paramCount + 1;
      updates := updates + [SetParam(EndDate, paramCount)];
      values := values + [Text(p.endDate.value)];
    }
    PairedStep(done, EndDateField(p), updates0, values0, updates, values);
    assert paramCount == |updates|;
    done, updates0, values0 := done + EndDateField(p), updates, values;
    if p.destinations.Some? {
      paramCount := paramCount + 1;
      updates := updates + [SetParam(Destinations, paramCount)];
      values := values + [Json(p.destinations.value)];
    }
    PairedStep(done, DestinationsField(p), updates0, values0, updates, values);
    assert paramCount == |updates|;
    done := done + DestinationsField(p);
    assert done == TitleField(p) + DescriptionField(p) + StartDateField(p) + EndDateField(p) + DestinationsField(p);
  }

  /** One `if (field !== undefined)` step of the builder keeps the clauses and
      values paired with the fields seen so far: it pushes one clause and one
      value when the field was sent, and nothing otherwise. */
  lemma PairedStep(done: seq<Effect>, field: seq<Effect>, updates0: seq<SetClause>, values0: seq<Value>,
                   updates: seq<SetClause>, values: seq<Value>)
    requires FieldsPaired(done, updates0, values0) && |done| == |updates0| == |values0|
    requires field == [] ==> updates == updates0 && values == values0
    requires field != [] ==>
      && |field| == 1 && field[0].Write?
      && updates == updates0 + [SetParam(field[0].column, |updates0| + 1)]
      && values == values0 + [field[0].value]
    ensures FieldsPaired(done + field, updates, values) && |done + field| == |updates| == |values|
  {
  }

  /** The builder with the WHERE placeholders numbered after the pushed
      values: every placeholder has a value, `$k+1` is the trip id and `$k+2`
      the caller. */
  method BuildUpdate(p: Patch, id: int, userId: int) returns (b: UpdateBuild)
    ensures b.NothingToUpdate? <==> PresentFields(p) == []
    ensures b.Prepared? ==> PreparedFor(p, id, userId, b.stmt, b.values)
    ensures b.Prepared? ==> AllBound(b.stmt, b.values)
    ensures b.Prepared? ==> Param(b.values, b.stmt.whereIdParam) == Some(Int(id))
    ensures b.Prepared? ==> Param(b.values, b.stmt.whereUserParam) == Some(Int(userId))
  {
    var updates, values, paramCount := CollectFields(p);
    if |updates| == 0 {
      return NothingToUpdate;
    }
    updates := updates + [TouchUpdatedAt];
    ghost var fieldValues := values;
    paramCount := paramCount + 1;
    values := values + [Int(id)];
    ParamAfterPush(fieldValues, Int(id));
    ghost var withId := values;
    paramCount := paramCount + 1;
    values := values + [Int(userId)];
    ParamAfterPush(withId, Int(userId));
    var stmt := UpdateStatement(updates, paramCount - 1, paramCount);
    b := Prepared(stmt, values);
  }

  /** The builder as trips.js writes it: `paramCount` is also incremented for
      `updated_at = NOW()`, which pushes no value. With k fields there are
      k + 2 values, yet the WHERE clause names `$k+2` (which holds the caller's
      id, not the trip's) and `$k+3` (which holds nothing). */
  method BuildUpdateAsWritten(p: Patch, id: int, userId: int) returns (b: UpdateBuild)
    ensures b.NothingToUpdate? <==> PresentFields(p) == []
    ensures b.Prepared? ==> FieldsPaired(PresentFields(p), b.stmt.sets, b.values)
    ensures b.Prepared? ==> |b.values| == |PresentFields(p)| + 2
    ensures b.Prepared? ==> b.stmt.whereIdParam == |PresentFields(p)| + 2 && b.stmt.whereUserParam == |PresentFields(p)| + 3
    ensures b.Prepared? ==> Param(b.values, b.stmt.whereIdParam) == Some(Int(userId))
    ensures b.Prepared? ==> Param(b.values, b.stmt.whereUserParam) == None && !AllBound(b.stmt, b.values)
  {
    var updates, values, paramCount := CollectFields(p);
    if |updates| == 0 {
      return NothingToUpdate;
    }
    paramCount := paramCount + 1;
    updates := updates + [TouchUpdatedAt];
    ghost var fieldValues := values;
    paramCount := paramCount + 1;
    values := values + [Int(id)];
    ParamAfterPush(fieldValues, Int(id));
    ghost var withId := values;
    paramCount := paramCount + 1;
    values := values + [Int(userId)];
    ParamAfterPush(withId, Int(userId));
    var stmt := UpdateStatement(updates, paramCount - 1, paramCount);
    b := Prepared(stmt, values);
  }

  /** With the builder as written, every PUT that sends a field reaches a
      statement the database rejects, so the route replies 500 and the trip
      is never updated. */
  method AsWrittenUpdateFails(rows: seq<Trip>, id: int, userId: int, p: Patch, now: int) returns (result: UpdateResult)
    requires PresentFields(p) != []
    ensures result == Rejected
  {
    var b := BuildUpdateAsWritten(p, id, userId);
    result := RunUpdate(rows, b.stmt, b.values, now);
  }

  /** A statement built with the intended numbering runs, and it performs the
      partial update of exactly the caller's trip `id`. */
  lemma BuiltUpdateRuns(rows: seq<Trip>, p: Patch, id: int, userId: int, stmt: UpdateStatement, values: seq<Value>, now: int)
    requires PreparedFor(p, id, userId, stmt, values)
    ensures RunUpdate(rows, stmt, values, now)
         == Updated(PatchRows(rows, id, userId, p, now), Where(PatchRows(rows, id, userId, p, now), id, userId))
  {
    PreparedIsBound(p, id, userId, stmt, values);
    var es := BindSets(stmt.sets, values);
    PreparedBinds(p, id, userId, stmt, values);
    forall t ensures ApplyEffects(t, es, now) == Patched(t, p, now) {
      PresentFieldsPatch(t, p, now);
    }
    assert UpdateWhere(rows, id, userId, es, now) == PatchRows(rows, id, userId, p, now);
  }

  lemma PreparedIsBound(p: Patch, id: int, userId: int, stmt: UpdateStatement, values: seq<Value>)
    requires PreparedFor(p, id, userId, stmt, values)
    ensures AllBound(stmt, values)
  {
    var fields := PresentFields(p);
    forall i | 0 <= i < |stmt.sets| && stmt.sets[i].SetParam? ensures 1 <= stmt.sets[i].param <= |values| {
      assert i < |fields|;
    }
  }

  lemma PreparedBinds(p: Patch, id: int, userId: int, stmt: UpdateStatement, values: seq<Value>)
    requires PreparedFor(p, id, userId, stmt, values)
    ensures BindSets(stmt.sets, values) == PresentFields(p) + [StampUpdatedAt]
  {
    BindPaired(PresentFields(p), stmt.sets, values);
  }

  /** Field clauses paired with their values, then `updated_at = NOW()`,
      bind to the fields' writes followed by the time stamp. */
  lemma BindPaired(fields: seq<Effect>, sets: seq<SetClause>, values: seq<Value>)
    requires FieldsPaired(fields, sets, values)
    requires |sets| == |fields| + 1 && sets[|fields|] == TouchUpdatedAt
    ensures BindSets(sets, values) == fields + [StampUpdatedAt]
  {
    var es := BindSets(sets, values);
    forall i | 0 <= i < |fields| ensures es[i] == fields[i] {
      assert sets[i] == SetParam(fields[i].column, i + 1);
      assert values[i] == fields[i].value;
    }
    assert es[|fields|] == StampUpdatedAt;
    assert es == fields + [StampUpdatedAt];
  }

  /** The first row the WHERE matches after the partial update is the patched
      first row it matched before. */
  lemma {:induction false} FirstMatchPatched(rows: seq<Trip>, id: int, userId: int, p: Patch, now: int)
    requires Where(rows, id, userId) != []
    ensures Where(PatchRows(rows, id, userId, p, now), id, userId) != []
    ensures Where(PatchRows(rows, id, userId, p, now), id, userId)[0] == Patched(Where(rows, id, userId)[0], p, now)
  {
    var patched := PatchRows(rows, id, userId, p, now);
    assert rows == [rows[0]] + rows[1..];
    assert patched == [patched[0]] + patched[1..];
    if !Owns(rows[0], id, userId) {
      assert patched[1..] == PatchRows(rows[1..], id, userId, p, now);
      FirstMatchPatched(rows[1..], id, userId, p, now);
    }
  }

  /** What TripStore.Update relies on once the statement is prepared: it
      runs, the first returned row is the patched trip, and the keys stay
      valid. */
  lemma PreparedUpdateStep(rows: seq<Trip>, p: Patch, id: int, userId: int, stmt: UpdateStatement, values: seq<Value>, now: int, nextId: int)
    requires PreparedFor(p, id, userId, stmt, values)
    requires Where(rows, id, userId) != []
    requires UniqueIds(rows) && forall i :: 0 <= i < |rows| ==> rows[i].id < nextId
    ensures var result := RunUpdate(rows, stmt, values, now);
      && result.Updated?
      && result.rows == PatchRows(rows, id, userId, p, now)
      && result.returned != []
      && result.returned[0] == Patched(Where(rows, id, userId)[0], p, now)
      && UniqueIds(result.rows)
      && forall i :: 0 <= i < |result.rows| ==> result.rows[i].id < nextId
  {
    BuiltUpdateRuns(rows, p, id, userId, stmt, values, now);
    FirstMatchPatched(rows, id, userId, p, now);
    PatchKeepsKeys(rows, id, userId, p, now, nextId);
  }

  // ---------------------------------------------------------------------
  // The table and its writing routes

  class TripStore {
    var rows: seq<Trip>
    /** The id the next INSERT receives (a SERIAL column). */
    var nextId: int

    ghost predicate Valid()
      reads this
    {
      && UniqueIds(rows)
      && forall i :: 0 <= i < |rows| ==> rows[i].id < nextId
    }

    constructor ()
      ensures Valid() && rows == [] && nextId == 1
    {
      rows := [];
      nextId := 1;
    }

    /** POST /: validate, then insert one row owned by the caller. */
    method Create(userId: int, req: CreateRequest, now: int) returns (reply: Reply<Trip>)
      requires Valid()
      modifies this
      ensures Valid()
      ensures CreateErrors(req) != [] ==>
        reply == Invalid(CreateErrors(req)) && rows == old(rows) && nextId == old(nextId)
      ensures CreateErrors(req) == [] ==>
        && rows == old(rows) + [NewTrip(old(nextId), userId, req, now)]
        && nextId == old(nextId) + 1
        && reply == Ok(201, NewTrip(old(nextId), userId, req, now))
    {
      var errs := CreateErrors(req);
      if errs != [] {
        return Invalid(errs);
      }
      var t := NewTrip(nextId, userId, req, now);
      rows := rows + [t];
      nextId := nextId + 1;
      reply := Ok(201, t);
    }

    /** PUT /:id: validate, check that the caller owns the trip, build the
        UPDATE (with the intended placeholder numbering) and run it. */
    method Update(id: int, userId: int, p: Patch, now: int) returns (reply: Reply<Trip>)
      requires Valid()
      modifies this
      ensures Valid() && nextId == old(nextId)
      ensures UpdateErrors(p) != [] ==> reply == Invalid(UpdateErrors(p)) && rows == old(rows)
      ensures UpdateErrors(p) == [] && Where(old(rows), id, userId) == [] ==>
        reply == Fail(404, TripNotFound) && rows == old(rows)
      ensures UpdateErrors(p) == [] && Where(old(rows), id, userId) != [] && PresentFields(p) == [] ==>
        reply == Fail(400, NoFieldsToUpdate) && rows == old(rows)
      ensures UpdateErrors(p) == [] && Where(old(rows), id, userId) != [] && PresentFields(p) != [] ==>
        && rows == PatchRows(old(rows), id, userId, p, now)
        && reply == Ok(200, Patched(Where(old(rows), id, userId)[0], p, now))
    {
      var errs := UpdateErrors(p);
      if errs != [] {
        return Invalid(errs);
      }
      if Where(rows, id, userId) == [] {
        return Fail(404, TripNotFound);
      }
      var b := BuildUpdate(p, id, userId);
      if b.NothingToUpdate? {
        return Fail(400, NoFieldsToUpdate);
      }
      PreparedUpdateStep(rows, p, id, userId, b.stmt, b.values, now, nextId);
      var result := RunUpdate(rows, b.stmt, b.values, now);
      rows := result.rows;
      reply := Ok(200, result.returned[0]);
    }

    /** DELETE /:id: remove the caller's trip; 404 when there was none. */
    method Delete(id: int, userId: int) returns (reply: Reply<string>)
      requires Valid()
      modifies this
      ensures Valid() && nextId == old(nextId)
      ensures rows == Without(old(rows), id, userId)
      ensures reply == if Where(old(rows), id, userId) == [] then Fail(404, TripNotFound) else Ok(200, TripDeleted)
    {
      var deleted := Where(rows, id, userId);
      ghost var before := rows;
      rows := Without(rows, id, userId);
      forall i, j | 0 <= i < j < |rows| ensures rows[i].id != rows[j].id {
        SubsequenceIndices(rows, before, i, j);
      }
      forall i | 0 <= i < |rows| ensures rows[i].id < nextId {
        assert rows[i] in before;
      }
      reply := if deleted == [] then Fail(404, TripNotFound) else Ok(200, TripDeleted);
    }
  }

  /** Two positions of a subsequence come from two distinct positions of the
      sequence, in the same order. */
  lemma {:induction false} SubsequenceIndices(a: seq<Trip>, b: seq<Trip>, i: nat, j: nat)
    requires SubsequenceOf(a, b) && i < j < |a|
    ensures exists i', j' :: 0 <= i' < j' < |b| && b[i'] == a[i] && b[j'] == a[j]
    decreases |b|
  {
    if a[0] == b[0] && SubsequenceOf(a[1..], b[1..]) {
      if i == 0 {
        var j1 := SubsequenceIndex(a[1..], b[1..], j - 1);
        assert b[j1 + 1] == a[j];
      } else {
        SubsequenceIndices(a[1..], b[1..], i - 1, j - 1);
        var i', j' :| 0 <= i' < j' < |b[1..]| && b[1..][i'] == a[1..][i - 1] && b[1..][j'] == a[1..][j - 1];
        assert b[i' + 1] == a[i] && b[j' + 1] == a[j];
      }
    } else {
      SubsequenceIndices(a, b[1..], i, j);
      var i', j' :| 0 <= i' < j' < |b[1..]| && b[1..][i'] == a[i] && b[1..][j'] == a[j];
      assert b[i' + 1] == a[i] && b[j' + 1] == a[j];
    }
  }

  lemma {:induction false} SubsequenceIndex(a: seq<Trip>, b: seq<Trip>, i: nat) returns (k: nat)
    requires SubsequenceOf(a, b) && i < |a|
    ensures k < |b| && b[k] == a[i]
    decreases |b|
  {
    if a[0] == b[0] && SubsequenceOf(a[1..], b[1..]) {
      if i == 0 {
        k := 0;
      } else {
        k := SubsequenceIndex(a[1..], b[1..], i - 1);
        k := k + 1;
      }
    } else {
      k := SubsequenceIndex(a, b[1..], i);
      k := k + 1;
    }
  }
}
