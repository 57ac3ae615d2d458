/** The persisted watch list behind `/api/transactions` (api/transactions.ts):
    the `WatchedTransactions` table, keyed by `(txid, user_email)`, and the
    route that lists, upserts and deletes one user's rows. The table is a
    sequence of rows in insertion order; `clock` stands in for `NOW()`, so
    every inserted row's `added_at` is later than all earlier ones. */
module TransactionsApi {
  import opened Types
  import opened Auth
  import Blockchain

  /** Column widths and the range of an SQL `INTEGER`: a value outside them
      makes the insert fail. */
  const TXID_WIDTH := 64
  const STATUS_WIDTH := 20
  const INT_MIN := -0x8000_0000
  const INT_MAX := 0x7FFF_FFFF

  const ALLOWED := ["GET", "POST", "DELETE"]

  datatype Row = Row(txid: string, user: string, status: string, confirmations: int,
                     blockHeight: Option<int>, addedAt: nat)

  predicate HasKey(r: Row, txid: string, user: string)
  {
    r.txid == txid && r.user == user
  }

  /** `PRIMARY KEY (txid, user_email)`. */
  predicate UniqueKeys(rows: seq<Row>)
  {
    forall i, j :: 0 <= i < j < |rows| ==> !HasKey(rows[j], rows[i].txid, rows[i].user)
  }

  /** Rows are kept in insertion order, so `added_at` increases along them. */
  predicate Chronological(rows: seq<Row>)
  {
    forall i, j :: 0 <= i < j < |rows| ==> rows[i].addedAt < rows[j].addedAt
  }

  /** Every row was stamped before `clock`. */
  predicate StampedBefore(rows: seq<Row>, clock: nat)
  {
    forall r | r in rows :: r.addedAt < clock
  }

  predicate WellFormed(rows: seq<Row>, clock: nat)
  {
    UniqueKeys(rows) && Chronological(rows) && StampedBefore(rows, clock)
  }

  /** The position of the row with key `(txid, user)`, if there is one. */
  function KeyIndex(rows: seq<Row>, txid: string, user: string): (i: Option<nat>)
    ensures i.Some? ==> i.value < |rows| && HasKey(rows[i.value], txid, user)
    ensures i.Some? ==> forall j :: 0 <= j < i.value ==> !HasKey(rows[j], txid, user)
    ensures i.None? ==> forall j :: 0 <= j < |rows| ==> !HasKey(rows[j], txid, user)
  {
    if rows == [] then None
    else if HasKey(rows[0], txid, user) then Some(0)
    else
      match KeyIndex(rows[1..], txid, user)
      case None => None
      case Some(j) => Some(j + 1)
  }

  /** The row with key `(txid, user)`, if there is one. */
  function Find(rows: seq<Row>, txid: string, user: string): Option<Row>
  {
    match KeyIndex(rows, txid, user)
    case None => None
    case Some(i) => Some(rows[i])
  }

  /** `INSERT … ON CONFLICT (txid, user_email) DO UPDATE`: a row with the key
      keeps its place and its `added_at` and takes the new status, count and
      height; otherwise a row stamped `clock` is appended. */
  function Upserted(rows: seq<Row>, clock: nat, txid: string, user: string, status: string,
                    confirmations: int, blockHeight: Option<int>): seq<Row>
  {
    match KeyIndex(rows, txid, user)
    case Some(i) =>
      rows[i := rows[i].(status := status, confirmations := confirmations, blockHeight := blockHeight)]
    case None => rows + [Row(txid, user, status, confirmations, blockHeight, clock)]
  }

  /** `DELETE … WHERE txid = … AND user_email = …`: every other row stays, in order. */
  function Deleted(rows: seq<Row>, txid: string, user: string): (r: seq<Row>)
    ensures forall x :: x in r <==> x in rows && !HasKey(x, txid, user)
  {
    if rows == [] then []
    else
      var rest := Deleted(rows[..|rows| - 1], txid, user);
      var last := rows[|rows| - 1];
      if HasKey(last, txid, user) then rest else rest + [last]
  }

  /** `WHERE user_email = … ORDER BY added_at DESC`: one user's rows, latest
      insertion first. */
  function Owned(rows: seq<Row>, user: string): (o: seq<Row>)
    ensures forall x :: x in o <==> x in rows && x.user == user
  {
    if rows == [] then []
    else
      var last := rows[|rows| - 1];
      (if last.user == user then [last] else []) + Owned(rows[..|rows| - 1], user)
  }

  function View(r: Row): RowView
  {
    RowView(r.txid, r.status, r.confirmations, r.blockHeight)
  }

  /** The body of a successful `GET`: the selected columns of the user's rows. */
  function Listing(rows: seq<Row>, user: string): (vs: seq<RowView>)
    ensures |vs| == |Owned(rows, user)|
    ensures forall i :: 0 <= i < |vs| ==> vs[i] == View(Owned(rows, user)[i])
  {
    var o := Owned(rows, user);
    seq(|o|, i requires 0 <= i < |o| => View(o[i]))
  }

  lemma KeyIndexIs(rows: seq<Row>, txid: string, user: string, i: nat)
    requires i < |rows| && HasKey(rows[i], txid, user)
    requires forall j :: 0 <= j < i ==> !HasKey(rows[j], txid, user)
    ensures KeyIndex(rows, txid, user) == Some(i)
  {
  }

  /** After an upsert the key holds exactly the posted fields, with the
      `added_at` of the row it replaced, or `clock` when it is new. */
  lemma UpsertStores(rows: seq<Row>, clock: nat, txid: string, user: string, status: string,
                     confirmations: int, blockHeight: Option<int>)
    ensures var r := Upserted(rows, clock, txid, user, status, confirmations, blockHeight);
            var stamp := if Find(rows, txid, user).Some? then Find(rows, txid, user).value.addedAt else clock;
            Find(r, txid, user) == Some(Row(txid, user, status, confirmations, blockHeight, stamp))
    ensures |Upserted(rows, clock, txid, user, status, confirmations, blockHeight)|
            == |rows| + (if Find(rows, txid, user).None? then 1 else 0)
  {
    var r := Upserted(rows, clock, txid, user, status, confirmations, blockHeight);
    match KeyIndex(rows, txid, user)
    case Some(i) =>
      KeyIndexIs(r, txid, user, i);
    case None =>
      KeyIndexIs(r, txid, user, |rows|);
  }

  /** An upsert leaves every row under another key as it was. */
  lemma UpsertKeepsOthers(rows: seq<Row>, clock: nat, txid: string, user: string, status: string,
                          confirmations: int, blockHeight: Option<int>)
    ensures var r := Upserted(rows, clock, txid, user, status, confirmations, blockHeight);
            forall x | !HasKey(x, txid, user) :: x in r <==> x in rows
  {
    var r := Upserted(rows, clock, txid, user, status, confirmations, blockHeight);
    match KeyIndex(rows, txid, user)
    case Some(i) =>
      forall x | !HasKey(x, txid, user)
        ensures x in r <==> x in rows
      {
        if x in r {
          var k :| 0 <= k < |r| && r[k] == x;
          assert rows[k] == x;
        }
        if x in rows {
          var k :| 0 <= k < |rows| && rows[k] == x;
          assert r[k] == x;
        }
      }
    case None =>
  }

  /** An upsert keeps the table well formed, one tick of the clock later. */
  lemma UpsertWellFormed(rows: seq<Row>, clock: nat, txid: string, user: string, status: string,
                         confirmations: int, blockHeight: Option<int>)
    ensures WellFormed(rows, clock) ==>
              WellFormed(Upserted(rows, clock, txid, user, status, confirmations, blockHeight), clock + 1)
  {
    if WellFormed(rows, clock) {
      var r := Upserted(rows, clock, txid, user, status, confirmations, blockHeight);
      match KeyIndex(rows, txid, user)
      case Some(i) =>
        SameKeysAndStamps(rows, r);
      case None =>
        var x := Row(txid, user, status, confirmations, blockHeight, clock);
        assert r == rows + [x];
        AppendWellFormed(rows, clock, x);
    }
  }

  /** Rewriting non-key columns in place keeps the table well formed. */
  lemma SameKeysAndStamps(rows: seq<Row>, r: seq<Row>)
    requires |r| == |rows|
    requires forall k :: 0 <= k < |r| ==>
      r[k].txid == rows[k].txid && r[k].user == rows[k].user && r[k].addedAt == rows[k].addedAt
    ensures UniqueKeys(rows) ==> UniqueKeys(r)
    ensures Chronological(rows) ==> Chronological(r)
    ensures forall c: nat :: StampedBefore(rows, c) ==> StampedBefore(r, c + 1)
  {
    forall c: nat | StampedBefore(rows, c)
      ensures StampedBefore(r, c + 1)
    {
      forall y | y in r
        ensures y.addedAt < c + 1
      {
        var k :| 0 <= k < |r| && r[k] == y;
        assert rows[k] in rows;
      }
    }
  }

  /** Appending a new key stamped `clock` keeps the table well formed. */
  lemma AppendWellFormed(rows: seq<Row>, clock: nat, x: Row)
    requires WellFormed(rows, clock)
    requires forall j :: 0 <= j < |rows| ==> !HasKey(rows[j], x.txid, x.user)
    requires x.addedAt == clock
    ensures WellFormed(rows + [x], clock + 1)
  {
    var r := rows + [x];
    forall i, j | 0 <= i < j < |r|
      ensures r[i].addedAt < r[j].addedAt && !HasKey(r[j], r[i].txid, r[i].user)
    {
      assert r[i] == rows[i] && rows[i] in rows;
      if j < |rows| {
        assert r[j] == rows[j];
      }
    }
  }

  /** A delete keeps the table well formed. */
  lemma {:induction false} DeleteWellFormed(rows: seq<Row>, clock: nat, txid: string, user: string)
    ensures WellFormed(rows, clock) ==> WellFormed(Deleted(rows, txid, user), clock)
  {
    if rows != [] && WellFormed(rows, clock) {
      var init := rows[..|rows| - 1];
      var last := rows[|rows| - 1];
      assert WellFormed(init, clock) by {
        assert forall k :: 0 <= k < |init| ==> init[k] == rows[k];
      }
      DeleteWellFormed(init, clock, txid, user);
      if !HasKey(last, txid, user) {
        AppendOlderWellFormed(init, Deleted(init, txid, user), last, clock);
      }
    }
  }

  /** Appending the last row of a well-formed table to a table made of some
      of its earlier rows keeps it well formed. */
  lemma AppendOlderWellFormed(init: seq<Row>, rest: seq<Row>, last: Row, clock: nat)
    requires WellFormed(init + [last], clock) && WellFormed(rest, clock)
    requires forall x | x in rest :: x in init
    ensures WellFormed(rest + [last], clock)
  {
    var rows := init + [last];
    var r := rest + [last];
    forall i, j | 0 <= i < j < |r|
      ensures r[i].addedAt < r[j].addedAt && !HasKey(r[j], r[i].txid, r[i].user)
    {
      assert r[i] == rest[i] && rest[i] in rest;
      var k :| 0 <= k < |init| && init[k] == rest[i];
      assert rows[k] == rest[i];
      if j < |rest| {
        assert r[j] == rest[j];
      } else {
        assert rows[|init|] == last;
      }
    }
    assert last in rows;
  }

  /** Strictly decreasing `added_at`. */
  predicate NewestToOldest(o: seq<Row>)
  {
    forall i, j :: 0 <= i < j < |o| ==> o[i].addedAt > o[j].addedAt
  }

  lemma PrependNewer(x: Row, o: seq<Row>)
    requires NewestToOldest(o)
    requires forall y | y in o :: y.addedAt < x.addedAt
    ensures NewestToOldest([x] + o)
  {
    var r := [x] + o;
    forall i, j | 0 <= i < j < |r|
      ensures r[i].addedAt > r[j].addedAt
    {
      assert r[j] == o[j - 1] && o[j - 1] in o;
      if i > 0 {
        assert r[i] == o[i - 1];
      }
    }
  }

  /** The listing comes newest first. */
  lemma {:induction false} NewestFirst(rows: seq<Row>, user: string)
    requires Chronological(rows)
    ensures NewestToOldest(Owned(rows, user))
  {
    if rows != [] {
      var init := rows[..|rows| - 1];
      var last := rows[|rows| - 1];
      assert Chronological(init);
      NewestFirst(init, user);
      var rest := Owned(init, user);
      if last.user == user {
        forall y | y in rest
          ensures y.addedAt < last.addedAt
        {
          var k :| 0 <= k < |init| && init[k] == y;
          assert rows[k] == y;
        }
        PrependNewer(last, rest);
      } else {
        assert Owned(rows, user) == rest;
      }
    }
  }

  /** Replacing a row of another user leaves this user's listing alone. */
  lemma {:induction false} OwnedUpdateOther(rows: seq<Row>, i: nat, x: Row, user: string)
    requires i < |rows| && rows[i].user != user && x.user != user
    ensures Owned(rows[i := x], user) == Owned(rows, user)
  {
    var n := |rows|;
    var r := rows[i := x];
    if i == n - 1 {
      assert r[..n - 1] == rows[..n - 1];
    } else {
      assert r[..n - 1] == rows[..n - 1][i := x];
      OwnedUpdateOther(rows[..n - 1], i, x, user);
    }
  }

  /** Posting under one user changes no other user's listing. */
  lemma UpsertIsolated(rows: seq<Row>, clock: nat, txid: string, user: string, status: string,
                       confirmations: int, blockHeight: Option<int>, other: string)
    requires other != user
    ensures Owned(Upserted(rows, clock, txid, user, status, confirmations, blockHeight), other)
            == Owned(rows, other)
  {
    var r := Upserted(rows, clock, txid, user, status, confirmations, blockHeight);
    match KeyIndex(rows, txid, user)
    case Some(i) =>
      OwnedUpdateOther(rows, i, r[i], other);
    case None =>
      assert r[..|rows|] == rows;
  }

  /** Deleting under one user changes no other user's listing, even for the
      same txid. */
  lemma {:induction false} DeleteIsolated(rows: seq<Row>, txid: string, user: string, other: string)
    requires other != user
    ensures Owned(Deleted(rows, txid, user), other) == Owned(rows, other)
  {
    if rows != [] {
      var init := rows[..|rows| - 1];
      var last := rows[|rows| - 1];
      var rest := Deleted(init, txid, user);
      DeleteIsolated(init, txid, user, other);
      if !HasKey(last, txid, user) {
        assert (rest + [last])[..|rest|] == rest;
      }
    }
  }

  predicate DistinctTxids(o: seq<Row>)
  {
    forall i, j :: 0 <= i < j < |o| ==> o[i].txid != o[j].txid
  }

  /** A user's rows never repeat a txid. */
  lemma {:induction false} OwnedDistinct(rows: seq<Row>, user: string)
    requires UniqueKeys(rows)
    ensures DistinctTxids(Owned(rows, user))
  {
    if rows != [] {
      var init, last := rows[..|rows| - 1], rows[|rows| - 1];
      assert forall k :: 0 <= k < |init| ==> init[k] == rows[k];
      OwnedDistinct(init, user);
      var rest := Owned(init, user);
      if last.user == user {
        var o := [last] + rest;
        forall i, j | 0 <= i < j < |o|
          ensures o[i].txid != o[j].txid
        {
          if i == 0 {
            var x := rest[j - 1];
            assert o[j] == x && x in rest;
            var k :| 0 <= k < |init| && init[k] == x;
            assert !HasKey(rows[|rows| - 1], rows[k].txid, rows[k].user);
          } else {
            assert o[i] == rest[i - 1] && o[j] == rest[j - 1];
          }
        }
        assert Owned(rows, user) == o;
      } else {
        assert Owned(rows, user) == rest;
      }
    }
  }

  /** What the hook makes of a successful `GET`: the listed ids in the
      listing's order, newest first, each holding its row's values. */
  lemma ListThenLoad(rows: seq<Row>, clock: nat, user: string)
    requires WellFormed(rows, clock)
    ensures var views := Listing(rows, user);
            var loaded := Blockchain.Loaded(views);
            && loaded.1 == Blockchain.Ids(views)
            && forall i | 0 <= i < |views| :: loaded.0[views[i].id] == Blockchain.EntryOf(views[i])
  {
    var views := Listing(rows, user);
    OwnedDistinct(rows, user);
    assert Blockchain.DistinctIds(views) by {
      forall i, j | 0 <= i < j < |views|
        ensures views[i].id != views[j].id
      {
        assert views[i].id == Owned(rows, user)[i].txid && views[j].id == Owned(rows, user)[j].txid;
      }
    }
    Blockchain.LoadedOrder(views);
    forall i | 0 <= i < |views|
      ensures views[i].id in Blockchain.Loaded(views).0
      ensures Blockchain.Loaded(views).0[views[i].id] == Blockchain.EntryOf(views[i])
    {
      Blockchain.LoadedLast(views, i);
    }
  }

  /** A field of a JSON body: missing, `null`, or a value. */
  datatype JsonField<T> = Absent | Null | Value(value: T)

  /** The body of a `POST`: none at all, which makes the destructuring of
      `req.body` throw, or a JSON object. */
  datatype PostBody =
    | NoBody
    | Json(id: JsonField<string>, status: JsonField<string>,
           confirmations: JsonField<int>, blockHeight: JsonField<int>)

  /** The `txid` query parameter: absent, given once, or given several times
      (which makes it an array). */
  datatype Query = Missing | Single(value: string) | Repeated(values: seq<string>)

  /** Which store statement, if any, throws: the `CREATE TABLE` every request
      runs first, or the request's own statement. */
  datatype Fault = NoFault | CreateFails | StatementFails

  /** `!id || typeof status === 'undefined' || typeof confirmations === 'undefined'` fails. */
  predicate ValidPost(b: PostBody)
  {
    b.Json? && b.id.Value? && b.id.value != "" && !b.status.Absent? && !b.confirmations.Absent?
  }

  /** The posted values fit their columns: `status` and `confirmations` are
      `NOT NULL`, and every value fits its column's type. */
  predicate Storable(b: PostBody)
    requires ValidPost(b)
  {
    b.status.Value? && b.confirmations.Value?
    && |b.id.value| <= TXID_WIDTH && |b.status.value| <= STATUS_WIDTH
    && INT_MIN <= b.confirmations.value <= INT_MAX
    && (b.blockHeight.Value? ==> INT_MIN <= b.blockHeight.value <= INT_MAX)
  }

  /** The `block_height` column of a posted body: `NULL` unless a value was given. */
  function HeightColumn(b: PostBody): (h: Option<int>)
    requires b.Json?
    ensures h.Some? <==> b.blockHeight.Value?
    ensures h.Some? ==> h.value == b.blockHeight.value
  {
    if b.blockHeight.Value? then Some(b.blockHeight.value) else None
  }

  /** `!txid || typeof txid !== 'string'` fails. */
  predicate ValidQuery(q: Query)
  {
    q.Single? && q.value != ""
  }

  /** A handled request: the response and the table afterwards. */
  datatype Outcome = Outcome(response: Response, rows: seq<Row>, clock: nat)

  /** The route for an authenticated `user`. */
  function Handled(rows: seq<Row>, clock: nat, user: string, m: Method, body: PostBody,
                   query: Query, fault: Fault): (o: Outcome)
    // only a successful POST or DELETE writes
    ensures o.response.code != 201 && !(m == Delete && o.response.code == 200) ==>
              o.rows == rows && o.clock == clock
    ensures fault.CreateFails? ==> o.response == Response(500, Message)
    ensures !fault.CreateFails? && m == Get ==>
              o.response == if fault.NoFault? then Response(200, Rows(Listing(rows, user)))
                            else Response(500, Message)
    ensures m == Post && body.NoBody? ==> o.response == Response(500, Message)
    ensures !fault.CreateFails? && m == Post ==>
              (o.response.code == 400 <==> body.Json? && !ValidPost(body))
              && (o.response.code == 201 <==> ValidPost(body) && fault.NoFault? && Storable(body))
    ensures !fault.CreateFails? && m == Post && ValidPost(body) && (fault.StatementFails? || !Storable(body)) ==>
              o.response == Response(500, Message)
    ensures !fault.CreateFails? && m == Delete && ValidQuery(query) && fault.StatementFails? ==>
              o.response == Response(500, Message)
    ensures o.response.code == 201 ==>
              ValidPost(body) && Storable(body) && o.rows == Upserted(rows, clock, body.id.value, user, body.status.value,
                                 body.confirmations.value, HeightColumn(body))
    ensures !fault.CreateFails? && m == Delete ==>
              (o.response.code == 400 <==> !ValidQuery(query))
              && (o.response.code == 200 <==> ValidQuery(query) && fault.NoFault?)
              && (o.response.code == 200 ==> o.rows == Deleted(rows, query.value, user))
    ensures !fault.CreateFails? && m.OtherMethod? ==> o.response == Response(405, NotAllowed(ALLOWED))
    ensures WellFormed(rows, clock) ==> WellFormed(o.rows, o.clock)
  {
    var failed := Outcome(Response(500, Message), rows, clock);
    if fault.CreateFails? then failed
    else
      match m
      case Get =>
        if fault.StatementFails? then failed
        else Outcome(Response(200, Rows(Listing(rows, user))), rows, clock)
      case Post =>
        if body.NoBody? then failed
        else if !ValidPost(body) then Outcome(Response(400, Message), rows, clock)
        else if fault.StatementFails? || !Storable(body) then failed
        else
          var r := Upserted(rows, clock, body.id.value, user, body.status.value,
                            body.confirmations.value, HeightColumn(body));
          UpsertWellFormed(rows, clock, body.id.value, user, body.status.value,
                           body.confirmations.value, HeightColumn(body));
          Outcome(Response(201, Message), r, clock + 1)
      case Delete =>
        if !ValidQuery(query) then Outcome(Response(400, Message), rows, clock)
        else if fault.StatementFails? then failed
        else
          DeleteWellFormed(rows, clock, query.value, user);
          Outcome(Response(200, Message), Deleted(rows, query.value, user), clock)
      case OtherMethod(_) => Outcome(Response(405, NotAllowed(ALLOWED)), rows, clock)
  }

  /** The `WatchedTransactions` table. */
  class Table {
    var rows: seq<Row>
    var clock: nat

    ghost predicate Valid()
      reads this
    {
      WellFormed(rows, clock)
    }

    constructor ()
      ensures Valid() && rows == [] && clock == 0
    {
      rows := [];
      clock := 0;
    }

    /** The upsert statement. */
    method Upsert(txid: string, user: string, status: string, confirmations: int, blockHeight: Option<int>)
      requires Valid()
      modifies this
      ensures Valid()
      ensures rows == Upserted(old(rows), old(clock), txid, user, status, confirmations, blockHeight)
      ensures clock == old(clock) + 1
    {
      UpsertWellFormed(rows, clock, txid, user, status, confirmations, blockHeight);
      match KeyIndex(rows, txid, user) {
        case Some(i) =>
          rows := rows[i := rows[i].(status := status, confirmations := confirmations, blockHeight := blockHeight)];
        case None =>
          rows := rows + [Row(txid, user, status, confirmations, blockHeight, clock)];
      }
      clock := clock + 1;
    }

    /** The delete statement. */
    method Delete(txid: string, user: string)
      requires Valid()
      modifies this
      ensures Valid()
      ensures rows == Deleted(old(rows), txid, user) && clock == old(clock)
    {
      DeleteWellFormed(rows, clock, txid, user);
      rows := Deleted(rows, txid, user);
    }

    /** `handler` for an authenticated `user`. */
    method Handle(user: string, m: Method, body: PostBody, query: Query, fault: Fault) returns (r: Response)
      requires Valid()
      modifies this
      ensures Valid()
      ensures Outcome(r, rows, clock) == Handled(old(rows), old(clock), user, m, body, query, fault)
    {
      if fault.CreateFails? {
        return Response(500, Message);
      }
      match m
      case Get =>
        if fault.StatementFails? {
          return Response(500, Message);
        }
        r := Response(200, Rows(Listing(rows, user)));
      case Post =>
        if body.NoBody? {
          return Response(500, Message);
        }
        if !ValidPost(body) {
          return Response(400, Message);
        }
        if fault.StatementFails? || !Storable(body) {
          return Response(500, Message);
        }
        Upsert(body.id.value, user, body.status.value, body.confirmations.value, HeightColumn(body));
        r := Response(201, Message);
      case Delete =>
        if !ValidQuery(query) {
          return Response(400, Message);
        }
        if fault.StatementFails? {
          return Response(500, Message);
        }
        Delete(query.value, user);
        r := Response(200, Message);
      case OtherMethod(_) =>
        r := Response(405, NotAllowed(ALLOWED));
    }
  }

  /** The exported route, `withAuth(handler)`: 401 without a session and the
      table untouched; otherwise the handler runs once for the session's email. */
  method Serve(table: Table, req: Request, decrypt: string -> Option<Session>,
               m: Method, body: PostBody, query: Query, fault: Fault) returns (r: Response)
    requires table.Valid()
    modifies table, req
    ensures table.Valid()
    ensures GetSession(req.cookie, decrypt).None? ==>
      r == Response(401, Message) && req.user == old(req.user)
      && table.rows == old(table.rows) && table.clock == old(table.clock)
    ensures GetSession(req.cookie, decrypt).Some? ==>
      req.user == GetSession(req.cookie, decrypt)
      && Outcome(r, table.rows, table.clock)
         == Handled(old(table.rows), old(table.clock), req.user.value.email, m, body, query, fault)
  {
    var denied := Authenticate(req, decrypt);
    if denied.Some? {
      return denied.value;
    }
    r := table.Handle(req.user.value.email, m, body, query, fault);
  }
}
