/** One row per device, kept by the edge route (api/score.ts, api/_lib/) and by backend/src/leaderboard.ts. */
module Leaderboard {
  import opened DayText
  import opened FlightPhysics
  import opened Numbers
  import opened Text

  /** A submission as text and numbers, as `Number(v)` makes of a field; a missing field is the empty text, or None. */
  datatype Body = Body(
    deviceId: Str, name: Str, skin: Str,
    distance: Num, altitude: Num, perfects: Num, coins: Num, score: Num, date: Str)

  datatype Row = Row(
    deviceId: Str, name: Str, skin: Str,
    distance: nat, altitude: nat, perfects: nat, coins: nat, score: nat, date: Str)

  datatype Reply = Accepted | MissingDevice | ImplausibleDistance | ImplausibleScore

  /* ------------------------------------------------------------------- cleaning */

  predicate Unsafe(u: Unit) {
    u in {'<' as int, '>' as int, '&' as int, '"' as int, '\'' as int}
  }

  /** `sanitize` and `clean`: the same text in both backends. */
  function Sanitize(s: Str, max: nat): (r: Str) {
    Take(Filter(s, (u: Unit) => !Unsafe(u)), max)
  }

  const PILOT: Str := ['P' as int, 'i' as int, 'l' as int, 'o' as int, 't' as int]
  const SUNBIRD: Str := ['s' as int, 'u' as int, 'n' as int, 'b' as int, 'i' as int, 'r' as int, 'd' as int]

  function OrElse(s: Str, otherwise: Str): (r: Str) { if s == [] then otherwise else s }

  /** `boundedNum`, before rounding. */
  function BoundedNum(v: Num, cap: real): (r: real)
    requires cap >= 0.0
    ensures 0.0 <= r <= cap
  {
    if v.None? then 0.0 else Max(0.0, Min(v.value, cap))
  }

  /** The edge route bounds, then rounds. */
  function EdgeNum(v: Num, cap: nat): (n: nat) {
    var b := BoundedNum(v, cap as real);
    Round(b)
  }

  /** `clampNum`: the durable object rounds, then bounds. */
  function ClampNum(v: Num, max: nat): (n: nat) {
    if v.None? || v.value < 0.0 then 0 else if Round(v.value) < max then Round(v.value) else max
  }

  /** Bounding then rounding is rounding then bounding: every number comes out the same. */
  lemma NumbersAgree(v: Num, cap: nat)
    ensures EdgeNum(v, cap) == ClampNum(v, cap) <= cap
  {
    if v.Some? && v.value >= 0.0 {
      if v.value < cap as real {
        RoundKeepsOrder(v.value, cap as real);
      } else {
        RoundKeepsOrder(cap as real, v.value);
      }
      assert Round(cap as real) == cap;
    }
  }

  /* --------------------------------------------------------------------- gates */

  predicate Plausible(distance: nat, score: nat) {
    distance <= 60000 && score <= distance * 40 + 50000
  }

  function Gate(distance: nat, score: nat): (r: Reply)
    ensures r == Accepted <==> Plausible(distance, score)
  {
    if distance > 60000 then ImplausibleDistance
    else if score > distance * 40 + 50000 then ImplausibleScore
    else Accepted
  }

  /* ---------------------------------------------------------------------- store */

  /** Rows by device, in the order the devices first appeared. */
  type Store = seq<Row>

  function Lookup(s: Store, device: Str): (r: Option<Row>) {
    if s == [] then None else if s[0].deviceId == device then Some(s[0]) else Lookup(s[1..], device)
  }

  /** `put`: a known device keeps its place. */
  function Put(s: Store, row: Row): (r: Store) {
    if s == [] then [row]
    else if s[0].deviceId == row.deviceId then [row] + s[1..]
    else [s[0]] + Put(s[1..], row)
  }

  predicate OneRowEach(s: Store) {
    forall i, j :: 0 <= i < j < |s| ==> s[i].deviceId != s[j].deviceId
  }

  lemma {:induction false} LookupOfPut(s: Store, row: Row, device: Str)
    ensures Lookup(Put(s, row), device) == if device == row.deviceId then Some(row) else Lookup(s, device)
  {
    if s != [] && s[0].deviceId != row.deviceId {
      LookupOfPut(s[1..], row, device);
    }
  }

  lemma {:induction false} LookupFinds(s: Store, device: Str)
    ensures Lookup(s, device).Some? ==> Lookup(s, device).value in s && Lookup(s, device).value.deviceId == device
    ensures Lookup(s, device).None? <==> forall i :: 0 <= i < |s| ==> s[i].deviceId != device
  {
    if s != [] && s[0].deviceId != device {
      LookupFinds(s[1..], device);
    }
  }

  /** The devices in the order of their rows. */
  function Devices(s: Store): (ds: seq<Str>) {
    if s == [] then [] else [s[0].deviceId] + Devices(s[1..])
  }

  /** Where a search for the device stops is where its row goes. */
  lemma {:induction false} PutAt(s: Store, row: Row, i: nat)
    requires i <= |s| && forall j :: 0 <= j < i ==> s[j].deviceId != row.deviceId
    requires i < |s| ==> s[i].deviceId == row.deviceId
    ensures Put(s, row) == if i < |s| then s[i := row] else s + [row]
    decreases i
  {
    if i == 0 {
      if s != [] {
        assert s[0 := row] == [row] + s[1..];
      }
    } else {
      PutAt(s[1..], row, i - 1);
      assert s == [s[0]] + s[1..];
    }
  }

  /** A known device keeps its place, a new one goes last. */
  lemma {:induction false} DevicesOfPut(s: Store, row: Row)
    ensures Devices(Put(s, row)) == Devices(s) + if Lookup(s, row.deviceId).Some? then [] else [row.deviceId]
  {
    if s != [] {
      if s[0].deviceId == row.deviceId {
        assert ([row] + s[1..])[1..] == s[1..];
      } else {
        DevicesOfPut(s[1..], row);
        assert ([s[0]] + Put(s[1..], row))[1..] == Put(s[1..], row);
      }
    }
  }

  lemma {:induction false} PutIsSeen(s: Store, row: Row)
    ensures forall d :: Lookup(Put(s, row), d) == if d == row.deviceId then Some(row) else Lookup(s, d)
    ensures Devices(Put(s, row)) == Devices(s) + if Lookup(s, row.deviceId).Some? then [] else [row.deviceId]
    ensures OneRowEach(s) ==> OneRowEach(Put(s, row))
  {
    forall d ensures Lookup(Put(s, row), d) == if d == row.deviceId then Some(row) else Lookup(s, d) {
      LookupOfPut(s, row, d);
    }
    DevicesOfPut(s, row);
    if OneRowEach(s) {
      PutKeepsOneRow(s, row);
    }
  }

  lemma {:induction false} PutMembers(s: Store, row: Row)
    ensures forall r :: r in Put(s, row) ==> r == row || r in s
  {
    if s != [] {
      PutMembers(s[1..], row);
    }
  }

  lemma {:induction false} PutKeepsOneRow(s: Store, row: Row)
    requires OneRowEach(s)
    ensures OneRowEach(Put(s, row))
  {
    if s != [] {
      var rest := s[1..];
      if s[0].deviceId == row.deviceId {
        PrependRow(row, rest);
      } else {
        PutKeepsOneRow(rest, row);
        PutMembers(rest, row);
        PrependRow(s[0], Put(rest, row));
      }
    }
  }

  lemma PrependRow(row: Row, s: Store)
    requires OneRowEach(s) && forall r :: r in s ==> r.deviceId != row.deviceId
    ensures OneRowEach([row] + s)
  {
  }

  /** Keep-best: only a longer distance replaces a device's row. */
  function Keep(s: Store, row: Row): (r: Store) {
    var prev := Lookup(s, row.deviceId);
    if prev.None? || row.distance > prev.value.distance then Put(s, row) else s
  }

  /** The table's upsert: insert, or update where the new distance is greater. */
  function Upsert(s: Store, row: Row): (r: Store) {
    if s == [] then [row]
    else if s[0].deviceId == row.deviceId then [if row.distance > s[0].distance then row else s[0]] + s[1..]
    else [s[0]] + Upsert(s[1..], row)
  }

  /** The two ways of keeping the best are one. */
  lemma {:induction false} UpsertIsKeep(s: Store, row: Row)
    ensures Upsert(s, row) == Keep(s, row)
  {
    if s != [] {
      if s[0].deviceId != row.deviceId {
        UpsertIsKeep(s[1..], row);
      }
      assert s == [s[0]] + s[1..];
    }
  }

  /* -------------------------------------------------------------------- handlers */

  function EdgeRow(b: Body, today: Str): (r: Row) {
    Row(
      Sanitize(b.deviceId, 64), OrElse(Sanitize(b.name, 14), PILOT), Sanitize(b.skin, 24),
      EdgeNum(b.distance, 500000), EdgeNum(b.altitude, 10000), EdgeNum(b.perfects, 5000),
      EdgeNum(b.coins, 100000), EdgeNum(b.score, 5000000), ResolveDay(Sanitize(b.date, 10), today))
  }

  function WorkerRow(b: Body, today: Str): (r: Row) {
    Row(
      Sanitize(b.deviceId, 64), OrElse(Sanitize(b.name, 14), PILOT), OrElse(Sanitize(b.skin, 24), SUNBIRD),
      ClampNum(b.distance, 500000), ClampNum(b.altitude, 10000), ClampNum(b.perfects, 5000),
      ClampNum(b.coins, 100000), ClampNum(b.score, 5000000), today)
  }

  function ReplyTo(row: Row): (r: Reply) {
    if row.deviceId == [] then MissingDevice else Gate(row.distance, row.score)
  }

  function EdgeSubmit(s: Store, b: Body, today: Str): (r: (Reply, Store)) {
    var row := EdgeRow(b, today);
    (ReplyTo(row), if ReplyTo(row) == Accepted then Keep(s, row) else s)
  }

  function WorkerSubmit(s: Store, b: Body, today: Str): (r: (Reply, Store)) {
    var row := WorkerRow(b, today);
    (ReplyTo(row), if ReplyTo(row) == Accepted then Upsert(s, row) else s)
  }

  /** Everything a row says except its day and its skin. */
  datatype Core = Core(
    deviceId: Str, name: Str, distance: nat, altitude: nat, perfects: nat, coins: nat, score: nat)

  function CoreOf(r: Row): (c: Core) {
    Core(r.deviceId, r.name, r.distance, r.altitude, r.perfects, r.coins, r.score)
  }

  /** From one submission both backends make the same row, day and skin aside, and give the same reply. */
  lemma RowsAgree(b: Body, today: Str)
    ensures CoreOf(EdgeRow(b, today)) == CoreOf(WorkerRow(b, today))
    ensures ReplyTo(EdgeRow(b, today)) == ReplyTo(WorkerRow(b, today))
  {
    NumbersAgree(b.distance, 500000);
    NumbersAgree(b.altitude, 10000);
    NumbersAgree(b.perfects, 5000);
    NumbersAgree(b.coins, 100000);
    NumbersAgree(b.score, 5000000);
  }

  /* ------------------------------------------------------------------ every trace */

  /** A submission and the server's day when it arrives. */
  datatype Submission = Submission(body: Body, today: Str)

  /** The rows of a list of submissions. */
  function Rows(subs: seq<Submission>, edge: bool): (rows: seq<Row>)
    ensures |rows| == |subs|
    ensures forall i :: 0 <= i < |subs| ==>
              rows[i] == if edge then EdgeRow(subs[i].body, subs[i].today) else WorkerRow(subs[i].body, subs[i].today)
  {
    if subs == [] then []
    else
      [if edge then EdgeRow(subs[0].body, subs[0].today) else WorkerRow(subs[0].body, subs[0].today)] +
      Rows(subs[1..], edge)
  }

  /** Handlers one at a time. */
  function Serve(s: Store, subs: seq<Submission>, edge: bool): (r: Store)
    decreases |subs|
  {
    if subs == [] then s
    else
      var sub := subs[0];
      Serve(
        if edge then EdgeSubmit(s, sub.body, sub.today).1 else WorkerSubmit(s, sub.body, sub.today).1, subs[1..], edge)
  }

  function KeepAll(s: Store, rows: seq<Row>): (r: Store)
    decreases |rows|
  {
    if rows == [] then s else KeepAll(if ReplyTo(rows[0]) == Accepted then Keep(s, rows[0]) else s, rows[1..])
  }

  lemma {:induction false} ServeKeeps(s: Store, subs: seq<Submission>, edge: bool)
    ensures Serve(s, subs, edge) == KeepAll(s, Rows(subs, edge))
    decreases |subs|
  {
    if subs != [] {
      var sub := subs[0];
      UpsertIsKeep(s, WorkerRow(sub.body, sub.today));
      ServeKeeps(
        if edge then EdgeSubmit(s, sub.body, sub.today).1 else WorkerSubmit(s, sub.body, sub.today).1, subs[1..], edge);
      assert Rows(subs, edge)[1..] == Rows(subs[1..], edge);
    }
  }

  predicate Counts(rows: seq<Row>, device: Str, i: nat) {
    i < |rows| && rows[i].deviceId == device && ReplyTo(rows[i]) == Accepted
  }

  /** The earliest of a device's accepted rows of greatest distance. */
  predicate IsBest(rows: seq<Row>, device: Str, i: nat) {
    && Counts(rows, device, i)
    && (forall j :: 0 <= j < |rows| && Counts(rows, device, j) ==> rows[j].distance <= rows[i].distance)
    && (forall j :: 0 <= j < i && Counts(rows, device, j) ==> rows[j].distance < rows[i].distance)
  }

  /** What a device's row must be: none without an accepted submission, else the best one. */
  ghost predicate HoldsBest(rows: seq<Row>, device: Str, held: Option<Row>) {
    match held
    case None => forall i :: 0 <= i < |rows| ==> !Counts(rows, device, i)
    case Some(row) => exists i :: 0 <= i < |rows| && IsBest(rows, device, i) && rows[i] == row
  }

  lemma KeepStep(rows: seq<Row>, row: Row, device: Str, s: Store)
    requires HoldsBest(rows, device, Lookup(s, device))
    ensures var s' := if ReplyTo(row) == Accepted then Keep(s, row) else s;
      HoldsBest(rows + [row], device, Lookup(s', device))
  {
    var all := rows + [row];
    LookupOfPut(s, row, device);
    CountsLonger(rows, row, device);
    var held := Lookup(s, device);
    if held.None? {
      FirstOrNone(rows, row, device);
    } else {
      var i :| 0 <= i < |rows| && IsBest(rows, device, i) && rows[i] == held.value;
      BestLonger(rows, row, device, i);
    }
  }

  lemma CountsLonger(rows: seq<Row>, row: Row, device: Str)
    ensures forall j :: 0 <= j < |rows| ==> (Counts(rows + [row], device, j) <==> Counts(rows, device, j))
    ensures Counts(rows + [row], device, |rows|) <==> row.deviceId == device && ReplyTo(row) == Accepted
  {
  }

  lemma FirstOrNone(rows: seq<Row>, row: Row, device: Str)
    requires HoldsBest(rows, device, None)
    ensures HoldsBest(
              rows + [row], device, if row.deviceId == device && ReplyTo(row) == Accepted then Some(row) else None)
  {
    CountsLonger(rows, row, device);
    if row.deviceId == device && ReplyTo(row) == Accepted {
      assert IsBest(rows + [row], device, |rows|);
    }
  }

  lemma BestLonger(rows: seq<Row>, row: Row, device: Str, i: nat)
    requires IsBest(rows, device, i)
    ensures var wins := row.deviceId == device && ReplyTo(row) == Accepted && row.distance > rows[i].distance;
      HoldsBest(rows + [row], device, Some(if wins then row else rows[i]))
  {
    CountsLonger(rows, row, device);
    var all := rows + [row];
    if row.deviceId == device && ReplyTo(row) == Accepted && row.distance > rows[i].distance {
      assert IsBest(all, device, |rows|);
    } else {
      assert all[i] == rows[i] && IsBest(all, device, i);
    }
  }

  lemma {:induction false} KeepAllHoldsBest(before: seq<Row>, rows: seq<Row>, device: Str, s: Store)
    requires HoldsBest(before, device, Lookup(s, device))
    ensures HoldsBest(before + rows, device, Lookup(KeepAll(s, rows), device))
    decreases |rows|
  {
    if rows == [] {
      assert before + rows == before;
    } else {
      KeepStep(before, rows[0], device, s);
      KeepAllHoldsBest(
        before + [rows[0]], rows[1..], device, if ReplyTo(rows[0]) == Accepted then Keep(s, rows[0]) else s);
      assert before + [rows[0]] + rows[1..] == before + rows;
    }
  }

  /** In both backends each device's row is the earliest accepted submission of its greatest distance. */
  lemma {:induction false} StoresTheBest(subs: seq<Submission>, edge: bool, device: Str)
    ensures HoldsBest(Rows(subs, edge), device, Lookup(Serve([], subs, edge), device))
  {
    ServeKeeps([], subs, edge);
    KeepAllHoldsBest([], Rows(subs, edge), device, []);
    assert [] + Rows(subs, edge) == Rows(subs, edge);
  }

  lemma CoresCount(a: seq<Row>, b: seq<Row>, device: Str, i: nat)
    requires |a| == |b| && forall j :: 0 <= j < |a| ==> CoreOf(a[j]) == CoreOf(b[j])
    ensures Counts(a, device, i) <==> Counts(b, device, i)
    ensures IsBest(a, device, i) ==> IsBest(b, device, i)
  {
    forall j ensures 0 <= j < |a| ==> (Counts(a, device, j) <==> Counts(b, device, j)) {
      if 0 <= j < |a| {
        assert CoreOf(a[j]) == CoreOf(b[j]);
      }
    }
    if IsBest(a, device, i) {
      assert CoreOf(a[i]) == CoreOf(b[i]);
      forall j | 0 <= j < |b| && Counts(b, device, j) ensures b[j].distance <= b[i].distance {
        assert Counts(a, device, j) && CoreOf(a[j]) == CoreOf(b[j]);
      }
      forall j | 0 <= j < i && Counts(b, device, j) ensures b[j].distance < b[i].distance {
        assert Counts(a, device, j) && CoreOf(a[j]) == CoreOf(b[j]);
      }
    }
  }

  lemma BestIsOne(rows: seq<Row>, device: Str, i: nat, j: nat)
    requires IsBest(rows, device, i) && IsBest(rows, device, j)
    ensures i == j
  {
  }

  /** Given the same submissions the two backends hold the same devices, with the same names and numbers. */
  lemma {:induction false} BackendsAgree(subs: seq<Submission>, device: Str)
    ensures var e := Lookup(Serve([], subs, true), device);
      var w := Lookup(Serve([], subs, false), device);
      (e.None? <==> w.None?) && (e.Some? ==> CoreOf(e.value) == CoreOf(w.value))
  {
    var a, b := Rows(subs, true), Rows(subs, false);
    StoresTheBest(subs, true, device);
    StoresTheBest(subs, false, device);
    forall j | 0 <= j < |a| ensures CoreOf(a[j]) == CoreOf(b[j]) {
      RowsAgree(subs[j].body, subs[j].today);
    }
    SameBest(a, b, device, Lookup(Serve([], subs, true), device), Lookup(Serve([], subs, false), device));
  }

  lemma SameBest(a: seq<Row>, b: seq<Row>, device: Str, e: Option<Row>, w: Option<Row>)
    requires |a| == |b| && forall j :: 0 <= j < |a| ==> CoreOf(a[j]) == CoreOf(b[j])
    requires HoldsBest(a, device, e) && HoldsBest(b, device, w)
    ensures e.None? <==> w.None?
    ensures e.Some? ==> CoreOf(e.value) == CoreOf(w.value)
  {
    if e.Some? {
      var i :| 0 <= i < |a| && IsBest(a, device, i) && a[i] == e.value;
      CoresCount(a, b, device, i);
      if w.Some? {
        var j :| 0 <= j < |b| && IsBest(b, device, j) && b[j] == w.value;
        BestIsOne(b, device, i, j);
      }
    } else if w.Some? {
      var j :| 0 <= j < |b| && IsBest(b, device, j) && b[j] == w.value;
      CoresCount(a, b, device, j);
    }
  }

  /** What every stored row satisfies. */
  predicate Gated(r: Row) {
    && r.deviceId != [] && r.name != []
    && Plausible(r.distance, r.score)
    && r.altitude <= 10000 && r.perfects <= 5000 && r.coins <= 100000
  }

  lemma {:induction false} KeepAllGated(s: Store, rows: seq<Row>)
    requires OneRowEach(s) && forall r :: r in s ==> Gated(r)
    requires forall r :: r in rows && ReplyTo(r) == Accepted ==> Gated(r)
    ensures OneRowEach(KeepAll(s, rows)) && forall r :: r in KeepAll(s, rows) ==> Gated(r)
    decreases |rows|
  {
    if rows != [] {
      PutMembers(s, rows[0]);
      PutKeepsOneRow(s, rows[0]);
      KeepAllGated(if ReplyTo(rows[0]) == Accepted then Keep(s, rows[0]) else s, rows[1..]);
    }
  }

  /** Every stored row passed the gates, and every device has one row. */
  lemma {:induction false} EveryRowIsPlausible(subs: seq<Submission>, edge: bool)
    ensures OneRowEach(Serve([], subs, edge))
    ensures forall r :: r in Serve([], subs, edge) ==> Gated(r)
  {
    var rows := Rows(subs, edge);
    forall i | 0 <= i < |rows| && ReplyTo(rows[i]) == Accepted ensures Gated(rows[i]) {
      RowWithinCaps(subs[i].body, subs[i].today);
    }
    KeepAllGated([], rows);
    ServeKeeps([], subs, edge);
  }

  lemma RowWithinCaps(b: Body, today: Str)
    ensures ReplyTo(EdgeRow(b, today)) == Accepted ==> Gated(EdgeRow(b, today))
    ensures ReplyTo(WorkerRow(b, today)) == Accepted ==> Gated(WorkerRow(b, today))
  {
    RowsAgree(b, today);
    NumbersAgree(b.altitude, 10000);
    NumbersAgree(b.perfects, 5000);
    NumbersAgree(b.coins, 100000);
  }

  lemma {:induction false} KeptRowsWereSubmitted(s: Store, rows: seq<Row>)
    ensures forall r :: r in KeepAll(s, rows) ==> r in s || r in rows
    decreases |rows|
  {
    if rows != [] {
      PutMembers(s, rows[0]);
      KeptRowsWereSubmitted(if ReplyTo(rows[0]) == Accepted then Keep(s, rows[0]) else s, rows[1..]);
    }
  }

  /** Whatever day the clients sent, the edge route files every row under a real day near the day it came. */
  lemma {:induction false} StoredDaysAreReal(subs: seq<Submission>)
    requires forall i :: 0 <= i < |subs| ==> IsDay(subs[i].today)
    ensures forall r :: r in Serve([], subs, true) ==>
              IsDay(r.date) && exists i :: 0 <= i < |subs| && NearDay(r.date, subs[i].today)
  {
    var rows := Rows(subs, true);
    KeptRowsWereSubmitted([], rows);
    ServeKeeps([], subs, true);
    forall r | r in rows ensures IsDay(r.date) && exists i :: 0 <= i < |subs| && NearDay(r.date, subs[i].today) {
      var i :| 0 <= i < |rows| && rows[i] == r;
      ResolvedIsNear(Sanitize(subs[i].body.date, 10), subs[i].today);
      assert NearDay(r.date, subs[i].today);
    }
  }

  predicate NearDay(day: Str, today: Str) {
    IsDay(day) && IsDay(today) && Distance(DayNumber(day), DayNumber(today)) <= 2
  }

  /** The table of the edge route, without Redis. */
  class MemoryStore {
    var rows: Store

    constructor ()
      ensures rows == []
    {
      rows := [];
    }

    method GetRow(device: Str) returns (r: Option<Row>)
      ensures r == Lookup(rows, device)
      ensures r.Some? ==> r.value in rows && r.value.deviceId == device
      ensures r.None? ==> forall i :: 0 <= i < |rows| ==> rows[i].deviceId != device
    {
      r := Lookup(rows, device);
      LookupFinds(rows, device);
    }

    /** Every other device's row and place stay; a known device keeps its place and a new one goes last. */
    method PutRow(row: Row)
      modifies this
      ensures forall d :: Lookup(rows, d) == if d == row.deviceId then Some(row) else Lookup(old(rows), d)
      ensures Devices(rows) ==
              Devices(old(rows)) + if Lookup(old(rows), row.deviceId).Some? then [] else [row.deviceId]
      ensures old(OneRowEach(rows)) ==> OneRowEach(rows)
      ensures rows == Put(old(rows), row)
    {
      ghost var before := rows;
      var i := 0;
      while i < |rows| && rows[i].deviceId != row.deviceId
        invariant i <= |rows|
        invariant forall j :: 0 <= j < i ==> rows[j].deviceId != row.deviceId
      {
        i := i + 1;
      }
      PutAt(rows, row, i);
      if i < |rows| {
        rows := rows[i := row];
      } else {
        rows := rows + [row];
      }
      PutIsSeen(before, row);
    }

    method AllRows() returns (all: seq<Row>)
      ensures all == rows
    {
      all := rows;
    }

    /** The gates and keep-best of one POST, with no other handler in between. */
    method Submit(b: Body, today: Str) returns (reply: Reply)
      modifies this
      ensures (reply, rows) == EdgeSubmit(old(rows), b, today)
    {
      var row := EdgeRow(b, today);
      if row.deviceId == [] {
        return MissingDevice;
      }
      if row.distance > 60000 {
        return ImplausibleDistance;
      }
      if row.score > row.distance * 40 + 50000 {
        return ImplausibleScore;
      }
      var prev := GetRow(row.deviceId);
      if prev.None? || row.distance > prev.value.distance {
        PutRow(row);
      }
      reply := Accepted;
    }
  }
}
