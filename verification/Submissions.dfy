/** What becomes of a submission (api/score.ts). */
module Submissions {
  import opened DayText
  import opened FlightPhysics
  import opened Leaderboard
  import opened Numbers
  import opened Text

  /* ------------------------------------------------------------------------ texts */

  /** None of `<`, `>`, `&`, `"` and `'`. */
  predicate CleanUnit(u: Unit) { u != 60 && u != 62 && u != 38 && u != 34 && u != 39 }

  predicate CleanText(s: Str) { forall u :: u in s ==> CleanUnit(u) }

  /** A text is kept as it is exactly when it is clean and no longer than the limit. */
  lemma {:induction false} KeptExactly(s: Str, max: nat)
    ensures Sanitize(s, max) == s <==> CleanText(s) && |s| <= max
  {
    if CleanText(s) {
      FilterAll(s, (u: Unit) => !Unsafe(u));
    }
  }

  /** Whatever the text, what is kept of it is clean and within the limit. */
  lemma {:induction false} KeptIsClean(s: Str, max: nat)
    ensures CleanText(Sanitize(s, max)) && |Sanitize(s, max)| <= max
  {
    var f := Filter(s, (u: Unit) => !Unsafe(u));
    forall u | u in Sanitize(s, max) ensures CleanUnit(u) {
      assert u in f;
    }
  }

  /** A longer clean text is cut. */
  lemma {:induction false} LongIsCut(s: Str, max: nat)
    requires CleanText(s) && |s| > max
    ensures Sanitize(s, max) == s[..max]
  {
    FilterAll(s, (u: Unit) => !Unsafe(u));
  }

  /** A unit that is not clean is left out wherever it stands. */
  lemma UncleanIsDropped(a: Str, u: Unit, b: Str, max: nat)
    requires !CleanUnit(u)
    ensures Sanitize(a + ([u] + b), max) == Sanitize(a + b, max)
  {
    FilterSkips(a, u, b, (v: Unit) => !Unsafe(v));
  }

  /** Nothing is kept exactly of a text with nothing clean in it. */
  lemma {:induction false} NothingIsKept(s: Str, max: nat)
    requires max > 0
    ensures Sanitize(s, max) == [] <==> forall u :: u in s ==> !CleanUnit(u)
  {
    if s != [] {
      NothingIsKept(s[1..], max);
    }
  }

  /* ---------------------------------------------------------------------- numbers */

  /** A number is bounded by 0 and the cap and taken to the nearest whole one; what is no number counts as 0. */
  lemma NumberIsNearest(v: Num, cap: nat)
    ensures v.None? ==> EdgeNum(v, cap) == 0
    ensures v.Some? && v.value <= 0.0 ==> EdgeNum(v, cap) == 0
    ensures v.Some? && v.value >= cap as real ==> EdgeNum(v, cap) == cap
    ensures v.Some? && 0.0 <= v.value <= cap as real ==> v.value - 0.5 <= EdgeNum(v, cap) as real <= v.value + 0.5
  {
  }

  /** A whole number within the cap is kept. */
  lemma WholeIsKept(n: nat, cap: nat)
    requires n <= cap
    ensures EdgeNum(Some(n as real), cap) == n && ClampNum(Some(n as real), cap) == n
  {
    NumbersAgree(Some(n as real), cap);
  }

  /* ----------------------------------------------------------------- a submission */

  /** A body of clean texts within their limits and whole numbers within their caps. */
  predicate Ordinary(b: Body, distance: nat, altitude: nat, perfects: nat, coins: nat, score: nat) {
    && CleanText(b.deviceId) && 1 <= |b.deviceId| <= 64
    && CleanText(b.name) && 1 <= |b.name| <= 14
    && CleanText(b.skin) && 1 <= |b.skin| <= 24
    && b.distance == Some(distance as real) && distance <= 500_000
    && b.altitude == Some(altitude as real) && altitude <= 10_000
    && b.perfects == Some(perfects as real) && perfects <= 5_000
    && b.coins == Some(coins as real) && coins <= 100_000
    && b.score == Some(score as real) && score <= 5_000_000
  }

  /** The day the client sent, if it is a real one within two days of the server's, else the server's. */
  function DayFiled(b: Body, today: Str): (day: Str)
    requires IsDay(today)
  {
    if IsDay(b.date) && Distance(DayNumber(b.date), DayNumber(today)) <= 2 then b.date else today
  }

  lemma FiledAsSent(b: Body, today: Str)
    requires IsDay(today) && CleanText(b.date) && |b.date| <= 10
    ensures ResolveDay(Sanitize(b.date, 10), today) == DayFiled(b, today)
  {
    KeptExactly(b.date, 10);
    ResolvesExactly(b.date, today);
  }

  /** The row an ordinary submission makes, field by field. */
  lemma OrdinaryRow(
      b: Body, today: Str, distance: nat, altitude: nat, perfects: nat, coins: nat, score: nat)
    requires IsDay(today) && Ordinary(b, distance, altitude, perfects, coins, score)
    requires CleanText(b.date) && |b.date| <= 10
    ensures EdgeRow(b, today) ==
            Row(b.deviceId, b.name, b.skin, distance, altitude, perfects, coins, score, DayFiled(b, today))
    ensures WorkerRow(b, today) ==
            Row(b.deviceId, b.name, b.skin, distance, altitude, perfects, coins, score, today)
  {
    KeptExactly(b.deviceId, 64);
    KeptExactly(b.name, 14);
    KeptExactly(b.skin, 24);
    FiledAsSent(b, today);
    WholeIsKept(distance, 500_000);
    WholeIsKept(altitude, 10_000);
    WholeIsKept(perfects, 5_000);
    WholeIsKept(coins, 100_000);
    WholeIsKept(score, 5_000_000);
  }

  /** Clean texts past their limits are cut: 64 units of device, 14 of name, 24 of skin. */
  lemma LongTexts(b: Body, today: Str)
    requires CleanText(b.deviceId) && CleanText(b.name) && CleanText(b.skin)
    ensures |b.deviceId| > 64 ==> EdgeRow(b, today).deviceId == b.deviceId[..64] == WorkerRow(b, today).deviceId
    ensures |b.name| > 14 ==> EdgeRow(b, today).name == b.name[..14] == WorkerRow(b, today).name
    ensures |b.skin| > 24 ==> EdgeRow(b, today).skin == b.skin[..24] == WorkerRow(b, today).skin
    ensures CleanText(b.date) && |b.date| > 10 ==> EdgeRow(b, today).date == ResolveDay(b.date[..10], today)
    ensures WorkerRow(b, today).date == today
  {
    if |b.deviceId| > 64 { LongIsCut(b.deviceId, 64); }
    if |b.name| > 14 { LongIsCut(b.name, 14); }
    if |b.skin| > 24 { LongIsCut(b.skin, 24); }
    if CleanText(b.date) && |b.date| > 10 { LongIsCut(b.date, 10); }
  }

  /** No name left is "Pilot"; no skin left is none on the edge and "sunbird" in the worker. */
  lemma MissingTexts(b: Body, today: Str)
    ensures (forall u :: u in b.name ==> !CleanUnit(u)) ==>
              EdgeRow(b, today).name == [80, 105, 108, 111, 116] == WorkerRow(b, today).name
    ensures (forall u :: u in b.skin ==> !CleanUnit(u)) ==>
              EdgeRow(b, today).skin == [] && WorkerRow(b, today).skin == [115, 117, 110, 98, 105, 114, 100]
  {
    NothingIsKept(b.name, 14);
    NothingIsKept(b.skin, 24);
  }

  /** The row of the device is the new one if that flew further, else as before; no other row changes. */
  ghost predicate KeptBest(s: Store, t: Store, row: Row) {
    && (var prev := Lookup(s, row.deviceId);
        Lookup(t, row.deviceId) == if prev.None? || row.distance > prev.value.distance then Some(row) else prev)
    && (forall d :: d != row.deviceId ==> Lookup(t, d) == Lookup(s, d))
  }

  lemma KeepKeepsBest(s: Store, row: Row)
    ensures KeptBest(s, Keep(s, row), row)
  {
    forall d ensures Lookup(Put(s, row), d) == if d == row.deviceId then Some(row) else Lookup(s, d) {
      LookupOfPut(s, row, d);
    }
  }

  /**
   * An ordinary submission within the speed of a bird and the worth of its flight is accepted by both
   * backends, and its device's row then holds those very values if they beat the old distance.
   */
  lemma OrdinaryIsKept(
      s: Store, b: Body, today: Str, distance: nat, altitude: nat, perfects: nat, coins: nat, score: nat)
    requires IsDay(today) && Ordinary(b, distance, altitude, perfects, coins, score)
    requires CleanText(b.date) && |b.date| <= 10
    requires distance <= 60_000 && score <= distance * 40 + 50_000
    ensures var (reply, t) := EdgeSubmit(s, b, today);
      reply == Accepted &&
      KeptBest(
        s, t, Row(b.deviceId, b.name, b.skin, distance, altitude, perfects, coins, score, DayFiled(b, today)))
    ensures var (reply, t) := WorkerSubmit(s, b, today);
      reply == Accepted &&
      KeptBest(s, t, Row(b.deviceId, b.name, b.skin, distance, altitude, perfects, coins, score, today))
  {
    OrdinaryRow(b, today, distance, altitude, perfects, coins, score);
    KeepKeepsBest(s, EdgeRow(b, today));
    UpsertIsKeep(s, WorkerRow(b, today));
    KeepKeepsBest(s, WorkerRow(b, today));
  }

  /** Every other submission is refused, for its first fault, and changes nothing. */
  lemma RefusedExactly(s: Store, b: Body, today: Str)
    ensures var (reply, t) := EdgeSubmit(s, b, today);
      var distance, score := EdgeNum(b.distance, 500_000), EdgeNum(b.score, 5_000_000);
      (reply == MissingDevice <==> forall u :: u in b.deviceId ==> !CleanUnit(u)) &&
      (reply == ImplausibleDistance <==> !(forall u :: u in b.deviceId ==> !CleanUnit(u)) && distance > 60_000) &&
      (reply == ImplausibleScore <==>
       !(forall u :: u in b.deviceId ==> !CleanUnit(u)) && distance <= 60_000 && score > distance * 40 + 50_000) &&
      (reply != Accepted ==> t == s)
    ensures EdgeSubmit(s, b, today).0 == WorkerSubmit(s, b, today).0
    ensures WorkerSubmit(s, b, today).0 != Accepted ==> WorkerSubmit(s, b, today).1 == s
  {
    NothingIsKept(b.deviceId, 64);
    RowsAgree(b, today);
  }
}
