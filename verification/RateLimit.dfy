/** The windowed request counter of both leaderboard routes (api/score.ts, api/board.ts). */
module RateLimit {
  import opened Text

  const WINDOW_MS: int := 60000

  /** When a key's window started and how many requests it has let through. */
  datatype Entry = Entry(started: int, count: nat)

  /** No entry, or one whose window is over: a new window starts with this request. */
  predicate StartsWindow(e: Option<Entry>, now: int) {
    e.None? || now - e.value.started >= WINDOW_MS
  }

  predicate Allows(e: Option<Entry>, now: int, max: nat) {
    StartsWindow(e, now) || e.value.count < max
  }

  function Next(e: Option<Entry>, now: int, max: nat): (r: Option<Entry>) {
    if StartsWindow(e, now) then Some(Entry(now, 1))
    else if e.value.count >= max then e
    else Some(e.value.(count := e.value.count + 1))
  }

  /* ------------------------------------------------------------------ one key */

  function RunKey(e: Option<Entry>, ts: seq<int>, max: nat): (r: Option<Entry>)
    decreases |ts|
  {
    if ts == [] then e else RunKey(Next(e, ts[0], max), ts[1..], max)
  }

  predicate Between(a: int, t: int, b: int) {
    a <= t <= b
  }

  /** How many of the requests between `a` and `b`, both included, are let through. */
  function Granted(e: Option<Entry>, ts: seq<int>, max: nat, a: int, b: int): (n: nat)
    decreases |ts|
  {
    if ts == [] then 0
    else
      (if Between(a, ts[0], b) && Allows(e, ts[0], max) then 1 else 0) +
      Granted(Next(e, ts[0], max), ts[1..], max, a, b)
  }

  /** A clock that does not go back, from `now` on. */
  predicate ClockRuns(now: int, ts: seq<int>) {
    (ts != [] ==> now <= ts[0]) && forall i :: 0 < i < |ts| ==> ts[i - 1] <= ts[i]
  }

  lemma ClockRest(now: int, ts: seq<int>)
    requires ClockRuns(now, ts) && ts != []
    ensures ClockRuns(ts[0], ts[1..])
  {
  }

  predicate Counts(e: Option<Entry>, max: nat, now: int) {
    e.Some? ==> e.value.count <= max && e.value.started <= now
  }

  /**
   * With `before` requests of the interval [a, a + window] let through by `now`: they belong to the
   * current window, or to it and one full window before it; and if there are any, the current
   * window reaches past `a`.
   */
  predicate Booked(e: Option<Entry>, max: nat, now: int, a: int, before: nat) {
    match e
    case None => before == 0
    case Some(w) =>
      && (before > 0 ==> a < w.started + WINDOW_MS && a <= now)
      && (w.started <= a ==> before <= w.count)
      && (a < w.started <= a + WINDOW_MS ==> before <= max + w.count)
      && before <= 2 * max
  }

  lemma BookOne(e: Option<Entry>, max: nat, now: int, t: int, a: int, before: nat)
    requires max > 0 && Counts(e, max, now) && Booked(e, max, now, a, before) && now <= t
    ensures var after := before + if Between(a, t, a + WINDOW_MS) && Allows(e, t, max) then 1 else 0;
      Counts(Next(e, t, max), max, t) && Booked(Next(e, t, max), max, t, a, after)
  {
  }

  lemma {:induction false} BookAll(e: Option<Entry>, max: nat, now: int, ts: seq<int>, a: int, before: nat)
    requires max > 0 && Counts(e, max, now) && Booked(e, max, now, a, before) && ClockRuns(now, ts)
    ensures before + Granted(e, ts, max, a, a + WINDOW_MS) <= 2 * max
    decreases |ts|
  {
    if ts != [] {
      var t := ts[0];
      BookOne(e, max, now, t, a, before);
      ClockRest(now, ts);
      BookAll(Next(e, t, max), max, t, ts[1..], a,
              before + if Between(a, t, a + WINDOW_MS) && Allows(e, t, max) then 1 else 0);
    }
  }

  /**
   * Over every run of requests, no interval of a window's length, ends included, lets more than
   * twice the maximum through.
   */
  lemma AtMostTwice(max: nat, now: int, ts: seq<int>, a: int)
    requires max > 0 && ClockRuns(now, ts)
    ensures Granted(None, ts, max, a, a + 60000) <= 2 * max
  {
    BookAll(None, max, now, ts, a, 0);
  }

  /* ------------------------------------------------------------ the bound is reached */

  /** `n` requests at the same moment. */
  function Burst(t: int, n: nat): (ts: seq<int>)
    ensures |ts| == n && forall i :: 0 <= i < n ==> ts[i] == t
  {
    if n == 0 then [] else [t] + Burst(t, n - 1)
  }

  lemma {:induction false} BurstGranted(e: Entry, max: nat, t: int, n: nat, rest: seq<int>, a: int, b: int)
    requires Between(a, t, b) && t < e.started + WINDOW_MS && e.count + n <= max
    ensures Granted(Some(e), Burst(t, n) + rest, max, a, b)
         == n + Granted(Some(e.(count := e.count + n)), rest, max, a, b)
    decreases n
  {
    var ts := Burst(t, n) + rest;
    if n == 0 {
      assert ts == rest;
    } else {
      assert ts[0] == t && ts[1..] == Burst(t, n - 1) + rest;
      BurstGranted(e.(count := e.count + 1), max, t, n - 1, rest, a, b);
    }
  }

  /** A window opened at `t` by the first of `n` requests at that moment, of which the others come at `late`. */
  lemma {:induction false} WindowGranted(
      e: Option<Entry>, max: nat, t: int, late: int, rest: seq<int>, a: int, b: int)
    requires max > 0 && StartsWindow(e, t) && a <= t <= late <= b && late < t + WINDOW_MS
    ensures Granted(e, [t] + (Burst(late, max - 1) + rest), max, a, b)
         == max + Granted(Some(Entry(t, max)), rest, max, a, b)
  {
    assert ([t] + (Burst(late, max - 1) + rest))[1..] == Burst(late, max - 1) + rest;
    BurstGranted(Entry(t, 1), max, late, max - 1, rest, a, b);
  }

  /** One request at `a`, the rest of its window's just before it closes, and a whole window's as the next one opens. */
  function Worst(max: nat, a: int): (ts: seq<int>)
    requires max > 0
  {
    [a] + (Burst(a + WINDOW_MS - 1, max - 1) + ([a + WINDOW_MS] + (Burst(a + WINDOW_MS, max - 1) + [])))
  }

  /** Twice the maximum does get through, from any moment on. */
  lemma {:induction false} TwiceIsReached(max: nat, a: int)
    requires max > 0
    ensures ClockRuns(a, Worst(max, a)) && Granted(None, Worst(max, a), max, a, a + 60000) == 2 * max
  {
    var b := a + WINDOW_MS;
    WindowGranted(None, max, a, b - 1, [b] + (Burst(b, max - 1) + []), a, b);
    WindowGranted(Some(Entry(a, max)), max, b, b, [], a, b);
  }

  /** Within one window, started by a request, no more than the maximum gets through. */
  lemma {:induction false} AtMostMaxPerWindow(e: Entry, max: nat, now: int, ts: seq<int>)
    requires max > 0 && Counts(Some(e), max, now) && ClockRuns(now, ts)
    ensures e.count + Granted(Some(e), ts, max, now, e.started + WINDOW_MS - 1) <= max
    decreases |ts|
  {
    if ts != [] {
      ClockRest(now, ts);
      if StartsWindow(Some(e), ts[0]) {
        NothingEarly(Next(Some(e), ts[0], max), max, ts[0], ts[1..], now, e.started + WINDOW_MS - 1);
      } else {
        AtMostMaxPerWindow(Next(Some(e), ts[0], max).value, max, ts[0], ts[1..]);
        SameFrom(Next(Some(e), ts[0], max), max, ts[0], ts[1..], now, e.started + WINDOW_MS - 1);
      }
    }
  }

  lemma {:induction false} NothingEarly(e: Option<Entry>, max: nat, now: int, ts: seq<int>, a: int, b: int)
    requires ClockRuns(now, ts) && b < now
    ensures Granted(e, ts, max, a, b) == 0
    decreases |ts|
  {
    if ts != [] {
      ClockRest(now, ts);
      NothingEarly(Next(e, ts[0], max), max, ts[0], ts[1..], a, b);
    }
  }

  /** An earlier start of the count makes no difference once the clock is past it. */
  lemma {:induction false} SameFrom(e: Option<Entry>, max: nat, now: int, ts: seq<int>, a: int, b: int)
    requires ClockRuns(now, ts) && a <= now
    ensures Granted(e, ts, max, a, b) == Granted(e, ts, max, now, b)
    decreases |ts|
  {
    if ts != [] {
      ClockRest(now, ts);
      SameFrom(Next(e, ts[0], max), max, ts[0], ts[1..], a, b);
      SameFrom(Next(e, ts[0], max), max, ts[0], ts[1..], now, b);
    }
  }

  /** The entry's count is the number of requests its window has let through. */
  lemma {:induction false} CountIsGranted(e: Option<Entry>, max: nat, now: int, ts: seq<int>, end: int)
    requires max > 0 && Counts(e, max, now) && ClockRuns(now, ts)
    requires forall i :: 0 <= i < |ts| ==> ts[i] <= end
    ensures RunKey(e, ts, max).Some? ==>
      var w := RunKey(e, ts, max).value;
      w.count <= Granted(e, ts, max, w.started, end) +
                 (if e.Some? && e.value.started == w.started then e.value.count else 0)
    ensures RunKey(e, ts, max).Some? ==> RunKey(e, ts, max).value.started >= (if e.Some? then e.value.started else now)
    decreases |ts|
  {
    if ts != [] {
      ClockRest(now, ts);
      CountIsGranted(Next(e, ts[0], max), max, ts[0], ts[1..], end);
    }
  }

  /** Nobody is refused without cause: a refusal means the maximum got through in the window just past. */
  lemma {:induction false} RefusedOnlyWhenSpent(max: nat, now: int, ts: seq<int>, t: int)
    requires max > 0 && ClockRuns(now, ts) && forall i :: 0 <= i < |ts| ==> ts[i] <= t
    requires !Allows(RunKey(None, ts, max), t, max)
    ensures Granted(None, ts, max, t - WINDOW_MS + 1, t) >= max
  {
    CountIsGranted(None, max, now, ts, t);
    GrantedGrows(None, ts, max, RunKey(None, ts, max).value.started, t - WINDOW_MS + 1, t);
  }

  lemma {:induction false} GrantedGrows(e: Option<Entry>, ts: seq<int>, max: nat, late: int, early: int, b: int)
    requires early <= late
    ensures Granted(e, ts, max, late, b) <= Granted(e, ts, max, early, b)
    decreases |ts|
  {
    if ts != [] {
      GrantedGrows(Next(e, ts[0], max), ts[1..], max, late, early, b);
    }
  }

  /* ----------------------------------------------------------------- many keys */

  datatype Request = Request(key: Str, at: int)

  function EntryOf(m: map<Str, Entry>, key: Str): (e: Option<Entry>) {
    if key in m then Some(m[key]) else None
  }

  function Serve(m: map<Str, Entry>, r: Request, max: nat): (m': map<Str, Entry>) {
    m[r.key := Next(EntryOf(m, r.key), r.at, max).value]
  }

  /** The requests of one key, in order. */
  function TimesOf(rs: seq<Request>, key: Str): (ts: seq<int>) {
    if rs == [] then [] else (if rs[0].key == key then [rs[0].at] else []) + TimesOf(rs[1..], key)
  }

  function RunAll(m: map<Str, Entry>, rs: seq<Request>, max: nat): (m': map<Str, Entry>)
    decreases |rs|
  {
    if rs == [] then m else RunAll(Serve(m, rs[0], max), rs[1..], max)
  }

  function GrantedTo(m: map<Str, Entry>, rs: seq<Request>, max: nat, key: Str, a: int, b: int): (n: nat)
    decreases |rs|
  {
    if rs == [] then 0
    else
      (if rs[0].key == key && Between(a, rs[0].at, b) && Allows(EntryOf(m, key), rs[0].at, max) then 1 else 0) +
      GrantedTo(Serve(m, rs[0], max), rs[1..], max, key, a, b)
  }

  /** A key is treated as if the other keys did not exist. */
  lemma {:induction false} KeysAreIndependent(m: map<Str, Entry>, rs: seq<Request>, max: nat, key: Str, a: int, b: int)
    ensures EntryOf(RunAll(m, rs, max), key) == RunKey(EntryOf(m, key), TimesOf(rs, key), max)
    ensures GrantedTo(m, rs, max, key, a, b) == Granted(EntryOf(m, key), TimesOf(rs, key), max, a, b)
    decreases |rs|
  {
    if rs != [] {
      KeysAreIndependent(Serve(m, rs[0], max), rs[1..], max, key, a, b);
      if rs[0].key == key {
        assert TimesOf(rs, key)[1..] == TimesOf(rs[1..], key);
      } else {
        assert TimesOf(rs, key) == TimesOf(rs[1..], key);
      }
    }
  }

  predicate TraceRuns(rs: seq<Request>) {
    forall i, j :: 0 <= i < j < |rs| ==> rs[i].at <= rs[j].at
  }

  lemma {:induction false} TimesRun(rs: seq<Request>, key: Str, now: int)
    requires TraceRuns(rs) && (rs != [] ==> now <= rs[0].at)
    ensures ClockRuns(now, TimesOf(rs, key))
    decreases |rs|
  {
    if rs != [] {
      var rest := rs[1..];
      TimesRun(rest, key, rs[0].at);
    }
  }

  /** Every trace, every key, every minute. */
  lemma EveryKeyEveryMinute(rs: seq<Request>, max: nat, key: Str, a: int)
    requires max > 0 && TraceRuns(rs)
    ensures GrantedTo(map[], rs, max, key, a, a + 60000) <= 2 * max
  {
    KeysAreIndependent(map[], rs, max, key, a, a + WINDOW_MS);
    var now := if rs == [] then 0 else rs[0].at;
    TimesRun(rs, key, now);
    AtMostTwice(max, now, TimesOf(rs, key), a);
  }

  /** The route's table of keys. */
  class Limiter {
    const max: nat
    var entries: map<Str, Entry>

    constructor (limit: nat)
      ensures entries == map[] && max == limit
    {
      entries, max := map[], limit;
    }

    method Allowed(key: Str, now: int) returns (ok: bool)
      modifies this
      ensures ok == Allows(EntryOf(old(entries), key), now, max)
      ensures entries == Serve(old(entries), Request(key, now), max)
    {
      if key !in entries || now - entries[key].started >= WINDOW_MS {
        entries := entries[key := Entry(now, 1)];
        return true;
      }
      var prior := entries[key];
      if prior.count >= max {
        assert entries[key := prior] == entries;
        return false;
      }
      entries := entries[key := prior.(count := prior.count + 1)];
      ok := true;
    }
  }
}
