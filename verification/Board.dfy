/** The board a client reads: scope, order, rank (api/board.ts). */
module Board {
  import opened DayText
  import opened Leaderboard
  import opened Text

  datatype Metric = ByDistance | ByAltitude | ByPerfects | ByCoins | ByScore

  /** Any scope that is not daily or week is the whole board. */
  datatype Scope = Global | Daily | Week

  const TOP: nat := 50

  function MetricOf(r: Row, m: Metric): (v: nat) {
    match m
    case ByDistance => r.distance
    case ByAltitude => r.altitude
    case ByPerfects => r.perfects
    case ByCoins => r.coins
    case ByScore => r.score
  }

  /** Two rows that differ in one field alone differ in that metric and in no other. */
  lemma MetricIsItsField(r: Row, m: Metric, v: nat)
    ensures MetricOf(r.(distance := v), m) == if m == ByDistance then v else MetricOf(r, m)
    ensures MetricOf(r.(altitude := v), m) == if m == ByAltitude then v else MetricOf(r, m)
    ensures MetricOf(r.(perfects := v), m) == if m == ByPerfects then v else MetricOf(r, m)
    ensures MetricOf(r.(coins := v), m) == if m == ByCoins then v else MetricOf(r, m)
    ensures MetricOf(r.(score := v), m) == if m == ByScore then v else MetricOf(r, m)
  {
  }

  /** Rows are filed under real days; the server's day is one too. */
  predicate Dated(rows: seq<Row>, today: Str) {
    IsDay(today) && Parse(today).value.y >= 1970 && forall i :: 0 <= i < |rows| ==> IsDay(rows[i].date)
  }

  predicate InScope(r: Row, scope: Scope, today: Str)
    requires IsDay(today) && Parse(today).value.y >= 1970 && IsDay(r.date)
  {
    match scope
    case Global => true
    case Daily => r.date == today
    case Week => InWeek(r.date, today)
  }

  function Scoped(rows: seq<Row>, scope: Scope, today: Str): (r: seq<Row>)
    requires Dated(rows, today)
  {
    if rows == [] then []
    else (if InScope(rows[0], scope, today) then [rows[0]] else []) + Scoped(rows[1..], scope, today)
  }

  /* ------------------------------------------------------------------- the sort */

  /** Greatest first; a row goes before the first that is strictly less, so equals keep their order. */
  function Insert(r: Row, s: seq<Row>, m: Metric): (t: seq<Row>) {
    if s == [] || MetricOf(s[0], m) <= MetricOf(r, m) then [r] + s else [s[0]] + Insert(r, s[1..], m)
  }

  function Sort(s: seq<Row>, m: Metric): (t: seq<Row>) {
    if s == [] then [] else Insert(s[0], Sort(s[1..], m), m)
  }

  predicate Descending(s: seq<Row>, m: Metric) {
    forall i, j :: 0 <= i < j < |s| ==> MetricOf(s[i], m) >= MetricOf(s[j], m)
  }

  lemma {:induction false} InsertMembers(r: Row, s: seq<Row>, m: Metric)
    ensures multiset(Insert(r, s, m)) == multiset(s) + multiset{r}
    ensures forall x :: x in Insert(r, s, m) <==> x == r || x in s
  {
    if s != [] && MetricOf(s[0], m) > MetricOf(r, m) {
      InsertMembers(r, s[1..], m);
      assert s == [s[0]] + s[1..];
    }
  }

  lemma {:induction false} InsertSorts(r: Row, s: seq<Row>, m: Metric)
    requires Descending(s, m)
    ensures Descending(Insert(r, s, m), m)
  {
    if s == [] || MetricOf(s[0], m) <= MetricOf(r, m) {
      HeadStaysFirst(r, s, m);
    } else {
      InsertSorts(r, s[1..], m);
      InsertMembers(r, s[1..], m);
      assert s == [s[0]] + s[1..];
      HeadStaysFirst(s[0], Insert(r, s[1..], m), m);
    }
  }

  lemma {:induction false} HeadStaysFirst(h: Row, s: seq<Row>, m: Metric)
    requires Descending(s, m) && forall x :: x in s ==> MetricOf(h, m) >= MetricOf(x, m)
    ensures Descending([h] + s, m)
  {
  }

  /** The sort orders the list and loses or invents no row. */
  lemma {:induction false} SortSorts(s: seq<Row>, m: Metric)
    ensures Descending(Sort(s, m), m) && multiset(Sort(s, m)) == multiset(s)
    ensures forall x :: x in Sort(s, m) <==> x in s
  {
    if s != [] {
      SortSorts(s[1..], m);
      InsertSorts(s[0], Sort(s[1..], m), m);
      InsertMembers(s[0], Sort(s[1..], m), m);
      assert s == [s[0]] + s[1..];
    }
  }

  /** The rows of one value, in order. */
  function WithValue(s: seq<Row>, m: Metric, v: nat): (r: seq<Row>) {
    if s == [] then [] else (if MetricOf(s[0], m) == v then [s[0]] else []) + WithValue(s[1..], m, v)
  }

  lemma {:induction false} InsertIsStable(r: Row, s: seq<Row>, m: Metric, v: nat)
    requires Descending(s, m)
    ensures WithValue(Insert(r, s, m), m, v) == (if MetricOf(r, m) == v then [r] else []) + WithValue(s, m, v)
  {
    if s == [] || MetricOf(s[0], m) <= MetricOf(r, m) {
      assert ([r] + s)[1..] == s;
    } else {
      InsertIsStable(r, s[1..], m, v);
      assert ([s[0]] + Insert(r, s[1..], m))[1..] == Insert(r, s[1..], m);
    }
  }

  /** Rows of equal value keep the order they had. */
  lemma {:induction false} SortIsStable(s: seq<Row>, m: Metric, v: nat)
    ensures WithValue(Sort(s, m), m, v) == WithValue(s, m, v)
  {
    if s != [] {
      SortSorts(s[1..], m);
      SortIsStable(s[1..], m, v);
      InsertIsStable(s[0], Sort(s[1..], m), m, v);
    }
  }

  /* -------------------------------------------------------------------- the rank */

  /** `findIndex` of the device's row, or -1. */
  function IndexOfDevice(s: seq<Row>, device: Str): (i: int)
    ensures -1 <= i < |s|
    ensures i >= 0 ==> s[i].deviceId == device
    ensures forall j :: 0 <= j < (if i < 0 then |s| else i) ==> s[j].deviceId != device
  {
    if s == [] then -1
    else if s[0].deviceId == device then 0
    else
      var i := IndexOfDevice(s[1..], device);
      if i < 0 then -1 else i + 1
  }

  /** How many rows satisfy a test. */
  function Count(s: seq<Row>, p: Row -> bool): (n: nat)
    ensures n <= |s|
  {
    if s == [] then 0 else (if p(s[0]) then 1 else 0) + Count(s[1..], p)
  }

  function Better(m: Metric, v: nat): (p: Row -> bool) { (r: Row) => MetricOf(r, m) > v }

  function AsGood(m: Metric, v: nat): (p: Row -> bool) { (r: Row) => MetricOf(r, m) >= v }

  lemma {:induction false} CountOfInsert(r: Row, s: seq<Row>, m: Metric, p: Row -> bool)
    ensures Count(Insert(r, s, m), p) == Count(s, p) + if p(r) then 1 else 0
  {
    if s == [] || MetricOf(s[0], m) <= MetricOf(r, m) {
      assert ([r] + s)[1..] == s;
    } else {
      CountOfInsert(r, s[1..], m, p);
      assert ([s[0]] + Insert(r, s[1..], m))[1..] == Insert(r, s[1..], m);
    }
  }

  lemma {:induction false} CountOfSort(s: seq<Row>, m: Metric, p: Row -> bool)
    ensures Count(Sort(s, m), p) == Count(s, p)
  {
    if s != [] {
      CountOfSort(s[1..], m, p);
      CountOfInsert(s[0], Sort(s[1..], m), m, p);
    }
  }

  /** In a descending list a place lies after everything better and within everything as good. */
  lemma {:induction false} PlaceBounds(s: seq<Row>, m: Metric, i: nat)
    requires Descending(s, m) && i < |s|
    ensures Count(s, Better(m, MetricOf(s[i], m))) <= i < Count(s, AsGood(m, MetricOf(s[i], m)))
  {
    var v := MetricOf(s[i], m);
    if i == 0 {
      NoneBetter(s, m, v);
    } else {
      PlaceBounds(s[1..], m, i - 1);
      assert s[1..][i - 1] == s[i];
    }
  }

  lemma {:induction false} NoneBetter(s: seq<Row>, m: Metric, v: nat)
    requires forall j :: 0 <= j < |s| ==> MetricOf(s[j], m) <= v
    ensures Count(s, Better(m, v)) == 0
  {
    if s != [] {
      NoneBetter(s[1..], m, v);
    }
  }

  /* ------------------------------------------------------------------- the board */

  datatype Page = Page(entries: seq<Row>, rank: nat, total: nat)

  function Listed(rows: seq<Row>, scope: Scope, m: Metric, today: Str): (list: seq<Row>)
    requires Dated(rows, today)
  {
    Sort(Scoped(rows, scope, today), m)
  }

  function BoardPage(rows: seq<Row>, scope: Scope, m: Metric, device: Str, today: Str): (p: Page)
    requires Dated(rows, today)
  {
    var list := Listed(rows, scope, m, today);
    Page(Take(list, TOP), IndexOfDevice(list, device) + 1, |list|)
  }

  lemma {:induction false} ScopedExactly(rows: seq<Row>, scope: Scope, today: Str, r: Row)
    requires Dated(rows, today)
    ensures r in Scoped(rows, scope, today) <==> r in rows && InScope(r, scope, today)
  {
    if rows != [] {
      ScopedExactly(rows[1..], scope, today, r);
    }
  }

  /** The week board holds exactly the rows of the seven days that end today. */
  lemma WeekBoard(rows: seq<Row>, m: Metric, today: Str, r: Row)
    requires Dated(rows, today) && r in rows
    ensures r in Listed(rows, Week, m, today) <==>
            DayNumber(today) - 6 <= DayNumber(r.date) <= DayNumber(today)
  {
    ScopedExactly(rows, Week, today, r);
    SortSorts(Scoped(rows, Week, today), m);
    WeekIsSevenDays(r.date, today);
  }

  /** The day's board holds exactly the rows of the day, and the whole board every row. */
  lemma {:induction false} OtherBoards(rows: seq<Row>, m: Metric, today: Str, r: Row)
    requires Dated(rows, today)
    ensures r in Listed(rows, Daily, m, today) <==> r in rows && r.date == today
    ensures r in Listed(rows, Global, m, today) <==> r in rows
  {
    ScopedExactly(rows, Daily, today, r);
    ScopedExactly(rows, Global, today, r);
    SortSorts(Scoped(rows, Daily, today), m);
    SortSorts(Scoped(rows, Global, today), m);
  }

  /** What the score route stores is fit to be listed: its rows are filed under real days. */
  lemma {:induction false} StoreIsDated(subs: seq<Submission>, today: Str)
    requires IsDay(today) && Parse(today).value.y >= 1970
    requires forall i :: 0 <= i < |subs| ==> IsDay(subs[i].today)
    ensures Dated(Serve([], subs, true), today)
  {
    StoredDaysAreReal(subs);
  }

  lemma TopOf(list: seq<Row>, m: Metric)
    requires Descending(list, m)
    ensures var top := Take(list, TOP);
      |top| == (if |list| < TOP then |list| else TOP) && Descending(top, m) &&
      forall i, j :: 0 <= i < |top| && |top| <= j < |list| ==> MetricOf(top[i], m) >= MetricOf(list[j], m)
  {
    var top := Take(list, TOP);
    forall i, j | 0 <= i < |top| && i < j < |list| ensures MetricOf(top[i], m) >= MetricOf(list[j], m) {
      assert top[i] == list[i];
    }
  }

  /** The page: the fifty greatest at most, in order, nothing better left out, and everyone counted. */
  lemma {:induction false} PageIsTheTop(rows: seq<Row>, scope: Scope, m: Metric, device: Str, today: Str)
    requires Dated(rows, today)
    ensures var p := BoardPage(rows, scope, m, device, today);
      var list := Listed(rows, scope, m, today);
      |p.entries| == (if p.total < 50 then p.total else 50) && Descending(p.entries, m) &&
      (forall i, j :: 0 <= i < |p.entries| && |p.entries| <= j < |list| ==>
         MetricOf(p.entries[i], m) >= MetricOf(list[j], m)) &&
      multiset(list) == multiset(Scoped(rows, scope, today))
  {
    SortSorts(Scoped(rows, scope, today), m);
    TopOf(Listed(rows, scope, m, today), m);
  }

  lemma {:induction false} SameMembersListed(scoped: seq<Row>, list: seq<Row>, device: Str)
    requires forall x :: x in list <==> x in scoped
    ensures IndexOfDevice(list, device) == -1 <==> forall i :: 0 <= i < |scoped| ==> scoped[i].deviceId != device
  {
    var i := IndexOfDevice(list, device);
    if i >= 0 {
      assert list[i] in scoped;
      var k :| 0 <= k < |scoped| && scoped[k] == list[i];
    } else {
      forall j | 0 <= j < |scoped| ensures scoped[j].deviceId != device {
        assert scoped[j] in list;
      }
    }
  }

  /** The place counts: after all that are better, among those as good. */
  predicate FairPlace(scoped: seq<Row>, list: seq<Row>, m: Metric, rank: nat)
    requires 0 < rank <= |list|
  {
    var v := MetricOf(list[rank - 1], m);
    1 + Count(scoped, Better(m, v)) <= rank <= Count(scoped, AsGood(m, v))
  }

  lemma {:induction false} PlaceIsFair(scoped: seq<Row>, m: Metric, i: nat)
    requires i < |Sort(scoped, m)|
    ensures FairPlace(scoped, Sort(scoped, m), m, i + 1)
  {
    var list := Sort(scoped, m);
    SortSorts(scoped, m);
    PlaceBounds(list, m, i);
    CountOfSort(scoped, m, Better(m, MetricOf(list[i], m)));
    CountOfSort(scoped, m, AsGood(m, MetricOf(list[i], m)));
  }

  /** The rank of a device in a list of these rows. */
  predicate FairRank(scoped: seq<Row>, list: seq<Row>, m: Metric, device: Str, rank: nat) {
    && (rank == 0 <==> forall i :: 0 <= i < |scoped| ==> scoped[i].deviceId != device)
    && (rank > 0 ==> rank <= |list| && list[rank - 1].deviceId == device && FairPlace(scoped, list, m, rank))
  }

  lemma {:induction false} SortedRank(scoped: seq<Row>, m: Metric, device: Str)
    ensures FairRank(scoped, Sort(scoped, m), m, device, IndexOfDevice(Sort(scoped, m), device) + 1)
  {
    var list := Sort(scoped, m);
    SortSorts(scoped, m);
    SameMembersListed(scoped, list, device);
    if IndexOfDevice(list, device) >= 0 {
      PlaceIsFair(scoped, m, IndexOfDevice(list, device));
    }
  }

  /**
   * A device's rank: 0 exactly when it is not listed, and otherwise after all that are better and
   * among those as good.
   */
  lemma {:induction false} RankIsFair(rows: seq<Row>, scope: Scope, m: Metric, device: Str, today: Str)
    requires Dated(rows, today)
    ensures FairRank(
              Scoped(rows, scope, today), Listed(rows, scope, m, today), m, device,
              BoardPage(rows, scope, m, device, today).rank)
  {
    SortedRank(Scoped(rows, scope, today), m, device);
  }

  /* --------------------------------------------------------------- the route's page */

  /** A row goes where a search past the greater ones stops. */
  lemma {:induction false} InsertAt(r: Row, s: seq<Row>, k: nat, m: Metric)
    requires k <= |s| && forall j :: 0 <= j < k ==> MetricOf(s[j], m) > MetricOf(r, m)
    requires k < |s| ==> MetricOf(s[k], m) <= MetricOf(r, m)
    ensures Insert(r, s, m) == s[..k] + ([r] + s[k..])
    decreases k
  {
    if k > 0 {
      var rest := s[1..];
      InsertAt(r, rest, k - 1, m);
      assert rest[k - 1..] == s[k..] && s[..k] == [s[0]] + rest[..k - 1];
      Regroup([s[0]], rest[..k - 1], [r] + s[k..]);
    }
  }

  /** Moves `a[i]` into its place in the sorted rest, before the first row that is no greater. */
  method SettleRow(a: array<Row>, i: nat, m: Metric)
    requires i < a.Length
    modifies a
    ensures forall q :: 0 <= q < i ==> a[q] == old(a[q])
    ensures a[i..] == Insert(old(a[i]), old(a[i + 1..]), m)
  {
    var r := a[i];
    ghost var rest := a[i + 1..];
    var j := i + 1;
    while j < a.Length && MetricOf(a[j], m) > MetricOf(r, m)
      invariant i < j <= a.Length
      invariant forall q :: 0 <= q < i ==> a[q] == old(a[q])
      invariant forall q :: 0 <= q < j - 1 - i ==> MetricOf(rest[q], m) > MetricOf(r, m)
      invariant forall q :: i <= q < j - 1 ==> a[q] == rest[q - i]
      invariant forall q :: j <= q < a.Length ==> a[q] == rest[q - i - 1]
    {
      a[j - 1] := a[j];
      j := j + 1;
    }
    InsertAt(r, rest, j - 1 - i, m);
    a[j - 1] := r;
    Opened(a[i..], r, rest, j - 1 - i);
  }

  /** A list opened at `k` for one more row. */
  lemma Opened(s: seq<Row>, r: Row, rest: seq<Row>, k: nat)
    requires |s| == |rest| + 1 && k <= |rest| && s[k] == r
    requires forall q :: 0 <= q < k ==> s[q] == rest[q]
    requires forall q :: k < q < |s| ==> s[q] == rest[q - 1]
    ensures s == rest[..k] + ([r] + rest[k..])
  {
  }

  /** The stable sort in place, from the back. */
  method SortInPlace(a: array<Row>, m: Metric)
    modifies a
    ensures a[..] == Sort(old(a[..]), m)
  {
    ghost var was := a[..];
    var i := a.Length;
    assert a[i..] == [] && was[i..] == [];
    while i > 0
      invariant i <= a.Length
      invariant a[..i] == was[..i]
      invariant a[i..] == Sort(was[i..], m)
    {
      i := i - 1;
      assert a[..i + 1] == was[..i + 1];
      assert a[i] == was[i] && was[i..] == [was[i]] + was[i + 1..];
      SettleRow(a, i, m);
    }
    assert was[0..] == was && a[0..] == a[..];
  }

  method RankIn(list: array<Row>, device: Str) returns (rank: nat)
    ensures rank == IndexOfDevice(list[..], device) + 1
  {
    var i := 0;
    while i < list.Length && list[i].deviceId != device
      invariant i <= list.Length
      invariant forall j :: 0 <= j < i ==> list[j].deviceId != device
    {
      i := i + 1;
    }
    rank := if i < list.Length then i + 1 else 0;
  }

  lemma {:induction false} SortKeepsLength(s: seq<Row>, m: Metric)
    ensures |Sort(s, m)| == |s|
  {
    SortSorts(s, m);
    assert |multiset(Sort(s, m))| == |multiset(s)|;
  }

  /** Filter, sort in place, find the device, cut. */
  method ReadBoard(rows: seq<Row>, scope: Scope, m: Metric, device: Str, today: Str) returns (p: Page)
    requires Dated(rows, today)
    ensures p == BoardPage(rows, scope, m, device, today)
    ensures Descending(p.entries, m) && p.total == |Scoped(rows, scope, today)|
    ensures |p.entries| == if p.total < TOP then p.total else TOP
    ensures FairRank(Scoped(rows, scope, today), Listed(rows, scope, m, today), m, device, p.rank)
  {
    var scoped := Scoped(rows, scope, today);
    var list := new Row[|scoped|](i requires 0 <= i < |scoped| => scoped[i]);
    assert list[..] == scoped;
    SortInPlace(list, m);
    var rank := RankIn(list, device);
    p := Page(Take(list[..], TOP), rank, list.Length);
    PageIsTheTop(rows, scope, m, device, today);
    RankIsFair(rows, scope, m, device, today);
    SortKeepsLength(scoped, m);
  }
}
