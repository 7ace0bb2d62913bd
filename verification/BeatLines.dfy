/** Marks worth flying at: picking, collapsing and firing them (src/game/BeatLines.ts). */
module BeatLines {
  import opened FlightPhysics
  import opened Numbers
  import opened Text
  import Challenge

  /** In order of priority. */
  datatype Kind = Rival | Best | Daily | Today | Goal

  const BEAT_MAX_LINES: nat := 3
  const BEAT_MIN_GAP := 60
  const BEAT_CUE_WINDOW := 400.0

  function Rank(k: Kind): (r: nat) {
    match k
    case Rival => 0
    case Best => 1
    case Daily => 2
    case Today => 3
    case Goal => 4
  }

  /** A rival outranks the best, then come the day's target, the day's best and a goal. */
  lemma RankOrder()
    ensures Rank(Rival) < Rank(Best) < Rank(Daily) < Rank(Today) < Rank(Goal)
  {
  }

  lemma RankIsInjective(a: Kind, b: Kind)
    ensures Rank(a) == Rank(b) ==> a == b
  {
  }

  datatype Target = Target(kind: Kind, at: int, text: Str, metres: Str)

  /** Everything but the distance: it stays fixed while a run is flown. None in a field is null. */
  datatype Marks = Marks(
    rival: Option<Num>, best: Num, dailyTarget: Option<Num>, todayBest: Num, goalTarget: Option<Num>,
    labels: Kind -> Option<Str>, format: int -> Str)

  function Finite(v: Num, fallback: real): (r: real) {
    if v.Some? then v.value else fallback
  }

  function OrZero(v: Option<Num>): (r: Num) {
    if v.Some? then v.value else Some(0.0)
  }

  function Flown(distance: Num): (d: real)
    ensures d >= 0.0
  {
    Max(0.0, Finite(distance, 0.0))
  }

  function MarkOf(m: Marks, k: Kind): (at: int) {
    Round(Finite(
      match k
      case Rival => OrZero(m.rival)
      case Best => m.best
      case Daily => OrZero(m.dailyTarget)
      case Today => m.todayBest
      case Goal => OrZero(m.goalTarget),
      0.0))
  }

  /** Every mark comes from its own field and from no other. */
  lemma MarkIsItsField(m: Marks, k: Kind, v: real)
    ensures MarkOf(m.(rival := Some(Some(v))), k) == if k == Rival then Round(v) else MarkOf(m, k)
    ensures MarkOf(m.(best := Some(v)), k) == if k == Best then Round(v) else MarkOf(m, k)
    ensures MarkOf(m.(dailyTarget := Some(Some(v))), k) == if k == Daily then Round(v) else MarkOf(m, k)
    ensures MarkOf(m.(todayBest := Some(v)), k) == if k == Today then Round(v) else MarkOf(m, k)
    ensures MarkOf(m.(goalTarget := Some(Some(v))), k) == if k == Goal then Round(v) else MarkOf(m, k)
  {
  }

  /** A field that is null or no number gives a mark of 0, which nobody has to beat. */
  lemma NoMarkIsZero(m: Marks)
    ensures m.rival == None || m.rival == Some(None) ==> MarkOf(m, Rival) == 0
    ensures m.best == None ==> MarkOf(m, Best) == 0
    ensures m.dailyTarget == None || m.dailyTarget == Some(None) ==> MarkOf(m, Daily) == 0
    ensures m.todayBest == None ==> MarkOf(m, Today) == 0
    ensures m.goalTarget == None || m.goalTarget == Some(None) ==> MarkOf(m, Goal) == 0
  {
    assert Round(0.0) == 0;
  }

  /** A distance that is negative or no number counts as 0. */
  lemma FlownLaw(distance: Num)
    ensures Flown(distance) == if distance.Some? && distance.value > 0.0 then distance.value else 0.0
  {
  }

  function DropSpace(s: Str): (r: Str)
    ensures |r| <= |s|
  {
    if s != [] && Challenge.IsSpace(s[0]) then DropSpace(s[1..]) else s
  }

  function DropTrailingSpace(s: Str): (r: Str) {
    if s != [] && Challenge.IsSpace(s[|s| - 1]) then DropTrailingSpace(s[..|s| - 1]) else s
  }

  function Trim(s: Str): (r: Str) {
    DropTrailingSpace(DropSpace(s))
  }

  function LabelOf(m: Marks, k: Kind): (l: Option<Str>) {
    var l := m.labels(k);
    if l.Some? && Trim(l.value) != [] then Some(Trim(l.value)) else None
  }

  /** The mark is worth a flag: it has words, a length, and is still ahead. */
  predicate Shown(m: Marks, d: real, k: Kind) {
    LabelOf(m, k).Some? && MarkOf(m, k) > 0 && MarkOf(m, k) as real > d
  }

  /** The flag of a kind: None when it has no words. */
  function TargetOf(m: Marks, k: Kind): (t: Option<Target>)
    ensures t.Some? ==> t.value.kind == k && t.value.at == MarkOf(m, k)
  {
    if LabelOf(m, k).None? then None
    else Some(Target(k, MarkOf(m, k), LabelOf(m, k).value, m.format(MarkOf(m, k))))
  }

  const PUSHED: seq<Kind> := [Rival, Best, Daily, Today, Goal]

  function Candidates(m: Marks, d: real, kinds: seq<Kind>): (cs: seq<Target>)
    decreases |kinds|
  {
    if kinds == [] then []
    else (if Shown(m, d, kinds[0]) then [TargetOf(m, kinds[0]).value] else []) + Candidates(m, d, kinds[1..])
  }

  /** The candidates are the kinds that have words, a mark of 1 m at least, and it still ahead. */
  lemma {:induction false} CandidatesExactly(m: Marks, d: real, kinds: seq<Kind>, t: Target)
    ensures t in Candidates(m, d, kinds) <==>
            t.kind in kinds && t.at == MarkOf(m, t.kind) && t.at >= 1 && t.at as real > d &&
            LabelOf(m, t.kind) == Some(t.text) && t.metres == m.format(t.at)
    decreases |kinds|
  {
    if kinds != [] {
      CandidatesExactly(m, d, kinds[1..], t);
      assert kinds == [kinds[0]] + kinds[1..];
    }
  }

  /** A label is the given words without the white space around them, and none when nothing is left. */
  lemma LabelLaw(m: Marks, k: Kind)
    ensures var words := m.labels(k);
      LabelOf(m, k).Some? ==> words.Some? && LabelOf(m, k).value != [] && TrimmedOf(words.value, LabelOf(m, k).value)
    ensures m.labels(k).None? ==> LabelOf(m, k).None?
    ensures m.labels(k).Some? && LabelOf(m, k).None? ==>
              forall u :: u in m.labels(k).value ==> Challenge.IsSpace(u)
  {
    if m.labels(k).Some? {
      TrimLaw(m.labels(k).value);
    }
  }

  /** `t` stands in `s` with white space alone before and after it, and neither starts nor ends with any. */
  predicate TrimmedOf(s: Str, t: Str) {
    exists i :: 0 <= i <= |s| - |t| && TrimmedAt(s, t, i)
  }

  predicate TrimmedAt(s: Str, t: Str, i: nat)
    requires i + |t| <= |s|
  {
    && s[i..i + |t|] == t
    && (forall j :: 0 <= j < i ==> Challenge.IsSpace(s[j]))
    && (forall j :: i + |t| <= j < |s| ==> Challenge.IsSpace(s[j]))
    && (t != [] ==> !Challenge.IsSpace(t[0]) && !Challenge.IsSpace(t[|t| - 1]))
  }

  lemma {:induction false} DropSpaceLaw(s: Str)
    ensures var t := DropSpace(s);
      t == s[|s| - |t|..] && (forall j :: 0 <= j < |s| - |t| ==> Challenge.IsSpace(s[j])) &&
      (t != [] ==> !Challenge.IsSpace(t[0]))
  {
    if s != [] && Challenge.IsSpace(s[0]) {
      DropSpaceLaw(s[1..]);
    }
  }

  lemma {:induction false} DropTrailingLaw(s: Str)
    ensures var t := DropTrailingSpace(s);
      |t| <= |s| && t == s[..|t|] && (forall j :: |t| <= j < |s| ==> Challenge.IsSpace(s[j])) &&
      (t != [] ==> !Challenge.IsSpace(t[|t| - 1]))
  {
    if s != [] && Challenge.IsSpace(s[|s| - 1]) {
      DropTrailingLaw(s[..|s| - 1]);
    }
  }

  lemma TrimLaw(s: Str)
    ensures TrimmedOf(s, Trim(s))
    ensures Trim(s) == [] ==> forall u :: u in s ==> Challenge.IsSpace(u)
  {
    var d, t := DropSpace(s), Trim(s);
    DropSpaceLaw(s);
    DropTrailingLaw(d);
    var i := |s| - |d|;
    assert s[i..i + |t|] == t;
    assert TrimmedAt(s, t, i);
  }

  /* ------------------------------------------------------------------ sorting */

  predicate Before(a: Target, b: Target) {
    a.at < b.at || (a.at == b.at && Rank(a.kind) <= Rank(b.kind))
  }

  function Insert(t: Target, s: seq<Target>): (r: seq<Target>) {
    if s == [] || Before(t, s[0]) then [t] + s else [s[0]] + Insert(t, s[1..])
  }

  /** `sort` by distance, ties by priority. */
  function Sort(s: seq<Target>): (r: seq<Target>) {
    if s == [] then [] else Insert(s[0], Sort(s[1..]))
  }

  predicate Sorted(s: seq<Target>) {
    forall i, j :: 0 <= i < j < |s| ==> Before(s[i], s[j])
  }

  lemma {:induction false} InsertSorted(t: Target, s: seq<Target>)
    requires Sorted(s)
    ensures Sorted(Insert(t, s))
    ensures forall x :: x in Insert(t, s) <==> x == t || x in s
    ensures multiset(Insert(t, s)) == multiset(s) + multiset{t}
  {
    if s == [] || Before(t, s[0]) {
    } else {
      InsertSorted(t, s[1..]);
      assert s == [s[0]] + s[1..];
      HeadFirst(s[0], Insert(t, s[1..]));
    }
  }

  lemma HeadFirst(h: Target, s: seq<Target>)
    requires Sorted(s) && forall x :: x in s ==> Before(h, x)
    ensures Sorted([h] + s)
  {
  }

  lemma {:induction false} SortSorts(s: seq<Target>)
    ensures Sorted(Sort(s)) && multiset(Sort(s)) == multiset(s)
    ensures forall x :: x in Sort(s) <==> x in s
  {
    if s != [] {
      SortSorts(s[1..]);
      InsertSorted(s[0], Sort(s[1..]));
      assert s == [s[0]] + s[1..];
    }
  }

  /* ---------------------------------------------------------------- collapsing */

  function Gap(a: int, b: int): (g: nat) {
    if a < b then b - a else a - b
  }

  /** `findIndex` of the first kept mark too close to `at`. */
  function FirstClash(kept: seq<Target>, at: int): (k: nat)
    ensures k <= |kept|
    ensures forall i :: 0 <= i < k ==> Gap(kept[i].at, at) >= BEAT_MIN_GAP
    ensures k < |kept| ==> Gap(kept[k].at, at) < BEAT_MIN_GAP
  {
    if kept == [] || Gap(kept[0].at, at) < BEAT_MIN_GAP then 0 else 1 + FirstClash(kept[1..], at)
  }

  function Admit(kept: seq<Target>, c: Target): (r: seq<Target>) {
    var k := FirstClash(kept, c.at);
    if k == |kept| then kept + [c]
    else if Rank(c.kind) < Rank(kept[k].kind) then kept[k := c]
    else kept
  }

  function AdmitAll(kept: seq<Target>, cs: seq<Target>): (r: seq<Target>)
    decreases |cs|
  {
    if cs == [] then kept else AdmitAll(Admit(kept, cs[0]), cs[1..])
  }

  function Collapsed(m: Marks, d: real): (kept: seq<Target>) {
    AdmitAll([], Sort(Candidates(m, d, PUSHED)))
  }

  function Targets(m: Marks, distance: Num): (ts: seq<Target>) {
    Take(Collapsed(m, Flown(distance)), BEAT_MAX_LINES)
  }

  function Crossed(previousAhead: seq<Target>, distance: Num): (ts: seq<Target>) {
    Filter(previousAhead, (t: Target) => t.at as real <= Flown(distance))
  }

  /* ---------------------------------------------------------- what is collapsed */

  /** Marks stand in order, no two closer than the gap. */
  predicate Spaced(ts: seq<Target>) {
    forall i, j :: 0 <= i < j < |ts| ==> ts[i].at + BEAT_MIN_GAP <= ts[j].at
  }

  /** `k` stands for `c`: it is `c`, or outranks it less than a gap away for each rank between them. */
  predicate StandsFor(k: Target, c: Target) {
    k == c || (Rank(k.kind) < Rank(c.kind) && Gap(k.at, c.at) < BEAT_MIN_GAP * (Rank(c.kind) - Rank(k.kind)))
  }

  predicate Represented(kept: seq<Target>, c: Target) {
    exists i :: 0 <= i < |kept| && StandsFor(kept[i], c)
  }

  lemma StandsForTransitive(a: Target, b: Target, c: Target)
    requires StandsFor(a, b) && StandsFor(b, c)
    ensures StandsFor(a, c)
  {
  }

  lemma {:induction false} ClashIsLast(kept: seq<Target>, at: int)
    requires Spaced(kept) && forall i :: 0 <= i < |kept| ==> kept[i].at <= at
    ensures forall i :: 0 <= i < |kept| - 1 ==> Gap(kept[i].at, at) >= BEAT_MIN_GAP
    ensures FirstClash(kept, at) >= |kept| - 1
  {
    forall i | 0 <= i < |kept| - 1 ensures Gap(kept[i].at, at) >= BEAT_MIN_GAP {
      assert kept[i].at + BEAT_MIN_GAP <= kept[|kept| - 1].at <= at;
    }
  }

  lemma AdmitSpaced(kept: seq<Target>, c: Target)
    requires Spaced(kept) && forall i :: 0 <= i < |kept| ==> kept[i].at <= c.at
    ensures Spaced(Admit(kept, c)) && forall i :: 0 <= i < |Admit(kept, c)| ==> Admit(kept, c)[i].at <= c.at
    ensures forall i :: 0 <= i < |Admit(kept, c)| ==> Admit(kept, c)[i] in kept || Admit(kept, c)[i] == c
  {
    ClashIsLast(kept, c.at);
    var k := FirstClash(kept, c.at);
    if k == |kept| {
      forall i | 0 <= i < |kept| ensures kept[i].at + BEAT_MIN_GAP <= c.at {
        assert Gap(kept[i].at, c.at) >= BEAT_MIN_GAP;
      }
    } else {
      forall i | 0 <= i < k ensures kept[i].at + BEAT_MIN_GAP <= c.at {
        assert Gap(kept[i].at, c.at) >= BEAT_MIN_GAP;
      }
    }
  }

  lemma AdmitRepresents(kept: seq<Target>, c: Target, x: Target)
    requires x == c || Represented(kept, x)
    requires forall i :: 0 <= i < |kept| && kept[i].kind == c.kind ==> kept[i] == c
    ensures Represented(Admit(kept, c), x)
  {
    var k := FirstClash(kept, c.at);
    var r := Admit(kept, c);
    if x == c {
      if k == |kept| {
        assert StandsFor(r[k], c);
      } else if Rank(c.kind) < Rank(kept[k].kind) {
        assert StandsFor(r[k], c);
      } else {
        KeptOutranks(kept[k], c);
        assert StandsFor(r[k], c);
      }
    } else {
      var i :| 0 <= i < |kept| && StandsFor(kept[i], x);
      if k < |kept| && i == k && Rank(c.kind) < Rank(kept[k].kind) {
        ReplacementStandsFor(c, kept[k]);
        StandsForTransitive(c, kept[k], x);
        assert StandsFor(r[k], x);
      } else {
        assert r[i] == kept[i];
      }
    }
  }

  lemma ReplacementStandsFor(c: Target, was: Target)
    requires Rank(c.kind) < Rank(was.kind) && Gap(was.at, c.at) < BEAT_MIN_GAP
    ensures StandsFor(c, was)
  {
  }

  /** Each kind comes with one target, so an incumbent of equal rank is the same mark. */
  lemma KeptOutranks(k: Target, c: Target)
    requires Rank(k.kind) <= Rank(c.kind) && Gap(k.at, c.at) < BEAT_MIN_GAP
    requires k.kind == c.kind ==> k == c
    ensures StandsFor(k, c)
  {
    RankIsInjective(k.kind, c.kind);
  }

  /** The flag of each kind, for one set of marks. */
  function Flags(m: Marks): (f: Kind -> Option<Target>) {
    k => TargetOf(m, k)
  }

  /** Every target is the flag of its kind. */
  predicate OfMarks(f: Kind -> Option<Target>, ts: seq<Target>) {
    forall i :: 0 <= i < |ts| ==> f(ts[i].kind) == Some(ts[i])
  }

  predicate Ahead(d: real, ts: seq<Target>) {
    forall i :: 0 <= i < |ts| ==> ts[i].at > 0 && ts[i].at as real > d
  }

  lemma AdmitKeepsMarks(f: Kind -> Option<Target>, d: real, kept: seq<Target>, c: Target)
    requires OfMarks(f, kept + [c]) && Ahead(d, kept + [c])
    ensures OfMarks(f, Admit(kept, c)) && Ahead(d, Admit(kept, c))
  {
    assert (kept + [c])[|kept|] == c;
    assert forall i :: 0 <= i < |kept| ==> (kept + [c])[i] == kept[i];
  }

  lemma {:induction false} CollapseShape(f: Kind -> Option<Target>, d: real, kept: seq<Target>, cs: seq<Target>)
    requires Spaced(kept) && OfMarks(f, kept) && Ahead(d, kept)
    requires Sorted(cs) && OfMarks(f, cs) && Ahead(d, cs)
    requires forall i :: 0 <= i < |kept| && cs != [] ==> kept[i].at <= cs[0].at
    ensures var r := AdmitAll(kept, cs);
      Spaced(r) && OfMarks(f, r) && Ahead(d, r)
    decreases |cs|
  {
    if cs != [] {
      AdmitSpaced(kept, cs[0]);
      AdmitKeepsMarks(f, d, kept, cs[0]);
      CollapseShape(f, d, Admit(kept, cs[0]), cs[1..]);
    }
  }

  lemma SameKindSame(f: Kind -> Option<Target>, kept: seq<Target>, c: Target)
    requires OfMarks(f, kept) && f(c.kind) == Some(c)
    ensures forall i :: 0 <= i < |kept| && kept[i].kind == c.kind ==> kept[i] == c
  {
  }

  /** Whatever is collapsed away is stood for by a kept mark. */
  lemma {:induction false} CollapseRepresents(
      f: Kind -> Option<Target>, d: real, kept: seq<Target>, cs: seq<Target>, x: Target)
    requires OfMarks(f, kept) && OfMarks(f, cs) && Ahead(d, kept) && Ahead(d, cs)
    requires x in cs || Represented(kept, x)
    ensures Represented(AdmitAll(kept, cs), x)
    decreases |cs|
  {
    if cs != [] {
      var c := cs[0];
      SameKindSame(f, kept, c);
      AdmitKeepsMarks(f, d, kept, c);
      if x == c || Represented(kept, x) {
        AdmitRepresents(kept, c, x);
      } else {
        assert x in cs[1..];
      }
      CollapseRepresents(f, d, Admit(kept, c), cs[1..], x);
    }
  }

  lemma {:induction false} CandidatesFrom(m: Marks, d: real, kinds: seq<Kind>)
    ensures OfMarks(Flags(m), Candidates(m, d, kinds)) && Ahead(d, Candidates(m, d, kinds))
    ensures forall k :: k in kinds && Shown(m, d, k) ==> TargetOf(m, k).value in Candidates(m, d, kinds)
    decreases |kinds|
  {
    if kinds != [] {
      CandidatesFrom(m, d, kinds[1..]);
    }
  }

  lemma {:induction false} SortedMarks(m: Marks, d: real)
    ensures var cs := Sort(Candidates(m, d, PUSHED));
      Sorted(cs) && OfMarks(Flags(m), cs) && Ahead(d, cs) &&
      forall k: Kind :: Shown(m, d, k) ==> TargetOf(m, k).value in cs
  {
    CandidatesFrom(m, d, PUSHED);
    var all := Candidates(m, d, PUSHED);
    SortSorts(all);
    var cs := Sort(all);
    forall i | 0 <= i < |cs|
      ensures Flags(m)(cs[i].kind) == Some(cs[i]) && cs[i].at > 0 && cs[i].at as real > d
    {
      assert cs[i] in all;
    }
    forall k: Kind | Shown(m, d, k) ensures TargetOf(m, k).value in cs {
      PushedIsAll(k);
    }
  }

  lemma PushedIsAll(k: Kind)
    ensures k in PUSHED
  {
    assert PUSHED[Rank(k)] == k;
  }

  lemma CollapsedShape(m: Marks, d: real)
    ensures var ts := Collapsed(m, d);
      Spaced(ts) && Ahead(d, ts) && OfMarks(Flags(m), ts)
  {
    SortedMarks(m, d);
    CollapseShape(Flags(m), d, [], Sort(Candidates(m, d, PUSHED)));
  }

  lemma TakeShape(f: Kind -> Option<Target>, d: real, ts: seq<Target>, n: nat)
    requires Spaced(ts) && Ahead(d, ts) && OfMarks(f, ts)
    ensures var r := Take(ts, n);
      |r| <= n && Spaced(r) && Ahead(d, r) && OfMarks(f, r)
  {
  }

  /** Targets are ahead, in order, a gap or more apart, three at most, each its kind's own mark. */
  lemma TargetsShape(m: Marks, distance: Num)
    ensures var ts := Targets(m, distance);
      |ts| <= BEAT_MAX_LINES && Spaced(ts) && Ahead(Flown(distance), ts) && OfMarks(Flags(m), ts)
  {
    CollapsedShape(m, Flown(distance));
    TakeShape(Flags(m), Flown(distance), Collapsed(m, Flown(distance)), BEAT_MAX_LINES);
  }

  /** Every mark worth showing is kept, or stood for by one that outranks it less than a gap per rank away. */
  lemma EveryMarkIsRepresented(m: Marks, d: real, k: Kind)
    requires Shown(m, d, k)
    ensures Represented(Collapsed(m, d), TargetOf(m, k).value)
  {
    SortedMarks(m, d);
    CollapseRepresents(Flags(m), d, [], Sort(Candidates(m, d, PUSHED)), TargetOf(m, k).value);
  }

  /** Nothing outranks the rival, so it is never collapsed away. */
  lemma RivalIsKept(m: Marks, d: real)
    requires Shown(m, d, Rival)
    ensures TargetOf(m, Rival).value in Collapsed(m, d)
  {
    EveryMarkIsRepresented(m, d, Rival);
  }

  lemma {:induction false} FarInTheLine(d: real, ts: seq<Target>, i: nat)
    requires Spaced(ts) && Ahead(d, ts) && i < |ts|
    ensures ts[i].at as real > d + (BEAT_MIN_GAP * i) as real
  {
    if i > 0 {
      FarInTheLine(d, ts, i - 1);
      assert ts[i - 1].at + BEAT_MIN_GAP <= ts[i].at;
    }
  }

  /** Within 180 metres ahead the rival has at most two marks before it. */
  lemma NearRivalIsShown(m: Marks, distance: Num)
    requires Shown(m, Flown(distance), Rival)
    requires MarkOf(m, Rival) as real <= Flown(distance) + 180.0
    ensures TargetOf(m, Rival).value in Targets(m, distance)
  {
    RivalIsKept(m, Flown(distance));
    CollapsedShape(m, Flown(distance));
    NearIsFirst(Flown(distance), Collapsed(m, Flown(distance)), TargetOf(m, Rival).value);
  }

  lemma NearIsFirst(d: real, ts: seq<Target>, t: Target)
    requires Spaced(ts) && Ahead(d, ts) && t in ts && t.at as real <= d + 180.0
    ensures t in Take(ts, BEAT_MAX_LINES)
  {
    var i :| 0 <= i < |ts| && ts[i] == t;
    FarInTheLine(d, ts, i);
    assert Take(ts, BEAT_MAX_LINES)[i] == t;
  }

  /* ---------------------------------------------------------------------- runs */

  /** The mark of `k` fires between two frames: it was ahead in the line and now is passed. */
  predicate Fires(m: Marks, k: Kind, from: Num, to: Num) {
    exists t :: t in Crossed(Targets(m, from), to) && t.kind == k
  }

  lemma {:induction false} InFilter<T>(s: seq<T>, p: T -> bool, x: T)
    ensures x in Filter(s, p) <==> x in s && p(x)
  {
    if s != [] {
      InFilter(s[1..], p, x);
    }
  }

  lemma CrossedExactly(ts: seq<Target>, distance: Num, t: Target)
    ensures t in Crossed(ts, distance) <==> t in ts && t.at as real <= Flown(distance)
  {
    InFilter(ts, (u: Target) => u.at as real <= Flown(distance), t);
  }

  /** What fires was ahead and is passed. */
  lemma FiresOnlyWhenPassed(m: Marks, k: Kind, from: Num, to: Num)
    requires Fires(m, k, from, to)
    ensures Flown(from) < MarkOf(m, k) as real <= Flown(to)
  {
    var t :| t in Crossed(Targets(m, from), to) && t.kind == k;
    CrossedExactly(Targets(m, from), to, t);
    TargetsShape(m, from);
    var i :| 0 <= i < |Targets(m, from)| && Targets(m, from)[i] == t;
  }

  function Previous(d: Num, ds: seq<Num>, i: nat): (p: Num)
    requires i < |ds|
  {
    if i == 0 then d else ds[i - 1]
  }

  /** Each frame's distance is no less than the one before, once the numbers are cleaned. */
  predicate Forward(d: Num, ds: seq<Num>) {
    forall i :: 0 <= i < |ds| ==> Flown(Previous(d, ds, i)) <= Flown(ds[i])
  }

  predicate StepsAtMost(d: Num, ds: seq<Num>, limit: real) {
    forall i :: 0 <= i < |ds| ==> Flown(ds[i]) <= Flown(Previous(d, ds, i)) + limit
  }

  function FireCount(m: Marks, k: Kind, d: Num, ds: seq<Num>): (n: nat)
    decreases |ds|
  {
    if ds == [] then 0 else (if Fires(m, k, d, ds[0]) then 1 else 0) + FireCount(m, k, ds[0], ds[1..])
  }

  function End(d: Num, ds: seq<Num>): (e: Num) {
    if ds == [] then d else ds[|ds| - 1]
  }

  lemma ForwardRest(d: Num, ds: seq<Num>, limit: real)
    requires ds != []
    ensures Forward(d, ds) ==> Flown(d) <= Flown(ds[0]) && Forward(ds[0], ds[1..])
    ensures StepsAtMost(d, ds, limit) ==> Flown(ds[0]) <= Flown(d) + limit && StepsAtMost(ds[0], ds[1..], limit)
    ensures End(d, ds) == End(ds[0], ds[1..])
  {
    forall i | 0 <= i < |ds| - 1
      ensures Previous(ds[0], ds[1..], i) == Previous(d, ds, i + 1) && ds[1..][i] == ds[i + 1]
    {
    }
    assert Previous(d, ds, 0) == d;
  }

  lemma {:induction false} EndIsFurthest(d: Num, ds: seq<Num>)
    requires Forward(d, ds)
    ensures Flown(d) <= Flown(End(d, ds))
    decreases |ds|
  {
    if ds != [] {
      ForwardRest(d, ds, 0.0);
      EndIsFurthest(ds[0], ds[1..]);
    }
  }

  lemma {:induction false} PassedNeverFires(m: Marks, k: Kind, d: Num, ds: seq<Num>)
    requires Forward(d, ds) && MarkOf(m, k) as real <= Flown(d)
    ensures FireCount(m, k, d, ds) == 0
    decreases |ds|
  {
    if ds != [] {
      ForwardRest(d, ds, 0.0);
      if Fires(m, k, d, ds[0]) {
        FiresOnlyWhenPassed(m, k, d, ds[0]);
      }
      PassedNeverFires(m, k, ds[0], ds[1..]);
    }
  }

  /** In any forward run each mark fires at most once, and only if the run passes it. */
  lemma {:induction false} FiresAtMostOnce(m: Marks, k: Kind, d: Num, ds: seq<Num>)
    requires Forward(d, ds)
    ensures FireCount(m, k, d, ds) <= 1
    ensures FireCount(m, k, d, ds) == 1 ==> Flown(d) < MarkOf(m, k) as real <= Flown(End(d, ds))
    decreases |ds|
  {
    if ds != [] {
      ForwardRest(d, ds, 0.0);
      EndIsFurthest(ds[0], ds[1..]);
      if Fires(m, k, d, ds[0]) {
        FiresOnlyWhenPassed(m, k, d, ds[0]);
        PassedNeverFires(m, k, ds[0], ds[1..]);
      } else {
        FiresAtMostOnce(m, k, ds[0], ds[1..]);
      }
    }
  }

  lemma PassingFiresTheRival(m: Marks, from: Num, to: Num)
    requires LabelOf(m, Rival).Some? && MarkOf(m, Rival) > 0
    requires Flown(from) < MarkOf(m, Rival) as real <= Flown(to) <= Flown(from) + 180.0
    ensures Fires(m, Rival, from, to)
  {
    NearRivalIsShown(m, from);
    CrossedExactly(Targets(m, from), to, TargetOf(m, Rival).value);
  }

  /**
   * With steps of at most 180 metres the rival's mark fires exactly once when it is passed, however
   * the line is collapsed and cut.
   */
  lemma {:induction false} RivalFiresExactlyOnce(m: Marks, d: Num, ds: seq<Num>)
    requires LabelOf(m, Rival).Some? && MarkOf(m, Rival) > 0
    requires Forward(d, ds) && StepsAtMost(d, ds, 180.0)
    ensures FireCount(m, Rival, d, ds) == if Flown(d) < MarkOf(m, Rival) as real <= Flown(End(d, ds)) then 1 else 0
    decreases |ds|
  {
    if ds != [] {
      ForwardRest(d, ds, 180.0);
      EndIsFurthest(ds[0], ds[1..]);
      if Flown(d) < MarkOf(m, Rival) as real <= Flown(ds[0]) {
        PassingFiresTheRival(m, d, ds[0]);
        PassedNeverFires(m, Rival, ds[0], ds[1..]);
      } else {
        if Fires(m, Rival, d, ds[0]) {
          FiresOnlyWhenPassed(m, Rival, d, ds[0]);
        }
        RivalFiresExactlyOnce(m, ds[0], ds[1..]);
      }
    }
  }

  /* ------------------------------------------------------------- the sharp limit */

  /** Marks at 1, 61, 121 and, for the rival, 181 metres. */
  function Crowded(): (m: Marks) {
    Marks(Some(Some(181.0)), Some(121.0), Some(Some(61.0)), Some(1.0), None, k => Some(['x' as int]), n => [])
  }

  lemma CrowdedLabels(k: Kind)
    ensures LabelOf(Crowded(), k) == Some(['x' as int])
  {
    var x: Str := ['x' as int];
    assert DropSpace(x) == x && DropTrailingSpace(x) == x;
  }

  lemma CrowdedMark(d: real, k: Kind, at: int)
    requires 0.0 <= d < 1.0 && k != Goal && at == 181 - 60 * Rank(k)
    ensures exists i :: 0 <= i < |Collapsed(Crowded(), d)| && Collapsed(Crowded(), d)[i].at == at
  {
    var m := Crowded();
    CrowdedLabels(k);
    assert MarkOf(m, k) == at;
    EveryMarkIsRepresented(m, d, k);
    var kept := Collapsed(m, d);
    CollapsedShape(m, d);
    var i :| 0 <= i < |kept| && StandsFor(kept[i], TargetOf(m, k).value);
    CrowdedStandsAlone(m, kept[i], k);
  }

  /** The marks stand exactly a gap a rank apart, so none stands for another. */
  lemma CrowdedStandsAlone(m: Marks, t: Target, k: Kind)
    requires m == Crowded() && k != Goal && TargetOf(m, k).Some?
    requires TargetOf(m, t.kind) == Some(t) && StandsFor(t, TargetOf(m, k).value)
    ensures t.at == MarkOf(m, k)
  {
    assert MarkOf(m, k) == 181 - 60 * Rank(k);
    assert MarkOf(m, t.kind) == 181 - 60 * Rank(t.kind);
  }

  lemma FourthInLine(ts: seq<Target>, a: nat, b: nat, c: nat)
    requires Spaced(ts) && a < |ts| && b < |ts| && c < |ts| && ts[a].at < ts[b].at < ts[c].at
    ensures forall r :: 0 <= r < |ts| && ts[r].at > ts[c].at ==> r >= 3
  {
    assert a < b < c;
  }

  lemma CrowdedTargets(d: real)
    requires 0.0 <= d < 1.0
    ensures forall i :: 0 <= i < |Targets(Crowded(), Some(d))| ==> Targets(Crowded(), Some(d))[i].at != 181
  {
    var kept := Collapsed(Crowded(), d);
    CrowdedMark(d, Today, 1);
    CrowdedMark(d, Daily, 61);
    CrowdedMark(d, Best, 121);
    CollapsedShape(Crowded(), d);
    CutTheFourth(kept);
  }

  lemma CutTheFourth(ts: seq<Target>)
    requires Spaced(ts)
    requires exists i :: 0 <= i < |ts| && ts[i].at == 1
    requires exists i :: 0 <= i < |ts| && ts[i].at == 61
    requires exists i :: 0 <= i < |ts| && ts[i].at == 121
    ensures forall i :: 0 <= i < |Take(ts, 3)| ==> Take(ts, 3)[i].at != 181
  {
    var a :| 0 <= a < |ts| && ts[a].at == 1;
    var b :| 0 <= b < |ts| && ts[b].at == 61;
    var c :| 0 <= c < |ts| && ts[c].at == 121;
    FourthInLine(ts, a, b, c);
  }

  lemma FiringNeedsATarget(m: Marks, k: Kind, from: Num, to: Num)
    requires Fires(m, k, from, to)
    ensures exists i :: 0 <= i < |Targets(m, from)| && Targets(m, from)[i].at == MarkOf(m, k)
  {
    var t :| t in Crossed(Targets(m, from), to) && t.kind == k;
    CrossedExactly(Targets(m, from), to, t);
    TargetsShape(m, from);
    var i :| 0 <= i < |Targets(m, from)| && Targets(m, from)[i] == t;
    assert Flags(m)(k) == Some(t);
  }

  /** Any longer step can carry the bird over the rival's mark without firing it. */
  lemma StepLimitIsSharp(d: real, step: real)
    requires step > 180.0 && d == Max(0.0, 181.0 - step)
    ensures 0.0 <= d < MarkOf(Crowded(), Rival) as real <= d + step
    ensures !Fires(Crowded(), Rival, Some(d), Some(d + step))
  {
    CrowdedRival();
    CrowdedTargets(d);
    NotFired(Crowded(), Some(d), Some(d + step));
  }

  lemma CrowdedRival()
    ensures MarkOf(Crowded(), Rival) == 181
  {
  }

  lemma NotFired(m: Marks, from: Num, to: Num)
    requires forall i :: 0 <= i < |Targets(m, from)| ==> Targets(m, from)[i].at != MarkOf(m, Rival)
    ensures !Fires(m, Rival, from, to)
  {
    if Fires(m, Rival, from, to) {
      FiringNeedsATarget(m, Rival, from, to);
    }
  }

  /* ------------------------------------------------------------------- the loops */

  method Push(m: Marks, d: real, kind: Kind, candidates: seq<Target>) returns (cs: seq<Target>)
    ensures cs == candidates + Candidates(m, d, [kind])
  {
    var metres := MarkOf(m, kind);
    var text := LabelOf(m, kind);
    assert [kind][1..] == [];
    if text.None? || metres <= 0 || metres as real <= d {
      return candidates;
    }
    cs := candidates + [Target(kind, metres, text.value, m.format(metres))];
  }

  lemma {:induction false} PushOneMore(m: Marks, d: real, kinds: seq<Kind>, i: nat)
    requires i < |kinds|
    ensures Candidates(m, d, kinds[..i]) + Candidates(m, d, [kinds[i]]) == Candidates(m, d, kinds[..i + 1])
  {
    CandidatesConcat(m, d, kinds[..i], [kinds[i]]);
    assert kinds[..i] + [kinds[i]] == kinds[..i + 1];
  }

  lemma {:induction false} CandidatesConcat(m: Marks, d: real, a: seq<Kind>, b: seq<Kind>)
    ensures Candidates(m, d, a + b) == Candidates(m, d, a) + Candidates(m, d, b)
    decreases |a|
  {
    if a == [] {
      assert a + b == b;
    } else {
      CandidatesConcat(m, d, a[1..], b);
      assert (a + b)[1..] == a[1..] + b;
    }
  }

  method AllCandidates(m: Marks, d: real) returns (cs: seq<Target>)
    ensures cs == Candidates(m, d, PUSHED)
  {
    cs := [];
    var i := 0;
    while i < |PUSHED|
      invariant i <= |PUSHED|
      invariant cs == Candidates(m, d, PUSHED[..i])
    {
      PushOneMore(m, d, PUSHED, i);
      cs := Push(m, d, PUSHED[i], cs);
      i := i + 1;
    }
    assert PUSHED[..i] == PUSHED;
  }

  method Collapse(cs: seq<Target>) returns (kept: seq<Target>)
    ensures kept == AdmitAll([], cs)
  {
    kept := [];
    var i := 0;
    assert cs[0..] == cs;
    while i < |cs|
      invariant i <= |cs|
      invariant AdmitAll(kept, cs[i..]) == AdmitAll([], cs)
    {
      assert cs[i..][1..] == cs[i + 1..];
      var c := cs[i];
      i := i + 1;
      var clash := FirstClash(kept, c.at);
      if clash == |kept| {
        kept := kept + [c];
        continue;
      }
      var incumbent := kept[clash];
      if Rank(c.kind) < Rank(incumbent.kind) {
        kept := kept[clash := c];
      }
    }
  }

  /** The line ahead: in order, spaced, cut to three. */
  method BeatTargets(m: Marks, distance: Num) returns (ts: seq<Target>)
    ensures ts == Targets(m, distance)
    ensures |ts| <= BEAT_MAX_LINES && Spaced(ts) && Ahead(Flown(distance), ts)
  {
    TargetsShape(m, distance);
    var cs := AllCandidates(m, Flown(distance));
    var kept := Collapse(Sort(cs));
    ts := Take(kept, BEAT_MAX_LINES);
  }

  predicate InWindow(t: Target, d: real, window: real) {
    0.0 < t.at as real - d <= window
  }

  /** The window is 400 m unless another is given; it takes in its far end and leaves out where the bird is. */
  lemma WindowLaw(t: Target, d: real, cueWindow: Num)
    ensures var window := if cueWindow.None? then 400.0 else Max(0.0, cueWindow.value);
      InWindow(t, d, Max(0.0, Finite(cueWindow, BEAT_CUE_WINDOW))) <==> d < t.at as real <= d + window
  {
  }

  /** The first of the nearest targets within the window, or none when the window is empty. */
  method NearestBeatLine(targets: seq<Target>, distance: Num, cueWindow: Num) returns (best: Option<Target>)
    ensures var d := Flown(distance);
      var window := Max(0.0, Finite(cueWindow, BEAT_CUE_WINDOW));
      (best.None? <==> NoneInWindow(targets, d, window)) &&
      (best.Some? ==> IsNearest(targets, d, window, best.value))
  {
    var d := Flown(distance);
    var window := Max(0.0, Finite(cueWindow, BEAT_CUE_WINDOW));
    best := None;
    var i := 0;
    while i < |targets|
      invariant i <= |targets|
      invariant best.None? <==> NoneInWindow(targets[..i], d, window)
      invariant best.Some? ==> IsNearest(targets[..i], d, window, best.value)
    {
      var t := targets[i];
      var gap := t.at as real - d;
      if gap > 0.0 && gap <= window {
        if best.None? || gap < best.value.at as real - d {
          NewNearest(targets, d, window, best, i);
          best := Some(t);
          assert targets[..i + 1][i] == t;
        } else {
          StillNearest(targets, d, window, best.value, i);
        }
      } else if best.Some? {
        StillNearest(targets, d, window, best.value, i);
      }
      OneMoreTarget(targets, d, window, i);
      i := i + 1;
    }
    assert targets[..i] == targets;
  }

  predicate NoneInWindow(ts: seq<Target>, d: real, window: real) {
    forall j :: 0 <= j < |ts| ==> !InWindow(ts[j], d, window)
  }

  lemma OneMoreTarget(ts: seq<Target>, d: real, window: real, i: nat)
    requires i < |ts|
    ensures NoneInWindow(ts[..i + 1], d, window) <==> NoneInWindow(ts[..i], d, window) && !InWindow(ts[i], d, window)
  {
    assert ts[..i + 1][i] == ts[i];
    assert forall j :: 0 <= j < i ==> ts[..i + 1][j] == ts[..i][j];
  }

  predicate IsNearest(ts: seq<Target>, d: real, window: real, t: Target) {
    exists k :: 0 <= k < |ts| && IsNearestAt(ts, d, window, t, k)
  }

  predicate IsNearestAt(ts: seq<Target>, d: real, window: real, t: Target, k: nat)
    requires k < |ts|
  {
    && ts[k] == t
    && InWindow(t, d, window)
    && (forall j :: 0 <= j < |ts| && InWindow(ts[j], d, window) ==> t.at <= ts[j].at)
    && (forall j :: 0 <= j < k && InWindow(ts[j], d, window) ==> t.at < ts[j].at)
  }

  lemma NewNearest(ts: seq<Target>, d: real, window: real, best: Option<Target>, i: nat)
    requires i < |ts| && InWindow(ts[i], d, window)
    requires best.None? ==> NoneInWindow(ts[..i], d, window)
    requires best.Some? ==> IsNearest(ts[..i], d, window, best.value) && ts[i].at < best.value.at
    ensures IsNearest(ts[..i + 1], d, window, ts[i])
  {
    assert forall j :: 0 <= j < i ==> ts[..i + 1][j] == ts[..i][j];
    assert IsNearestAt(ts[..i + 1], d, window, ts[i], i);
  }

  lemma StillNearest(ts: seq<Target>, d: real, window: real, t: Target, i: nat)
    requires i < |ts| && IsNearest(ts[..i], d, window, t)
    requires InWindow(ts[i], d, window) ==> t.at <= ts[i].at
    ensures IsNearest(ts[..i + 1], d, window, t)
  {
    var k :| 0 <= k < |ts[..i]| && IsNearestAt(ts[..i], d, window, t, k);
    assert ts[..i + 1][..i] == ts[..i];
    assert forall j :: 0 <= j < i ==> ts[..i + 1][j] == ts[..i][j];
    assert IsNearestAt(ts[..i + 1], d, window, t, k);
  }

  /** In a line of targets the nearest is simply the first, when that is near enough. */
  lemma NearestIsFirst(m: Marks, distance: Num, window: real, t: Target)
    requires IsNearest(Targets(m, distance), Flown(distance), window, t)
    ensures t == Targets(m, distance)[0]
  {
    TargetsShape(m, distance);
    FirstIsNearest(Targets(m, distance), Flown(distance), window, t);
  }

  lemma FirstIsNearest(ts: seq<Target>, d: real, window: real, t: Target)
    requires Spaced(ts) && Ahead(d, ts) && IsNearest(ts, d, window, t)
    ensures t == ts[0]
  {
    var k :| 0 <= k < |ts| && IsNearestAt(ts, d, window, t, k);
    if k > 0 {
      assert ts[0].at + BEAT_MIN_GAP <= ts[k].at;
      assert InWindow(ts[0], d, window);
    }
  }
}
