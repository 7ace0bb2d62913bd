/**
 * Feature-flag overrides: their text, and the session that caches them (src/game/Flags.ts). A flag is
 * ruled by the address, then by what is stored, then by its default.
 */
module Flags {
  import opened Text
  import opened Uri
  import Form

  const COMMA: Unit := ',' as int
  const COLON: Unit := ':' as int
  const ON: Str := ['o' as int, 'n' as int]
  const OFF: Str := ['o' as int, 'f' as int, 'f' as int]
  const ZERO: Str := ['0' as int]
  const FALSE: Str := ['f' as int, 'a' as int, 'l' as int, 's' as int, 'e' as int]
  const FF: Str := ['f' as int, 'f' as int]

  /** Every compiled default is on. */
  const DEFAULT := true

  datatype Entry = Entry(key: Str, on: bool)

  /** An override object: entries in insertion order. */
  type Overrides = seq<Entry>

  predicate IsLetter(u: int) {
    IsAlnum(u) && !IsDigit(u)
  }

  /** A letter, then letters and digits. */
  predicate IsName(k: Str) {
    k != [] && IsLetter(k[0]) && forall u :: u in k ==> IsAlnum(u)
  }

  predicate Distinct(m: Overrides) {
    forall i, j :: 0 <= i < j < |m| ==> m[i].key != m[j].key
  }

  predicate Named(m: Overrides) {
    forall i :: 0 <= i < |m| ==> IsName(m[i].key)
  }

  predicate Valid(m: Overrides) {
    Distinct(m) && Named(m)
  }

  function Lookup(m: Overrides, k: Str): (v: Option<bool>) {
    if m == [] then None else if m[0].key == k then Some(m[0].on) else Lookup(m[1..], k)
  }

  /** Assigning a property keeps its place, or adds it at the end. */
  function Put(m: Overrides, k: Str, v: bool): (r: Overrides) {
    if m == [] then [Entry(k, v)]
    else if m[0].key == k then [Entry(k, v)] + m[1..]
    else [m[0]] + Put(m[1..], k, v)
  }

  /** The key and value of `k:v`; a part without a colon has an undefined value, which is not off. */
  function ReadPart(part: Str): (e: Entry) {
    var fields := Split(part, COLON);
    Entry(fields[0], |fields| == 1 || (fields[1] != OFF && fields[1] != ZERO && fields[1] != FALSE))
  }

  function ReadParts(m: Overrides, parts: seq<Str>): (r: Overrides)
    decreases |parts|
  {
    if parts == [] then m
    else
      var e := ReadPart(parts[0]);
      ReadParts(if IsName(e.key) then Put(m, e.key, e.on) else m, parts[1..])
  }

  function Parse(raw: Option<Str>): (m: Overrides) {
    if raw.None? || raw.value == [] then [] else ReadParts([], Split(raw.value, COMMA))
  }

  function WriteEntry(e: Entry): (s: Str) {
    e.key + [COLON] + if e.on then ON else OFF
  }

  function WriteEntries(m: Overrides): (parts: seq<Str>)
    ensures |parts| == |m| && forall i :: 0 <= i < |m| ==> parts[i] == WriteEntry(m[i])
  {
    if m == [] then [] else [WriteEntry(m[0])] + WriteEntries(m[1..])
  }

  function Encode(m: Overrides): (s: Str) {
    Join(WriteEntries(m), COMMA)
  }

  /** A key starts with a letter and goes on with letters and digits. */
  lemma NameLaw(k: Str)
    ensures IsName(k) <==>
            k != [] && (65 <= k[0] <= 90 || 97 <= k[0] <= 122) &&
            forall i :: 0 <= i < |k| ==> 48 <= k[i] <= 57 || 65 <= k[i] <= 90 || 97 <= k[i] <= 122
  {
    if IsName(k) {
      forall i | 0 <= i < |k| ensures IsAlnum(k[i]) {
        assert k[i] in k;
      }
    }
  }

  /** What follows the first colon turns a flag off exactly when it is "off", "0" or "false". */
  lemma ReadPartLaw(key: Str, value: Str)
    requires COLON !in key && COLON !in value
    ensures ReadPart(key + [58] + value) ==
            Entry(key, value != [111, 102, 102] && value != [48] && value != [102, 97, 108, 115, 101])
    ensures ReadPart(key) == Entry(key, true)
  {
    SplitFirst(key, value, COLON);
    SplitWhole(value, COLON);
    SplitWhole(key, COLON);
  }

  /** A flag is written with its key, a colon, and "on" or "off". */
  lemma WriteEntryLaw(e: Entry)
    ensures WriteEntry(e) == e.key + [58] + if e.on then [111, 110] else [111, 102, 102]
  {
  }

  /* ------------------------------------------------------------- the overrides */

  lemma {:induction false} LookupOfPut(m: Overrides, k: Str, v: bool, other: Str)
    ensures Lookup(Put(m, k, v), other) == if other == k then Some(v) else Lookup(m, other)
  {
    if m != [] && m[0].key != k {
      LookupOfPut(m[1..], k, v, other);
    }
  }

  lemma {:induction false} PutKeys(m: Overrides, k: Str, v: bool, i: nat)
    requires i < |Put(m, k, v)|
    ensures Put(m, k, v)[i].key == k || exists j :: 0 <= j < |m| && m[j].key == Put(m, k, v)[i].key
  {
    if m != [] {
      if i == 0 {
        assert m[0].key == Put(m, k, v)[0].key;
      } else if m[0].key == k {
        assert m[i] == Put(m, k, v)[i];
      } else {
        PutKeys(m[1..], k, v, i - 1);
        if Put(m, k, v)[i].key != k {
          var j :| 0 <= j < |m[1..]| && m[1..][j].key == Put(m, k, v)[i].key;
          assert m[j + 1].key == Put(m, k, v)[i].key;
        }
      }
    }
  }

  lemma {:induction false} PutKeepsValid(m: Overrides, k: Str, v: bool)
    requires Valid(m) && IsName(k)
    ensures Valid(Put(m, k, v))
  {
    if m != [] {
      var rest := m[1..];
      if m[0].key == k {
        ConsValid(Entry(k, v), rest);
      } else {
        PutKeepsValid(rest, k, v);
        forall i | 0 <= i < |Put(rest, k, v)| ensures Put(rest, k, v)[i].key != m[0].key {
          PutKeys(rest, k, v, i);
        }
        ConsValid(m[0], Put(rest, k, v));
      }
    }
  }

  lemma ConsValid(e: Entry, m: Overrides)
    requires Valid(m) && IsName(e.key) && forall i :: 0 <= i < |m| ==> m[i].key != e.key
    ensures Valid([e] + m)
  {
  }

  lemma {:induction false} ReadKeepsValid(m: Overrides, parts: seq<Str>)
    requires Valid(m)
    ensures Valid(ReadParts(m, parts))
    decreases |parts|
  {
    if parts != [] {
      var e := ReadPart(parts[0]);
      if IsName(e.key) {
        PutKeepsValid(m, e.key, e.on);
      }
      ReadKeepsValid(if IsName(e.key) then Put(m, e.key, e.on) else m, parts[1..]);
    }
  }

  lemma ParseIsValid(raw: Option<Str>)
    ensures Valid(Parse(raw))
  {
    if raw.Some? && raw.value != [] {
      ReadKeepsValid([], Split(raw.value, COMMA));
    }
  }

  /* ------------------------------------------------------------- the round trip */

  lemma ReadWritten(e: Entry)
    requires IsName(e.key)
    ensures ReadPart(WriteEntry(e)) == e
    ensures COMMA !in WriteEntry(e)
  {
    var v := if e.on then ON else OFF;
    SplitFirst(e.key, v, COLON);
    SplitWhole(v, COLON);
  }

  lemma {:induction false} PutNew(m: Overrides, e: Entry)
    requires forall i :: 0 <= i < |m| ==> m[i].key != e.key
    ensures Put(m, e.key, e.on) == m + [e]
  {
    if m != [] {
      PutNew(m[1..], e);
      assert m + [e] == [m[0]] + (m[1..] + [e]);
    }
  }

  lemma {:induction false} ReadAllWritten(m: Overrides, more: Overrides)
    requires Valid(m + more)
    ensures ReadParts(m, WriteEntries(more)) == m + more
    decreases |more|
  {
    if more == [] {
      assert m + more == m;
    } else {
      assert (m + more)[|m|] == more[0];
      ReadWritten(more[0]);
      PutNext(m, more);
      assert m + [more[0]] + more[1..] == m + more;
      ReadAllWritten(m + [more[0]], more[1..]);
    }
  }

  lemma {:induction false} PutNext(m: Overrides, more: Overrides)
    requires Distinct(m + more) && more != []
    ensures Put(m, more[0].key, more[0].on) == m + [more[0]]
  {
    forall i | 0 <= i < |m| ensures m[i].key != more[0].key {
      assert (m + more)[i] == m[i] && (m + more)[|m|] == more[0];
    }
    PutNew(m, more[0]);
  }

  /** Parsing the string a write stores gives back the same override map, order included. */
  lemma ParseEncode(m: Overrides)
    requires Valid(m)
    ensures Parse(Some(Encode(m))) == m
  {
    if m != [] {
      var parts := WriteEntries(m);
      forall i | 0 <= i < |parts| ensures COMMA !in parts[i] {
        ReadWritten(m[i]);
      }
      SplitJoin(parts, COMMA);
      JoinNotEmpty(parts);
      assert [] + m == m;
      ReadAllWritten([], m);
    }
  }

  lemma {:induction false} JoinNotEmpty(parts: seq<Str>)
    requires parts != [] && parts[0] != []
    ensures Join(parts, COMMA) != []
  {
  }

  /* ---------------------------------------------------------------- the session */

  /** The cached overrides, None until first needed, and the stored string. */
  datatype Session = Session(cache: Option<Overrides>, stored: Option<Str>)

  function UrlOverrides(search: Str): (m: Overrides) {
    Parse(Form.Get(Form.Parse(search), FF))
  }

  /** A first look at the storage; one that throws leaves no overrides for the whole session. */
  function Load(s: Session, readable: bool): (r: Session) {
    if s.cache.Some? then s else s.(cache := Some(if readable then Parse(s.stored) else []))
  }

  function Cached(s: Session): (m: Overrides) {
    if s.cache.Some? then s.cache.value else Parse(s.stored)
  }

  /** What a flag reads as: the URL first, then the overrides, then the default. */
  function Resolve(url: Overrides, overrides: Overrides, key: Str): (on: bool) {
    if Lookup(url, key).Some? then Lookup(url, key).value
    else if Lookup(overrides, key).Some? then Lookup(overrides, key).value
    else DEFAULT
  }

  function ReadFlag(s: Session, url: Overrides, key: Str, readable: bool): (r: Session) {
    if Lookup(url, key).Some? then s else Load(s, readable)
  }

  function SetFlag(s: Session, key: Str, value: bool, readable: bool, writable: bool): (r: Session) {
    var loaded := Load(s, readable);
    var next := Put(loaded.cache.value, key, value);
    if writable then Session(Some(next), Some(Encode(next))) else loaded
  }

  /** Each use of the storage may throw or not. */
  datatype Event =
    | Read(key: Str, readable: bool)
    | Set(key: Str, value: bool, readable: bool, writable: bool)

  function Step(url: Overrides, s: Session, e: Event): (r: Session) {
    match e
    case Read(key, readable) => ReadFlag(s, url, key, readable)
    case Set(key, value, readable, writable) => SetFlag(s, key, value, readable, writable)
  }

  function Run(url: Overrides, s: Session, es: seq<Event>): (r: Session)
    decreases |es|
  {
    if es == [] then s else Run(url, Step(url, s, es[0]), es[1..])
  }

  predicate NamesOnly(es: seq<Event>) {
    forall i :: 0 <= i < |es| ==> IsName(es[i].key)
  }

  /** A reload would read the overrides the session works with. */
  predicate Synced(s: Session) {
    s.cache.Some? ==> Parse(s.stored) == s.cache.value
  }

  predicate Sound(s: Session) {
    s.cache.Some? ==> Valid(s.cache.value)
  }

  predicate Writes(e: Event) {
    e.Set? && e.writable
  }

  lemma LoadKeeps(s: Session, readable: bool)
    requires Sound(s)
    ensures Sound(Load(s, readable))
    ensures readable && Synced(s) ==> Synced(Load(s, readable))
  {
    ParseIsValid(s.stored);
  }

  /** A write that succeeds puts cache and storage in step, whatever came before. */
  lemma WriteSyncs(s: Session, key: Str, value: bool, readable: bool)
    requires Sound(s) && IsName(key)
    ensures var r := SetFlag(s, key, value, readable, true);
      Sound(r) && Synced(r) && r.cache.Some?
  {
    LoadKeeps(s, readable);
    var m := Load(s, readable).cache.value;
    PutKeepsValid(m, key, value);
    ParseEncode(Put(m, key, value));
  }

  lemma StepKeeps(url: Overrides, s: Session, e: Event)
    requires Sound(s) && IsName(e.key)
    ensures var r := Step(url, s, e);
      Sound(r) && (Writes(e) ==> Synced(r)) &&
      (s.cache.Some? ==> r.cache.Some? && (!Writes(e) ==> r == s))
  {
    LoadKeeps(s, e.readable);
    if Writes(e) {
      WriteSyncs(s, e.key, e.value, e.readable);
    }
  }

  predicate Wrote(es: seq<Event>) {
    exists i :: 0 <= i < |es| && Writes(es[i])
  }

  /** Whether the first event that needs the storage can read it; None when no event needs it. */
  function FirstLook(url: Overrides, es: seq<Event>): (r: Option<bool>)
    decreases |es|
  {
    if es == [] then None
    else if es[0].Read? && Lookup(url, es[0].key).Some? then FirstLook(url, es[1..])
    else Some(es[0].readable)
  }

  /** With the cache filled, only writes change the session: in step once one succeeds, as it was otherwise. */
  lemma {:induction false} FilledRun(url: Overrides, s: Session, es: seq<Event>)
    requires Sound(s) && s.cache.Some? && NamesOnly(es)
    ensures var r := Run(url, s, es);
      Sound(r) && r.cache.Some? && (Synced(r) <==> Synced(s) || Wrote(es))
    decreases |es|
  {
    if es != [] {
      var r := Step(url, s, es[0]);
      StepKeeps(url, s, es[0]);
      FilledRun(url, r, es[1..]);
      WroteSplit(es);
    }
  }

  lemma WroteSplit(es: seq<Event>)
    requires es != []
    ensures Wrote(es) <==> Writes(es[0]) || Wrote(es[1..])
  {
    if Wrote(es[1..]) {
      var i :| 0 <= i < |es[1..]| && Writes(es[1..][i]);
      assert Writes(es[i + 1]);
    }
    if Wrote(es) && !Writes(es[0]) {
      var i :| 0 <= i < |es| && Writes(es[i]);
      assert Writes(es[1..][i - 1]);
    }
  }

  /**
   * After any sequence of reads and writes a reload agrees with the session, unless the session's
   * first look at a storage that held overrides failed and no write has succeeded since.
   */
  lemma {:induction false} ReloadAgreesExactlyWhen(url: Overrides, stored: Option<Str>, es: seq<Event>)
    requires NamesOnly(es)
    ensures Synced(Run(url, Session(None, stored), es)) <==>
            FirstLook(url, es) != Some(false) || Wrote(es) || Parse(stored) == []
    decreases |es|
  {
    var s := Session(None, stored);
    if es != [] {
      WroteSplit(es);
      if es[0].Read? && Lookup(url, es[0].key).Some? {
        ReloadAgreesExactlyWhen(url, stored, es[1..]);
      } else {
        var r := Step(url, s, es[0]);
        StepKeeps(url, s, es[0]);
        FilledRun(url, r, es[1..]);
      }
    }
  }

  /** In step, every flag reads the same after a reload as before it. */
  lemma SyncedResolvesAlike(url: Overrides, s: Session, key: Str)
    requires Synced(s)
    ensures Resolve(url, Cached(Session(None, s.stored)), key) == Resolve(url, Cached(s), key)
  {
  }

  /** A write takes effect at once and for that key alone, unless the URL rules it. */
  lemma {:induction false} WriteTakesEffect(url: Overrides, s: Session, key: Str, value: bool, other: Str)
    requires Sound(s) && IsName(key)
    ensures var r := SetFlag(s, key, value, true, true);
      (Lookup(url, key).None? ==> Resolve(url, Cached(r), key) == value) &&
      (other != key ==> Resolve(url, Cached(r), other) == Resolve(url, Cached(s), other))
  {
    LookupOfPut(Load(s, true).cache.value, key, value, key);
    LookupOfPut(Load(s, true).cache.value, key, value, other);
  }

  /** The module's variables and the storage entry they mirror. */
  class FlagStore {
    const search: Str
    var urlOverrides: Option<Overrides>
    var lsOverrides: Option<Overrides>
    var stored: Option<Str>

    function Now(): (s: Session)
      reads this
    {
      Session(lsOverrides, stored)
    }

    ghost predicate UrlRead()
      reads this
    {
      urlOverrides == None || urlOverrides == Some(UrlOverrides(search))
    }

    constructor (location: Str, entry: Option<Str>)
      ensures Now() == Session(None, entry) && search == location && UrlRead()
    {
      search, urlOverrides, lsOverrides, stored := location, None, None, entry;
    }

    method CachedLs(readable: bool) returns (m: Overrides)
      modifies `lsOverrides
      ensures Now() == Load(old(Now()), readable) && Some(m) == lsOverrides
    {
      if lsOverrides.Some? {
        return lsOverrides.value;
      }
      m := [];
      if readable {
        m := ParseText(stored);
      }
      lsOverrides := Some(m);
    }

    static method ParseText(raw: Option<Str>) returns (out: Overrides)
      ensures out == Parse(raw)
    {
      out := [];
      if raw.None? || raw.value == [] {
        return;
      }
      var parts := Split(raw.value, COMMA);
      var i := 0;
      assert parts[0..] == parts;
      while i < |parts|
        invariant i <= |parts|
        invariant ReadParts(out, parts[i..]) == ReadParts([], parts)
      {
        assert parts[i..][1..] == parts[i + 1..];
        var e := ReadPart(parts[i]);
        if IsName(e.key) {
          out := Put(out, e.key, e.on);
        }
        i := i + 1;
      }
    }

    method Flag(key: Str, readable: bool) returns (on: bool)
      requires UrlRead()
      modifies `urlOverrides, `lsOverrides
      ensures UrlRead()
      ensures Now() == ReadFlag(old(Now()), UrlOverrides(search), key, readable)
      ensures on == Resolve(UrlOverrides(search), Load(old(Now()), readable).cache.value, key)
    {
      if urlOverrides.None? {
        var ff := ParseText(Form.Get(Form.Parse(search), FF));
        urlOverrides := Some(ff);
      }
      var fromUrl := Lookup(urlOverrides.value, key);
      if fromUrl.Some? {
        return fromUrl.value;
      }
      var ls := CachedLs(readable);
      var fromLs := Lookup(ls, key);
      on := if fromLs.Some? then fromLs.value else DEFAULT;
    }

    method StoreFlag(key: Str, value: bool, readable: bool, writable: bool)
      modifies `lsOverrides, `stored
      ensures Now() == SetFlag(old(Now()), key, value, readable, writable)
    {
      var ls := CachedLs(readable);
      var next := Put(ls, key, value);
      var encoded := Encode(next);
      if writable {
        stored := Some(encoded);
        lsOverrides := Some(next);
      }
    }
  }
}
