/** The bronze writer: records are buffered per topic partition, PUT as one object named
    by its start offset, then committed.  The process may die before a PUT, between a
    PUT and its commit, or between steps, and partitions may be taken away. */
module Materializer {
  import opened Levels

  // ---------- names and dates ----------

  /** A topic partition, its topic parsed into dataset coordinates. */
  datatype Tp = Tp(dataset: string, exchange: Option<string>, symbol: Option<string>, number: nat)

  type Canonical = map<(string, string), string>

  datatype Record = Record(offset: nat, timestampMs: int, value: string)

  datatype Key = Key(dataset: string, exchange: Option<string>, symbol: Option<string>, date: int, partition: nat, start: nat)

  function Normalized(symbol: string): string {
    seq(|symbol|, i requires 0 <= i < |symbol| =>
      if 'a' <= symbol[i] <= 'z' || 'A' <= symbol[i] <= 'Z' || '0' <= symbol[i] <= '9' || symbol[i] in "._-" then symbol[i] else '-')
  }

  /** An unmapped symbol keeps its native spelling. */
  function Resolve(canonical: Canonical, exchange: string, symbol: string): string {
    var key := (exchange, Normalized(symbol));
    if key in canonical then canonical[key] else key.1
  }

  /** The UTC day of a record timestamp. */
  function Day(timestampMs: int): (d: int)
    ensures d * 86_400_000 <= timestampMs < (d + 1) * 86_400_000
  {
    timestampMs / 86_400_000
  }

  function PathSymbol(tp: Tp, canonical: Canonical): Option<string> {
    if tp.symbol.None? || tp.exchange.None? then tp.symbol
    else Some(Resolve(canonical, tp.exchange.value, tp.symbol.value))
  }

  function ObjectKey(tp: Tp, canonical: Canonical, start: nat, date: int): Key {
    Key(tp.dataset, tp.exchange, PathSymbol(tp, canonical), date, tp.number, start)
  }

  predicate IsOf(key: Key, tp: Tp, canonical: Canonical) {
    key.dataset == tp.dataset && key.exchange == tp.exchange && key.symbol == PathSymbol(tp, canonical) && key.partition == tp.number
  }

  /** Two partitions whose objects go to the same place. */
  predicate SamePlace(a: Tp, b: Tp, canonical: Canonical) {
    a.dataset == b.dataset && a.exchange == b.exchange && PathSymbol(a, canonical) == PathSymbol(b, canonical) && a.number == b.number
  }

  predicate Clean(symbol: string) {
    forall i :: 0 <= i < |symbol| ==>
      'a' <= symbol[i] <= 'z' || 'A' <= symbol[i] <= 'Z' || '0' <= symbol[i] <= '9' || symbol[i] in "._-"
  }

  predicate Unmapped(tp: Tp, canonical: Canonical) {
    tp.exchange.Some? && tp.symbol.Some? ==> (tp.exchange.value, tp.symbol.value) !in canonical
  }

  /** Partitions share a place only through their symbols: two partitions of one topic never
      do, nor do two topics whose symbols need no rewriting and have no canonical name. */
  lemma PlacesApart(a: Tp, b: Tp, canonical: Canonical)
    requires a != b
    requires a.symbol == b.symbol
             || ((a.symbol.Some? ==> Clean(a.symbol.value)) && (b.symbol.Some? ==> Clean(b.symbol.value))
                 && Unmapped(a, canonical) && Unmapped(b, canonical))
    ensures !SamePlace(a, b, canonical)
  {
    assert a.symbol.Some? && Clean(a.symbol.value) ==> Normalized(a.symbol.value) == a.symbol.value;
    assert b.symbol.Some? && Clean(b.symbol.value) ==> Normalized(b.symbol.value) == b.symbol.value;
  }

  // ---------- the writer ----------

  datatype Buffer = Buffer(date: int, firstAppend: int, bytes: nat, records: seq<Record>)

  type Store = map<Key, seq<Record>>

  /** `position` is the next offset the consumer hands out. */
  datatype State = State(buffers: map<Tp, Buffer>, position: map<Tp, nat>, committed: map<Tp, nat>, store: Store)

  /** How far a flush gets. */
  datatype Fate = Landed | DiedBeforePut | DiedBeforeCommit

  datatype Event =
    | Deliver(tp: Tp, now: int, cut: Fate, full: Fate)
    | Flush(tp: Tp, fate: Fate)
    | Lose(tps: set<Tp>)

  datatype Config = Config(canonical: Canonical, flushBytes: nat)

  function Start(): State {
    State(map[], map[], map[], map[])
  }

  function At(m: map<Tp, nat>, tp: Tp): nat {
    if tp in m then m[tp] else 0
  }

  /** Buffers are gone and reading resumes from the committed offsets. */
  function Restarted(st: State): State {
    st.(buffers := map[], position := st.committed)
  }

  /** Revoked partitions lose their buffers; their next owner resumes from the commit. */
  function Revoked(st: State, tps: set<Tp>): State {
    st.(buffers := st.buffers - tps,
        position := map tp | tp in st.position.Keys + tps :: if tp in tps then At(st.committed, tp) else st.position[tp])
  }

  function Put(st: State, tp: Tp, config: Config): Store
    requires tp in st.buffers && st.buffers[tp].records != []
  {
    var buf := st.buffers[tp];
    st.store[ObjectKey(tp, config.canonical, buf.records[0].offset, buf.date) := buf.records]
  }

  function FlushTp(st: State, tp: Tp, fate: Fate, config: Config): State
    requires tp in st.buffers && st.buffers[tp].records != []
  {
    var buf := st.buffers[tp];
    match fate
    case DiedBeforePut => Restarted(st)
    case DiedBeforeCommit => Restarted(st.(store := Put(st, tp, config)))
    case Landed =>
      st.(buffers := st.buffers - {tp}, store := Put(st, tp, config),
          committed := st.committed[tp := buf.records[|buf.records| - 1].offset + 1])
  }

  /** A flush that finds nothing to write does nothing. */
  function TryFlush(st: State, tp: Tp, fate: Fate, config: Config): State {
    if tp in st.buffers && st.buffers[tp].records != [] then FlushTp(st, tp, fate, config) else st
  }

  predicate NeedsCut(st: State, tp: Tp, rec: Record) {
    tp in st.buffers && st.buffers[tp].date != Day(rec.timestampMs)
  }

  /** What a buffer holds with one more record. */
  function Grown(st: State, tp: Tp, rec: Record, now: int): Buffer {
    if tp in st.buffers then st.buffers[tp].(records := st.buffers[tp].records + [rec], bytes := st.buffers[tp].bytes + |rec.value|)
    else Buffer(Day(rec.timestampMs), now, |rec.value|, [rec])
  }

  function Added(st: State, tp: Tp, rec: Record, now: int): State {
    st.(buffers := st.buffers[tp := Grown(st, tp, rec, now)], position := st.position[tp := rec.offset + 1])
  }

  function FlushIfFull(st: State, tp: Tp, full: Fate, config: Config): State {
    if tp in st.buffers && st.buffers[tp].bytes >= config.flushBytes then TryFlush(st, tp, full, config) else st
  }

  function AddAndFill(st: State, tp: Tp, rec: Record, now: int, full: Fate, config: Config): State {
    FlushIfFull(Added(st, tp, rec, now), tp, full, config)
  }

  /** A record of a new date first flushes what is buffered; a full buffer is flushed. */
  function AppendTo(st: State, tp: Tp, rec: Record, now: int, cut: Fate, full: Fate, config: Config): State {
    if NeedsCut(st, tp, rec) then
      var flushed := TryFlush(st, tp, cut, config);
      if cut.Landed? then AddAndFill(flushed, tp, rec, now, full, config) else flushed
    else AddAndFill(st, tp, rec, now, full, config)
  }

  type Logs = map<Tp, seq<Record>>

  function Log(logs: Logs, tp: Tp): seq<Record> {
    if tp in logs then logs[tp] else []
  }

  function Step(st: State, e: Event, logs: Logs, config: Config): State {
    match e
    case Deliver(tp, now, cut, full) =>
      if At(st.position, tp) < |Log(logs, tp)| then AppendTo(st, tp, Log(logs, tp)[At(st.position, tp)], now, cut, full, config) else st
    case Flush(tp, fate) => TryFlush(st, tp, fate, config)
    case Lose(tps) => Revoked(st, tps)
  }

  function RunFrom(st: State, es: seq<Event>, logs: Logs, config: Config): State {
    if es == [] then st else Step(RunFrom(st, es[..|es| - 1], logs, config), es[|es| - 1], logs, config)
  }

  function Run(es: seq<Event>, logs: Logs, config: Config): State {
    RunFrom(Start(), es, logs, config)
  }

  lemma RunPush(st: State, es: seq<Event>, e: Event, logs: Logs, config: Config)
    ensures RunFrom(st, es + [e], logs, config) == Step(RunFrom(st, es, logs, config), e, logs, config)
  {
    assert (es + [e])[..|es|] == es;
  }

  // ---------- what holds for one partition ----------

  /** Offsets are the places in the log. */
  predicate GapFree(log: seq<Record>) {
    forall i :: 0 <= i < |log| ==> log[i].offset == i
  }

  predicate OneDate(rs: seq<Record>, date: int) {
    forall i :: 0 <= i < |rs| ==> Day(rs[i].timestampMs) == date
  }

  function Bytes(rs: seq<Record>): nat {
    if rs == [] then 0 else Bytes(rs[..|rs| - 1]) + |rs[|rs| - 1].value|
  }

  /** The buffer holds exactly the log between the commit and the position. */
  predicate Buffered(st: State, tp: Tp, log: seq<Record>) {
    var c, p := At(st.committed, tp), At(st.position, tp);
    && c <= p <= |log|
    && (tp !in st.buffers ==> c == p)
    && (tp in st.buffers ==>
          && c < p && st.buffers[tp].records == log[c..p]
          && OneDate(log[c..p], st.buffers[tp].date) && st.buffers[tp].bytes == Bytes(log[c..p]))
  }

  function KeyAt(tp: Tp, log: seq<Record>, i: nat, canonical: Canonical): Key
    requires i < |log|
  {
    ObjectKey(tp, canonical, i, Day(log[i].timestampMs))
  }

  /** One object: the log from `i` to `j`, all of one date, under the key of its start. */
  predicate Holds(store: Store, tp: Tp, log: seq<Record>, i: nat, j: nat, canonical: Canonical) {
    && i < j <= |log| && KeyAt(tp, log, i, canonical) in store
    && store[KeyAt(tp, log, i, canonical)] == log[i..j]
    && OneDate(log[i..j], Day(log[i].timestampMs))
  }

  predicate Cuts(cuts: seq<nat>, end: nat) {
    && cuts != [] && cuts[0] == 0 && cuts[|cuts| - 1] == end
    && (forall i, j :: 0 <= i < j < |cuts| ==> cuts[i] < cuts[j])
  }

  predicate Tiles(store: Store, tp: Tp, log: seq<Record>, cuts: seq<nat>, canonical: Canonical) {
    forall i :: 0 <= i < |cuts| - 1 ==> Holds(store, tp, log, cuts[i], cuts[i + 1], canonical)
  }

  /** Every object of the partition starts at a cut, under the key of that start. */
  predicate OnlyTiles(store: Store, tp: Tp, log: seq<Record>, cuts: seq<nat>, canonical: Canonical) {
    forall k :: k in store && IsOf(k, tp, canonical) ==>
      k.start in cuts && k.start < |log| && k == KeyAt(tp, log, k.start, canonical)
  }

  /** The one object that may lie past the commit holds a run of the log from there. */
  ghost predicate Ahead(store: Store, tp: Tp, log: seq<Record>, c: nat, canonical: Canonical) {
    c < |log| && KeyAt(tp, log, c, canonical) in store ==> exists j :: Holds(store, tp, log, c, j, canonical)
  }

  ghost predicate Stored(st: State, tp: Tp, log: seq<Record>, cuts: seq<nat>, canonical: Canonical) {
    && Cuts(cuts, At(st.committed, tp)) && At(st.committed, tp) <= |log|
    && Tiles(st.store, tp, log, cuts, canonical)
    && OnlyTiles(st.store, tp, log, cuts, canonical)
    && Ahead(st.store, tp, log, At(st.committed, tp), canonical)
  }

  ghost predicate Keeps(st: State, tp: Tp, log: seq<Record>, cuts: seq<nat>, canonical: Canonical) {
    Buffered(st, tp, log) && Stored(st, tp, log, cuts, canonical)
  }

  // ---------- one PUT ----------

  lemma SliceOfSlice<T>(s: seq<T>, i: nat, j: nat)
    requires i < j <= |s|
    ensures s[i..j][0] == s[i] && s[i..j][j - i - 1] == s[j - 1] && |s[i..j]| == j - i
  {
  }

  lemma PutIsAtCommit(st: State, tp: Tp, log: seq<Record>, config: Config)
    requires Buffered(st, tp, log) && GapFree(log) && tp in st.buffers
    ensures var c, p := At(st.committed, tp), At(st.position, tp);
            && c < p <= |log| && st.buffers[tp].records != []
            && Put(st, tp, config) == st.store[KeyAt(tp, log, c, config.canonical) := log[c..p]]
            && st.buffers[tp].records[|st.buffers[tp].records| - 1].offset + 1 == p
            && OneDate(log[c..p], Day(log[c].timestampMs))
  {
    var c, p := At(st.committed, tp), At(st.position, tp);
    SliceOfSlice(log, c, p);
    assert OneDate(log[c..p], st.buffers[tp].date);
    assert log[c..p][0] == log[c];
  }

  /** Writing the run from the commit on leaves every committed object as it was. */
  lemma PutKeepsTiles(store: Store, tp: Tp, log: seq<Record>, cuts: seq<nat>, c: nat, p: nat, canonical: Canonical)
    requires Cuts(cuts, c) && Tiles(store, tp, log, cuts, canonical) && OnlyTiles(store, tp, log, cuts, canonical)
    requires c < p <= |log| && OneDate(log[c..p], Day(log[c].timestampMs))
    ensures var store' := store[KeyAt(tp, log, c, canonical) := log[c..p]];
            && Tiles(store', tp, log, cuts, canonical) && OnlyTiles(store', tp, log, cuts, canonical)
            && Holds(store', tp, log, c, p, canonical)
  {
    var store' := store[KeyAt(tp, log, c, canonical) := log[c..p]];
    forall i | 0 <= i < |cuts| - 1 ensures Holds(store', tp, log, cuts[i], cuts[i + 1], canonical) {
      assert Holds(store, tp, log, cuts[i], cuts[i + 1], canonical);
      assert cuts[i] < cuts[|cuts| - 1];
    }
    assert c == cuts[|cuts| - 1];
  }

  /** A partition elsewhere does not notice. */
  lemma PutElsewhere(store: Store, tp: Tp, log: seq<Record>, cuts: seq<nat>, c: nat, canonical: Canonical, key: Key, rs: seq<Record>)
    requires !IsOf(key, tp, canonical) && c <= |log|
    requires Tiles(store, tp, log, cuts, canonical) && OnlyTiles(store, tp, log, cuts, canonical) && Ahead(store, tp, log, c, canonical)
    ensures Tiles(store[key := rs], tp, log, cuts, canonical) && OnlyTiles(store[key := rs], tp, log, cuts, canonical)
    ensures Ahead(store[key := rs], tp, log, c, canonical)
  {
    var store' := store[key := rs];
    forall i | 0 <= i < |cuts| - 1 ensures Holds(store', tp, log, cuts[i], cuts[i + 1], canonical) {
      assert Holds(store, tp, log, cuts[i], cuts[i + 1], canonical);
    }
    if c < |log| && KeyAt(tp, log, c, canonical) in store {
      var j :| Holds(store, tp, log, c, j, canonical);
      assert Holds(store', tp, log, c, j, canonical);
    }
  }

  /** Committing what was put makes it a tile. */
  lemma CommitExtends(store: Store, tp: Tp, log: seq<Record>, cuts: seq<nat>, c: nat, p: nat, canonical: Canonical)
    requires Cuts(cuts, c) && Tiles(store, tp, log, cuts, canonical) && OnlyTiles(store, tp, log, cuts, canonical)
    requires Holds(store, tp, log, c, p, canonical)
    ensures Cuts(cuts + [p], p) && Tiles(store, tp, log, cuts + [p], canonical) && OnlyTiles(store, tp, log, cuts + [p], canonical)
    ensures Ahead(store, tp, log, p, canonical)
  {
    var more := cuts + [p];
    forall i | 0 <= i < |more| - 1 ensures Holds(store, tp, log, more[i], more[i + 1], canonical) {
      if i < |cuts| - 1 {
        assert Holds(store, tp, log, cuts[i], cuts[i + 1], canonical);
      }
    }
    assert forall i :: 0 <= i < |cuts| ==> cuts[i] <= cuts[|cuts| - 1] < p;
    if p < |log| {
      assert IsOf(KeyAt(tp, log, p, canonical), tp, canonical);
    }
  }

  // ---------- each step ----------

  lemma RestartKeeps(st: State, tp: Tp, log: seq<Record>, cuts: seq<nat>, canonical: Canonical)
    requires Stored(st, tp, log, cuts, canonical)
    ensures Keeps(Restarted(st), tp, log, cuts, canonical)
  {
  }

  /** What the next cuts of a partition are after a flush of its own. */
  function CutsAfter(cuts: seq<nat>, tp: Tp, flushed: Tp, fate: Fate, position: nat): seq<nat> {
    if flushed == tp && fate.Landed? then cuts + [position] else cuts
  }

  lemma OwnFlushKeeps(st: State, tp: Tp, log: seq<Record>, cuts: seq<nat>, fate: Fate, config: Config)
    requires Keeps(st, tp, log, cuts, config.canonical) && GapFree(log) && tp in st.buffers
    ensures st.buffers[tp].records != []
    ensures Keeps(FlushTp(st, tp, fate, config), tp, log, CutsAfter(cuts, tp, tp, fate, At(st.position, tp)), config.canonical)
  {
    var c, p := At(st.committed, tp), At(st.position, tp);
    PutIsAtCommit(st, tp, log, config);
    PutKeepsTiles(st.store, tp, log, cuts, c, p, config.canonical);
    match fate
    case DiedBeforePut =>
      RestartKeeps(st, tp, log, cuts, config.canonical);
    case DiedBeforeCommit =>
      RestartKeeps(st.(store := Put(st, tp, config)), tp, log, cuts, config.canonical);
    case Landed =>
      CommitExtends(Put(st, tp, config), tp, log, cuts, c, p, config.canonical);
  }

  lemma OtherFlushKeeps(st: State, tp: Tp, log: seq<Record>, cuts: seq<nat>, other: Tp, fate: Fate, config: Config)
    requires Keeps(st, tp, log, cuts, config.canonical) && other != tp && !SamePlace(other, tp, config.canonical)
    requires other in st.buffers && st.buffers[other].records != []
    ensures Keeps(FlushTp(st, other, fate, config), tp, log, cuts, config.canonical)
  {
    var buf := st.buffers[other];
    var key := ObjectKey(other, config.canonical, buf.records[0].offset, buf.date);
    PutElsewhere(st.store, tp, log, cuts, At(st.committed, tp), config.canonical, key, buf.records);
    match fate
    case DiedBeforePut =>
      RestartKeeps(st, tp, log, cuts, config.canonical);
    case DiedBeforeCommit =>
      RestartKeeps(st.(store := Put(st, other, config)), tp, log, cuts, config.canonical);
    case Landed =>
  }

  lemma FlushKeeps(st: State, tp: Tp, log: seq<Record>, cuts: seq<nat>, other: Tp, fate: Fate, config: Config) returns (cuts': seq<nat>)
    requires Keeps(st, tp, log, cuts, config.canonical) && GapFree(log)
    requires other == tp || !SamePlace(other, tp, config.canonical)
    ensures Keeps(TryFlush(st, other, fate, config), tp, log, cuts', config.canonical)
  {
    cuts' := cuts;
    if other in st.buffers && st.buffers[other].records != [] {
      if other == tp {
        OwnFlushKeeps(st, tp, log, cuts, fate, config);
        cuts' := CutsAfter(cuts, tp, tp, fate, At(st.position, tp));
      } else {
        OtherFlushKeeps(st, tp, log, cuts, other, fate, config);
      }
    }
  }

  lemma StoredStays(st: State, st': State, tp: Tp, log: seq<Record>, cuts: seq<nat>, canonical: Canonical)
    requires Stored(st, tp, log, cuts, canonical) && st'.committed == st.committed && st'.store == st.store
    ensures Stored(st', tp, log, cuts, canonical)
  {
  }

  lemma GrownIs(st: State, tp: Tp, log: seq<Record>, rec: Record, now: int, c: nat, p: nat)
    requires c <= p < |log| && rec == log[p] && !NeedsCut(st, tp, rec)
    requires tp !in st.buffers ==> c == p
    requires tp in st.buffers ==> st.buffers[tp].records == log[c..p] && OneDate(log[c..p], st.buffers[tp].date) && st.buffers[tp].bytes == Bytes(log[c..p])
    ensures var buf := Grown(st, tp, rec, now);
            buf.records == log[c..p + 1] && OneDate(log[c..p + 1], buf.date) && buf.bytes == Bytes(log[c..p + 1])
  {
    SlicePush(log, c, p);
    BytesPush(log[c..p], rec);
    if tp !in st.buffers {
      assert log[c..p] == [];
    }
    OneDatePush(log[c..p], rec, Day(rec.timestampMs));
  }

  lemma AddBuffers(st: State, tp: Tp, log: seq<Record>, rec: Record, now: int)
    requires Buffered(st, tp, log) && GapFree(log)
    requires At(st.position, tp) < |log| && rec == log[At(st.position, tp)] && !NeedsCut(st, tp, rec)
    ensures Buffered(Added(st, tp, rec, now), tp, log)
  {
    GrownIs(st, tp, log, rec, now, At(st.committed, tp), At(st.position, tp));
  }

  lemma SlicePush<T>(s: seq<T>, i: nat, j: nat)
    requires i <= j < |s|
    ensures s[i..j + 1] == s[i..j] + [s[j]]
  {
  }

  lemma BytesPush(rs: seq<Record>, r: Record)
    ensures Bytes(rs + [r]) == Bytes(rs) + |r.value|
  {
    assert (rs + [r])[..|rs|] == rs;
  }

  lemma OneDatePush(rs: seq<Record>, r: Record, date: int)
    requires OneDate(rs, date) && Day(r.timestampMs) == date
    ensures OneDate(rs + [r], date)
  {
  }

  lemma AddKeeps(st: State, tp: Tp, log: seq<Record>, cuts: seq<nat>, other: Tp, rec: Record, now: int, canonical: Canonical)
    requires Keeps(st, tp, log, cuts, canonical) && GapFree(log)
    requires other == tp ==> At(st.position, tp) < |log| && rec == log[At(st.position, tp)] && !NeedsCut(st, tp, rec)
    ensures Keeps(Added(st, other, rec, now), tp, log, cuts, canonical)
  {
    StoredStays(st, Added(st, other, rec, now), tp, log, cuts, canonical);
    if other == tp {
      AddBuffers(st, tp, log, rec, now);
    }
  }

  lemma FillKeeps(st: State, tp: Tp, log: seq<Record>, cuts: seq<nat>, other: Tp, rec: Record, now: int, full: Fate, config: Config)
    returns (cuts': seq<nat>)
    requires Keeps(st, tp, log, cuts, config.canonical) && GapFree(log)
    requires other == tp || !SamePlace(other, tp, config.canonical)
    requires other == tp ==> At(st.position, tp) < |log| && rec == log[At(st.position, tp)] && !NeedsCut(st, tp, rec)
    ensures Keeps(AddAndFill(st, other, rec, now, full, config), tp, log, cuts', config.canonical)
  {
    AddKeeps(st, tp, log, cuts, other, rec, now, config.canonical);
    cuts' := FullKeeps(Added(st, other, rec, now), tp, log, cuts, other, full, config);
  }

  lemma FullKeeps(st: State, tp: Tp, log: seq<Record>, cuts: seq<nat>, other: Tp, full: Fate, config: Config) returns (cuts': seq<nat>)
    requires Keeps(st, tp, log, cuts, config.canonical) && GapFree(log)
    requires other == tp || !SamePlace(other, tp, config.canonical)
    ensures Keeps(FlushIfFull(st, other, full, config), tp, log, cuts', config.canonical)
  {
    cuts' := cuts;
    if other in st.buffers && st.buffers[other].bytes >= config.flushBytes {
      cuts' := FlushKeeps(st, tp, log, cuts, other, full, config);
    }
  }

  lemma AppendKeeps(st: State, tp: Tp, log: seq<Record>, cuts: seq<nat>, other: Tp, rec: Record, now: int, cut: Fate, full: Fate, config: Config)
    returns (cuts': seq<nat>)
    requires Keeps(st, tp, log, cuts, config.canonical) && GapFree(log)
    requires other == tp || !SamePlace(other, tp, config.canonical)
    requires other == tp ==> At(st.position, tp) < |log| && rec == log[At(st.position, tp)]
    ensures Keeps(AppendTo(st, other, rec, now, cut, full, config), tp, log, cuts', config.canonical)
  {
    if NeedsCut(st, other, rec) {
      cuts' := FlushKeeps(st, tp, log, cuts, other, cut, config);
      if cut.Landed? {
        if other == tp {
          PutIsAtCommit(st, tp, log, config);
        }
        cuts' := FillKeeps(TryFlush(st, other, cut, config), tp, log, cuts', other, rec, now, full, config);
      }
    } else {
      cuts' := FillKeeps(st, tp, log, cuts, other, rec, now, full, config);
    }
  }

  lemma RevokeKeeps(st: State, tp: Tp, log: seq<Record>, cuts: seq<nat>, tps: set<Tp>, canonical: Canonical)
    requires Keeps(st, tp, log, cuts, canonical)
    ensures Keeps(Revoked(st, tps), tp, log, cuts, canonical)
  {
  }

  // ---------- every run ----------

  /** No other partition's objects go where `tp`'s go. */
  predicate AloneIn(tp: Tp, logs: Logs, canonical: Canonical) {
    forall other :: other in logs && other != tp ==> !SamePlace(other, tp, canonical)
  }

  lemma FlushAddsNoBuffer(st: State, tp: Tp, fate: Fate, config: Config)
    ensures TryFlush(st, tp, fate, config).buffers.Keys <= st.buffers.Keys
  {
  }

  lemma AppendBuffers(st: State, tp: Tp, rec: Record, now: int, cut: Fate, full: Fate, config: Config)
    ensures AppendTo(st, tp, rec, now, cut, full, config).buffers.Keys <= st.buffers.Keys + {tp}
  {
    FlushAddsNoBuffer(st, tp, cut, config);
    FillBuffers(st, tp, rec, now, full, config);
    FillBuffers(TryFlush(st, tp, cut, config), tp, rec, now, full, config);
  }

  lemma FillBuffers(st: State, tp: Tp, rec: Record, now: int, full: Fate, config: Config)
    ensures AddAndFill(st, tp, rec, now, full, config).buffers.Keys <= st.buffers.Keys + {tp}
  {
    AddedKeys(st, tp, rec, now);
    FlushAddsNoBuffer(Added(st, tp, rec, now), tp, full, config);
  }

  lemma AddedKeys(st: State, tp: Tp, rec: Record, now: int)
    ensures Added(st, tp, rec, now).buffers.Keys == st.buffers.Keys + {tp}
  {
  }

  /** Only partitions with a log are ever buffered. */
  lemma {:induction false} BufferedHaveLogs(es: seq<Event>, logs: Logs, config: Config)
    ensures Run(es, logs, config).buffers.Keys <= logs.Keys
  {
    if es != [] {
      var st := Run(es[..|es| - 1], logs, config);
      BufferedHaveLogs(es[..|es| - 1], logs, config);
      match es[|es| - 1]
      case Deliver(tp, now, cut, full) =>
        if At(st.position, tp) < |Log(logs, tp)| {
          AppendBuffers(st, tp, Log(logs, tp)[At(st.position, tp)], now, cut, full, config);
        }
      case Flush(tp, fate) =>
        FlushAddsNoBuffer(st, tp, fate, config);
      case Lose(tps) =>
    }
  }

  lemma {:induction false} RunKeeps(es: seq<Event>, tp: Tp, logs: Logs, config: Config) returns (cuts: seq<nat>)
    requires GapFree(Log(logs, tp)) && AloneIn(tp, logs, config.canonical)
    ensures Keeps(Run(es, logs, config), tp, Log(logs, tp), cuts, config.canonical)
  {
    if es == [] {
      cuts := [0];
    } else {
      var rest, e, log := es[..|es| - 1], es[|es| - 1], Log(logs, tp);
      var st := Run(rest, logs, config);
      cuts := RunKeeps(rest, tp, logs, config);
      BufferedHaveLogs(rest, logs, config);
      match e
      case Deliver(other, now, cut, full) =>
        if At(st.position, other) < |Log(logs, other)| {
          cuts := AppendKeeps(st, tp, log, cuts, other, Log(logs, other)[At(st.position, other)], now, cut, full, config);
        }
      case Flush(other, fate) =>
        if other in st.buffers {
          cuts := FlushKeeps(st, tp, log, cuts, other, fate, config);
        }
      case Lose(tps) =>
        RevokeKeeps(st, tp, log, cuts, tps, config.canonical);
    }
  }

  lemma TilesPrefix(store: Store, tp: Tp, log: seq<Record>, cuts: seq<nat>, canonical: Canonical)
    requires Tiles(store, tp, log, cuts, canonical) && |cuts| > 1
    ensures Tiles(store, tp, log, cuts[..|cuts| - 1], canonical)
    ensures Holds(store, tp, log, cuts[|cuts| - 2], cuts[|cuts| - 1], canonical)
  {
    assert Holds(store, tp, log, cuts[|cuts| - 2], cuts[|cuts| - 2 + 1], canonical);
    var less := cuts[..|cuts| - 1];
    forall i | 0 <= i < |less| - 1 ensures Holds(store, tp, log, less[i], less[i + 1], canonical) {
      assert Holds(store, tp, log, cuts[i], cuts[i + 1], canonical);
    }
  }

  /** The objects under the cuts' keys, end to end. */
  function ReadBack(store: Store, tp: Tp, log: seq<Record>, cuts: seq<nat>, canonical: Canonical): seq<Record>
    requires Tiles(store, tp, log, cuts, canonical)
  {
    if |cuts| <= 1 then []
    else
      TilesPrefix(store, tp, log, cuts, canonical);
      ReadBack(store, tp, log, cuts[..|cuts| - 1], canonical) + store[KeyAt(tp, log, cuts[|cuts| - 2], canonical)]
  }

  lemma {:induction false} TilesReadBack(store: Store, tp: Tp, log: seq<Record>, cuts: seq<nat>, end: nat, canonical: Canonical)
    requires Tiles(store, tp, log, cuts, canonical) && Cuts(cuts, end) && end <= |log|
    ensures ReadBack(store, tp, log, cuts, canonical) == log[..end]
    decreases |cuts|
  {
    if |cuts| > 1 {
      var mid := cuts[|cuts| - 2];
      TilesPrefix(store, tp, log, cuts, canonical);
      TilesReadBack(store, tp, log, cuts[..|cuts| - 1], mid, canonical);
      assert log[..mid] + log[mid..end] == log[..end];
    }
  }

  /** Exactly once, at the file grain, after any run: read in start order, the objects below
      the commit are the committed log; every object of the partition is one of them or
      starts exactly at the commit and holds a run of the log from there; each holds one
      date. */
  lemma ExactlyOnce(es: seq<Event>, tp: Tp, logs: Logs, config: Config) returns (cuts: seq<nat>)
    requires GapFree(Log(logs, tp)) && AloneIn(tp, logs, config.canonical)
    ensures var st, log := Run(es, logs, config), Log(logs, tp);
            && Stored(st, tp, log, cuts, config.canonical)
            && ReadBack(st.store, tp, log, cuts, config.canonical) == log[..At(st.committed, tp)]
  {
    cuts := RunKeeps(es, tp, logs, config);
    var st, log := Run(es, logs, config), Log(logs, tp);
    TilesReadBack(st.store, tp, log, cuts, At(st.committed, tp), config.canonical);
  }

  /** Flushing a buffer to the end commits everything its partition was handed. */
  lemma FlushCommitsAll(es: seq<Event>, tp: Tp, logs: Logs, config: Config)
    requires GapFree(Log(logs, tp)) && AloneIn(tp, logs, config.canonical)
    ensures var st, after := Run(es, logs, config), Run(es + [Flush(tp, Landed)], logs, config);
            At(after.committed, tp) == At(after.position, tp) == At(st.position, tp) && tp !in after.buffers
  {
    var cuts := RunKeeps(es, tp, logs, config);
    assert (es + [Flush(tp, Landed)])[..|es|] == es;
    var st := Run(es, logs, config);
    if tp in st.buffers {
      PutIsAtCommit(st, tp, Log(logs, tp), config);
    }
  }

  // ---------- buffers stay small ----------

  /** Between events every buffer is under the size limit. */
  predicate AllSmall(st: State, config: Config) {
    forall tp :: tp in st.buffers ==> st.buffers[tp].records != [] && st.buffers[tp].bytes < config.flushBytes
  }

  lemma FlushStaysSmall(st: State, tp: Tp, fate: Fate, config: Config)
    requires AllSmall(st, config)
    ensures AllSmall(TryFlush(st, tp, fate, config), config)
  {
  }

  lemma FillStaysSmall(st: State, tp: Tp, rec: Record, now: int, full: Fate, config: Config)
    requires AllSmall(st, config)
    ensures AllSmall(AddAndFill(st, tp, rec, now, full, config), config)
  {
    var added := Added(st, tp, rec, now);
    assert added.buffers == st.buffers[tp := Grown(st, tp, rec, now)];
    assert Grown(st, tp, rec, now).records != [];
  }

  lemma StepStaysSmall(st: State, e: Event, logs: Logs, config: Config)
    requires AllSmall(st, config)
    ensures AllSmall(Step(st, e, logs, config), config)
  {
    match e
    case Deliver(tp, now, cut, full) =>
      if At(st.position, tp) < |Log(logs, tp)| {
        var rec := Log(logs, tp)[At(st.position, tp)];
        FlushStaysSmall(st, tp, cut, config);
        FillStaysSmall(st, tp, rec, now, full, config);
        FillStaysSmall(TryFlush(st, tp, cut, config), tp, rec, now, full, config);
      }
    case Flush(tp, fate) =>
      FlushStaysSmall(st, tp, fate, config);
    case Lose(tps) =>
  }

  /** In every run no buffer reaches the size at which it must be flushed. */
  lemma {:induction false} BuffersStaySmall(es: seq<Event>, logs: Logs, config: Config)
    ensures AllSmall(Run(es, logs, config), config)
  {
    if es != [] {
      BuffersStaySmall(es[..|es| - 1], logs, config);
      StepStaysSmall(Run(es[..|es| - 1], logs, config), es[|es| - 1], logs, config);
    }
  }

  // ---------- the assumption is needed ----------

  /** Two partitions that share a place: the second one's first object replaces the
      first's, though both offsets are committed. */
  lemma SharedPlaceLoses(a: Tp, b: Tp, logs: Logs, config: Config) returns (es: seq<Event>)
    requires a != b && a in logs && b in logs && SamePlace(a, b, config.canonical)
    requires |logs[a]| > 0 && |logs[b]| > 0 && GapFree(logs[a]) && GapFree(logs[b])
    requires Day(logs[a][0].timestampMs) == Day(logs[b][0].timestampMs) && logs[a][0] != logs[b][0]
    ensures var st := Run(es, logs, config);
            && At(st.committed, a) == 1
            && KeyAt(a, logs[a], 0, config.canonical) in st.store
            && st.store[KeyAt(a, logs[a], 0, config.canonical)] == [logs[b][0]] != logs[a][..1]
  {
    var first: seq<Event> := [] + [Deliver(a, 0, Landed, Landed), Flush(a, Landed)];
    es := first + [Deliver(b, 0, Landed, Landed), Flush(b, Landed)];
    WritesOne([], a, logs, config);
    WritesOne(first, b, logs, config);
    SecondReplaces(a, b, logs[a][0], logs[b][0], config.canonical);
    assert logs[a][..1][0] == logs[a][0];
  }

  function OneWritten(st: State, tp: Tp, rec: Record, canonical: Canonical): State {
    State(st.buffers, st.position[tp := 1], st.committed[tp := 1], st.store[ObjectKey(tp, canonical, 0, Day(rec.timestampMs)) := [rec]])
  }

  lemma SecondReplaces(a: Tp, b: Tp, x: Record, y: Record, canonical: Canonical)
    requires a != b && SamePlace(a, b, canonical) && Day(x.timestampMs) == Day(y.timestampMs)
    ensures var st := OneWritten(OneWritten(Start(), a, x, canonical), b, y, canonical);
            && At(st.committed, a) == 1 && ObjectKey(a, canonical, 0, Day(x.timestampMs)) in st.store
            && st.store[ObjectKey(a, canonical, 0, Day(x.timestampMs))] == [y]
  {
  }

  /** Taking and flushing a partition's first record. */
  lemma TakesOne(st: State, tp: Tp, rec: Record, config: Config)
    requires tp !in st.buffers && rec.offset == 0
    ensures var taken := TryFlush(AppendTo(st, tp, rec, 0, Landed, Landed, config), tp, Landed, config);
            taken == OneWritten(st, tp, rec, config.canonical)
  {
    var added := Added(st, tp, rec, 0);
    assert added.buffers[tp].records == [rec];
    assert added.buffers - {tp} == st.buffers;
  }

  /** Delivering and flushing a partition's first record. */
  lemma WritesOne(es: seq<Event>, tp: Tp, logs: Logs, config: Config)
    requires tp in logs && |logs[tp]| > 0 && GapFree(logs[tp])
    requires var st := Run(es, logs, config); tp !in st.buffers && tp !in st.position
    ensures Run(es + [Deliver(tp, 0, Landed, Landed), Flush(tp, Landed)], logs, config)
            == OneWritten(Run(es, logs, config), tp, logs[tp][0], config.canonical)
  {
    var deliver, flush := Deliver(tp, 0, Landed, Landed), Flush(tp, Landed);
    assert es + [deliver, flush] == (es + [deliver]) + [flush];
    RunPush(Start(), es, deliver, logs, config);
    RunPush(Start(), es + [deliver], flush, logs, config);
    StepsTakeOne(Run(es, logs, config), tp, logs, config);
  }

  lemma StepsTakeOne(st: State, tp: Tp, logs: Logs, config: Config)
    requires tp in logs && |logs[tp]| > 0 && GapFree(logs[tp]) && tp !in st.buffers && tp !in st.position
    ensures Step(Step(st, Deliver(tp, 0, Landed, Landed), logs, config), Flush(tp, Landed), logs, config)
            == OneWritten(st, tp, logs[tp][0], config.canonical)
  {
    TakesOne(st, tp, logs[tp][0], config);
  }

  // ---------- the service ----------

  /** No buffer is empty. */
  predicate NoneEmpty(buffers: map<Tp, Buffer>) {
    forall tp :: tp in buffers ==> buffers[tp].records != []
  }

  lemma MinusMore(buffers: map<Tp, Buffer>, due: set<Tp>, left: set<Tp>, tp: Tp)
    requires tp in left && left <= due <= buffers.Keys
    ensures tp in buffers - (due - left)
    ensures (buffers - (due - left)) - {tp} == buffers - (due - (left - {tp}))
  {
  }

  class Materializer {
    const config: Config
    var buffers: map<Tp, Buffer>
    var position: map<Tp, nat>
    var committed: map<Tp, nat>
    var store: Store

    function Value(): State
      reads this
    {
      State(buffers, position, committed, store)
    }

    constructor (config: Config)
      ensures Value() == Start() && this.config == config
    {
      this.config := config;
      buffers, position, committed, store := map[], map[], map[], map[];
    }

    /** Pops the buffer, PUTs it, then commits.  A death leaves what the next process
        starts with. */
    method FlushOne(tp: Tp, fate: Fate)
      requires tp in buffers && buffers[tp].records != []
      modifies this
      ensures Value() == FlushTp(old(Value()), tp, fate, config)
    {
      var buf := buffers[tp];
      buffers := buffers - {tp};
      if fate.DiedBeforePut? {
        Restart();
        return;
      }
      store := store[ObjectKey(tp, config.canonical, buf.records[0].offset, buf.date) := buf.records];
      if fate.DiedBeforeCommit? {
        Restart();
        return;
      }
      committed := committed[tp := buf.records[|buf.records| - 1].offset + 1];
    }

    method Restart()
      modifies this`buffers, this`position
      ensures Value() == Restarted(old(Value()))
    {
      buffers, position := map[], committed;
    }

    method Push(tp: Tp, rec: Record, now: int)
      modifies this`buffers, this`position
      ensures Value() == Added(old(Value()), tp, rec, now)
    {
      var buf := if tp in buffers then buffers[tp] else Buffer(Day(rec.timestampMs), now, 0, []);
      assert [] + [rec] == [rec];
      buf := buf.(records := buf.records + [rec], bytes := buf.bytes + |rec.value|);
      buffers, position := buffers[tp := buf], position[tp := rec.offset + 1];
    }

    /** Buffers one delivered record. */
    method Append(tp: Tp, rec: Record, now: int, cut: Fate, full: Fate)
      requires NoneEmpty(buffers)
      modifies this
      ensures Value() == AppendTo(old(Value()), tp, rec, now, cut, full, config)
      ensures NoneEmpty(buffers)
    {
      if tp in buffers && buffers[tp].date != Day(rec.timestampMs) {
        FlushOne(tp, cut);
        if !cut.Landed? {
          return;
        }
      }
      Push(tp, rec, now);
      if buffers[tp].bytes >= config.flushBytes {
        FlushOne(tp, full);
      }
    }

    /** Flushes the listed buffers one by one, until a flush fails. */
    method FlushEach(due: set<Tp>, fates: map<Tp, Fate>) returns (alive: bool, ghost es: seq<Event>)
      requires NoneEmpty(buffers) && due <= buffers.Keys
      modifies this
      ensures Value() == RunFrom(old(Value()), es, map[], config)
      ensures forall e :: e in es ==> e.Flush? && e.tp in due
      ensures alive ==> buffers == old(buffers) - due && position == old(position)
      ensures NoneEmpty(buffers)
    {
      var left := due;
      alive, es := true, [];
      while left != {} && alive
        invariant left <= due && NoneEmpty(buffers)
        invariant Value() == RunFrom(old(Value()), es, map[], config)
        invariant forall e :: e in es ==> e.Flush? && e.tp in due
        invariant alive ==> buffers == old(buffers) - (due - left) && position == old(position)
        decreases |left|
      {
        var tp :| tp in left;
        var fate := if tp in fates then fates[tp] else Landed;
        RunPush(old(Value()), es, Flush(tp, fate), map[], config);
        MinusMore(old(buffers), due, left, tp);
        FlushOne(tp, fate);
        left, es, alive := left - {tp}, es + [Flush(tp, fate)], fate.Landed?;
      }
      assert due - {} == due;
    }

    /** The age flush. */
    method FlushDue(now: int, interval: int, fates: map<Tp, Fate>) returns (alive: bool, ghost es: seq<Event>)
      requires NoneEmpty(buffers)
      modifies this
      ensures Value() == RunFrom(old(Value()), es, map[], config) && forall e :: e in es ==> e.Flush?
      ensures alive ==> forall tp :: tp in buffers <==> tp in old(buffers) && now - old(buffers)[tp].firstAppend < interval
      ensures NoneEmpty(buffers)
    {
      var due := set tp | tp in buffers && now - buffers[tp].firstAppend >= interval;
      alive, es := FlushEach(due, fates);
    }

    /** The final sweep. */
    method FlushAll(fates: map<Tp, Fate>) returns (alive: bool, ghost es: seq<Event>)
      requires NoneEmpty(buffers)
      modifies this
      ensures Value() == RunFrom(old(Value()), es, map[], config) && forall e :: e in es ==> e.Flush?
      ensures alive ==> buffers == map[]
    {
      alive, es := FlushEach(buffers.Keys, fates);
    }

    /** Drops the buffers of revoked partitions. */
    method Revoke(tps: set<Tp>)
      modifies this`buffers, this`position
      ensures Value() == Revoked(old(Value()), tps)
    {
      buffers := buffers - tps;
      position := map tp | tp in position.Keys + tps :: if tp in tps then At(committed, tp) else position[tp];
    }
  }

  /** How the events of a flush continue a run. */
  lemma {:induction false} RunContinues(es: seq<Event>, more: seq<Event>, logs: Logs, config: Config)
    requires forall e :: e in more ==> e.Flush?
    ensures Run(es + more, logs, config) == RunFrom(Run(es, logs, config), more, map[], config)
  {
    if more == [] {
      assert es + more == es;
    } else {
      assert (es + more)[..|es + more| - 1] == es + more[..|more| - 1];
      assert more[|more| - 1] in more;
      RunContinues(es, more[..|more| - 1], logs, config);
    }
  }

  /** So the flushes of `FlushDue` and `FlushAll`, after any run, leave every committed record
      in exactly one object; and once nothing is buffered, every record handed out is. */
  lemma FlushesKeepExactlyOnce(es: seq<Event>, flushes: seq<Event>, tp: Tp, logs: Logs, config: Config)
    returns (cuts: seq<nat>)
    requires GapFree(Log(logs, tp)) && AloneIn(tp, logs, config.canonical)
    requires forall e :: e in flushes ==> e.Flush?
    ensures var st, log := RunFrom(Run(es, logs, config), flushes, map[], config), Log(logs, tp);
            && Stored(st, tp, log, cuts, config.canonical)
            && ReadBack(st.store, tp, log, cuts, config.canonical) == log[..At(st.committed, tp)]
            && (tp !in st.buffers ==> At(st.committed, tp) == At(st.position, tp))
  {
    RunContinues(es, flushes, logs, config);
    cuts := RunKeeps(es + flushes, tp, logs, config);
    var st, log := Run(es + flushes, logs, config), Log(logs, tp);
    TilesReadBack(st.store, tp, log, cuts, At(st.committed, tp), config.canonical);
  }
}
