/** Warm start: where each partition's replay begins, and the gate that holds derived
    output until the replayed backlog has drained. */
module WarmStart {
  import opened Levels
  import opened Stream
  import C = Convergence

  // ---------- the plan ----------

  datatype TopicClass = Snapshots | Deltas | Trades | Status | Other

  predicate StartsWith(s: string, prefix: string) {
    prefix <= s
  }

  predicate EndsWith(s: string, suffix: string) {
    |suffix| <= |s| && s[|s| - |suffix|..] == suffix
  }

  function ClassifyTopic(topic: string): TopicClass {
    if StartsWith(topic, "md.status.") then Status
    else if StartsWith(topic, "md.trades.") then Trades
    else if StartsWith(topic, "md.book.") then
      if EndsWith(topic, ".snapshots") then Snapshots else if EndsWith(topic, ".deltas") then Deltas else Other
    else Other
  }

  datatype PartitionEnd = PartitionEnd(partition: nat, high: nat)

  /** What the broker answers for a topic: each partition's end, and the first offset at or
      after the cutoff, or -1. */
  datatype TopicOffsets = TopicOffsets(topic: string, ends: seq<PartitionEnd>, firstAt: map<nat, int>)

  datatype Seek = Seek(topic: string, partition: nat, offset: nat, drainTo: Option<nat>)

  predicate IsBook(cls: TopicClass) {
    cls.Snapshots? || cls.Deltas?
  }

  function SeekOffset(cls: TopicClass, high: nat, at: int): nat {
    if cls.Trades? || at < 0 || at >= high then high
    else if cls.Snapshots? then high - 1
    else at
  }

  function SeekFor(topic: string, end: PartitionEnd, firstAt: map<nat, int>): Seek {
    var cls := ClassifyTopic(topic);
    var at := if end.partition in firstAt then firstAt[end.partition] else -1;
    var offset := SeekOffset(cls, end.high, at);
    Seek(topic, end.partition, offset, if IsBook(cls) && offset < end.high then Some(end.high - 1) else None)
  }

  function TopicSeeks(t: TopicOffsets, ends: seq<PartitionEnd>): seq<Seek> {
    if ends == [] then [] else TopicSeeks(t, ends[..|ends| - 1]) + [SeekFor(t.topic, ends[|ends| - 1], t.firstAt)]
  }

  function Plan(topics: seq<TopicOffsets>): seq<Seek> {
    if topics == [] then []
    else
      var t := topics[|topics| - 1];
      Plan(topics[..|topics| - 1]) + if ClassifyTopic(t.topic).Other? then [] else TopicSeeks(t, t.ends)
  }

  // ---------- the plan, told by topic names ----------

  function DeltaTopic(name: string): string {
    "md.book." + name + ".deltas"
  }

  function SnapshotTopic(name: string): string {
    "md.book." + name + ".snapshots"
  }

  /** The broker knows an offset of the partition inside the lookback. */
  predicate HasRecent(t: TopicOffsets, end: PartitionEnd) {
    end.partition in t.firstAt && 0 <= t.firstAt[end.partition] < end.high
  }

  /** Deltas are replayed from the first offset inside the lookback, snapshots from the newest,
      both to the partition's end; trades start at the live edge; status is read from the
      first offset inside the lookback, and holds nothing back. With nothing recent every
      topic starts at the live edge. */
  ghost predicate IsSeekOf(s: Seek, t: TopicOffsets, end: PartitionEnd) {
    && s.topic == t.topic && s.partition == end.partition
    && (!HasRecent(t, end) ==> s.offset == end.high && s.drainTo.None?)
    && (forall name :: t.topic == "md.trades." + name ==> s.offset == end.high && s.drainTo.None?)
    && (HasRecent(t, end) ==>
          && (forall head :: "md.book." <= t.topic && t.topic == head + ".deltas" ==>
                s.offset == t.firstAt[end.partition] && s.drainTo == Some(end.high - 1))
          && (forall head :: "md.book." <= t.topic && t.topic == head + ".snapshots" ==>
                s.offset == end.high - 1 && s.drainTo == Some(end.high - 1))
          && (forall name :: t.topic == "md.status." + name ==>
                s.offset == t.firstAt[end.partition] && s.drainTo.None?))
  }

  /** The topics that get a seek, by name. */
  predicate IsPlanned(topic: string) {
    || "md.status." <= topic || "md.trades." <= topic
    || ("md.book." <= topic && (EndsWith(topic, ".snapshots") || EndsWith(topic, ".deltas")))
  }

  lemma EndsAlike(s: string, suffix: string, k: nat)
    requires 0 < k <= |suffix|
    ensures EndsWith(s, suffix) ==> s[|s| - k] == suffix[|suffix| - k]
  {
  }

  lemma NamedDeltas(head: string)
    requires "md.book." <= head + ".deltas"
    ensures ClassifyTopic(head + ".deltas") == Deltas
  {
    var t := head + ".deltas";
    assert t[3] == 'b' && t[|t| - 7..] == ".deltas";
    EndsAlike(t, ".deltas", 2);
    EndsAlike(t, ".snapshots", 2);
  }

  lemma NamedSnapshots(head: string)
    requires "md.book." <= head + ".snapshots"
    ensures ClassifyTopic(head + ".snapshots") == Snapshots
  {
    var t := head + ".snapshots";
    assert t[3] == 'b' && t[|t| - 10..] == ".snapshots";
  }

  lemma NamedOthers(name: string)
    ensures ClassifyTopic("md.trades." + name) == Trades && ClassifyTopic("md.status." + name) == Status
  {
    var t := "md.trades." + name;
    assert t[3] == 't' && "md.status."[3] == 's';
  }

  /** Each partition's seek is what its topic's name asks for. */
  lemma SeekByName(t: TopicOffsets, end: PartitionEnd)
    ensures IsSeekOf(SeekFor(t.topic, end, t.firstAt), t, end)
  {
    forall head | "md.book." <= head + ".deltas" ensures ClassifyTopic(head + ".deltas") == Deltas {
      NamedDeltas(head);
    }
    forall head | "md.book." <= head + ".snapshots" ensures ClassifyTopic(head + ".snapshots") == Snapshots {
      NamedSnapshots(head);
    }
    forall name ensures ClassifyTopic("md.trades." + name) == Trades && ClassifyTopic("md.status." + name) == Status {
      NamedOthers(name);
    }
  }

  /** The plan has a seek for each partition of each planned topic, and no other. */
  ghost predicate Plans(seeks: seq<Seek>, topics: seq<TopicOffsets>) {
    && (forall i, j :: 0 <= i < |topics| && 0 <= j < |topics[i].ends| && IsPlanned(topics[i].topic) ==>
          HasSeek(seeks, topics[i], topics[i].ends[j]))
    && (forall s :: s in seeks ==> IsAskedFor(s, topics))
  }

  ghost predicate HasSeek(seeks: seq<Seek>, t: TopicOffsets, end: PartitionEnd) {
    exists s :: s in seeks && IsSeekOf(s, t, end)
  }

  ghost predicate IsAskedFor(s: Seek, topics: seq<TopicOffsets>) {
    exists i, j ::
      0 <= i < |topics| && 0 <= j < |topics[i].ends| && IsPlanned(topics[i].topic) && IsSeekOf(s, topics[i], topics[i].ends[j])
  }

  lemma {:induction false} TopicSeeksAt(t: TopicOffsets, ends: seq<PartitionEnd>)
    ensures |TopicSeeks(t, ends)| == |ends|
    ensures forall j :: 0 <= j < |ends| ==> TopicSeeks(t, ends)[j] == SeekFor(t.topic, ends[j], t.firstAt)
  {
    if ends != [] {
      TopicSeeksAt(t, ends[..|ends| - 1]);
    }
  }

  lemma {:induction false} PlanHas(topics: seq<TopicOffsets>, i: nat, j: nat)
    requires i < |topics| && j < |topics[i].ends| && IsPlanned(topics[i].topic)
    ensures SeekFor(topics[i].topic, topics[i].ends[j], topics[i].firstAt) in Plan(topics)
  {
    var t := topics[|topics| - 1];
    if i == |topics| - 1 {
      TopicSeeksAt(t, t.ends);
      assert SeekFor(t.topic, t.ends[j], t.firstAt) in TopicSeeks(t, t.ends);
    } else {
      PlanHas(topics[..|topics| - 1], i, j);
    }
  }

  lemma {:induction false} PlanOnly(topics: seq<TopicOffsets>, s: Seek) returns (i: nat, j: nat)
    requires s in Plan(topics)
    ensures i < |topics| && j < |topics[i].ends| && IsPlanned(topics[i].topic)
    ensures s == SeekFor(topics[i].topic, topics[i].ends[j], topics[i].firstAt)
  {
    var rest, t := topics[..|topics| - 1], topics[|topics| - 1];
    if s in Plan(rest) {
      i, j := PlanOnly(rest, s);
    } else {
      TopicSeeksAt(t, t.ends);
      i := |topics| - 1;
      j :| 0 <= j < |t.ends| && TopicSeeks(t, t.ends)[j] == s;
    }
  }

  lemma PlanSeeks(topics: seq<TopicOffsets>, i: nat, j: nat)
    requires i < |topics| && j < |topics[i].ends| && IsPlanned(topics[i].topic)
    ensures HasSeek(Plan(topics), topics[i], topics[i].ends[j])
  {
    PlanHas(topics, i, j);
    SeekByName(topics[i], topics[i].ends[j]);
  }

  lemma PlanIsAskedFor(topics: seq<TopicOffsets>, s: Seek)
    requires s in Plan(topics)
    ensures IsAskedFor(s, topics)
  {
    var i, j := PlanOnly(topics, s);
    SeekByName(topics[i], topics[i].ends[j]);
  }

  /** The plan is what the topics' names ask for. */
  lemma PlanByName(topics: seq<TopicOffsets>)
    ensures Plans(Plan(topics), topics)
  {
    forall i, j | 0 <= i < |topics| && 0 <= j < |topics[i].ends| && IsPlanned(topics[i].topic)
      ensures HasSeek(Plan(topics), topics[i], topics[i].ends[j])
    {
      PlanSeeks(topics, i, j);
    }
    forall s | s in Plan(topics) ensures IsAskedFor(s, topics) {
      PlanIsAskedFor(topics, s);
    }
  }

  method PlanWarmStart(topics: seq<TopicOffsets>) returns (seeks: seq<Seek>)
    ensures seeks == Plan(topics) && Plans(seeks, topics)
  {
    seeks := [];
    for i := 0 to |topics|
      invariant seeks == Plan(topics[..i])
    {
      assert topics[..i + 1][..i] == topics[..i];
      var t := topics[i];
      if !ClassifyTopic(t.topic).Other? {
        var planned := PlanTopic(t);
        seeks := seeks + planned;
      }
    }
    assert topics[..|topics|] == topics;
    PlanByName(topics);
  }

  method PlanTopic(t: TopicOffsets) returns (seeks: seq<Seek>)
    ensures seeks == TopicSeeks(t, t.ends)
    ensures |seeks| == |t.ends| && forall j :: 0 <= j < |t.ends| ==> IsSeekOf(seeks[j], t, t.ends[j])
  {
    seeks := [];
    for i := 0 to |t.ends|
      invariant seeks == TopicSeeks(t, t.ends[..i])
    {
      assert t.ends[..i + 1][..i] == t.ends[..i];
      var cls, end := ClassifyTopic(t.topic), t.ends[i];
      var offset := end.high;
      if !cls.Trades? {
        var at := if end.partition in t.firstAt then t.firstAt[end.partition] else -1;
        var withinLookback := at >= 0 && at < end.high;
        if withinLookback {
          offset := if cls.Snapshots? then end.high - 1 else at;
        }
      }
      var drainTo := None;
      if (cls.Snapshots? || cls.Deltas?) && offset < end.high {
        drainTo := Some(end.high - 1);
      }
      seeks := seeks + [Seek(t.topic, end.partition, offset, drainTo)];
    }
    assert t.ends[..|t.ends|] == t.ends;
    TopicSeeksAt(t, t.ends);
    forall j | 0 <= j < |t.ends| ensures IsSeekOf(seeks[j], t, t.ends[j]) {
      SeekByName(t, t.ends[j]);
    }
  }

  // ---------- what the plan covers ----------

  /** `at` is the first place in the log at or after the cutoff. The log may have grown past
      `high` since the ends were read. */
  predicate Answers(times: seq<int>, high: nat, at: int, cutoff: int) {
    && high <= |times|
    && (at < 0 ==> forall i :: 0 <= i < |times| ==> times[i] < cutoff)
    && (at >= 0 ==> at < |times| && times[at] >= cutoff && forall i :: 0 <= i < at ==> times[i] < cutoff)
  }

  predicate Recent(times: seq<int>, high: nat, cutoff: int) {
    exists i :: 0 <= i < high <= |times| && times[i] >= cutoff
  }

  /** A replayed topic starts at the first record inside the lookback: nothing recent is
      skipped, and nothing older is read first. */
  lemma SeekCoversLookback(cls: TopicClass, times: seq<int>, high: nat, at: int, cutoff: int)
    requires Answers(times, high, at, cutoff) && (cls.Deltas? || cls.Status?)
    ensures var o := SeekOffset(cls, high, at);
            && o <= high
            && (forall i :: 0 <= i < high && times[i] >= cutoff ==> o <= i)
            && (o < high ==> times[o] >= cutoff)
  {
    if at >= high {
      assert forall i :: 0 <= i < high ==> times[i] < cutoff;
    }
  }

  /** The snapshot topic starts at its newest record, if any lies inside the lookback. */
  lemma SnapshotSeekIsNewest(times: seq<int>, high: nat, at: int, cutoff: int)
    requires Answers(times, high, at, cutoff)
    ensures SeekOffset(Snapshots, high, at) == if Recent(times, high, cutoff) then high - 1 else high
  {
    if 0 <= at < high {
      assert times[at] >= cutoff;
    }
  }

  /** A seek is gated exactly when it replays a book backlog, and then starts inside it. */
  lemma {:induction false} PlanGates(topics: seq<TopicOffsets>)
    ensures forall s :: s in Plan(topics) ==>
              && !ClassifyTopic(s.topic).Other?
              && (s.drainTo.Some? ==> s.offset <= s.drainTo.value && IsBook(ClassifyTopic(s.topic)))
  {
    if topics != [] {
      PlanGates(topics[..|topics| - 1]);
      var t := topics[|topics| - 1];
      TopicGates(t, t.ends);
    }
  }

  lemma {:induction false} TopicGates(t: TopicOffsets, ends: seq<PartitionEnd>)
    ensures forall s :: s in TopicSeeks(t, ends) ==> s.topic == t.topic
    ensures forall s :: s in TopicSeeks(t, ends) && s.drainTo.Some? ==> s.offset <= s.drainTo.value && IsBook(ClassifyTopic(s.topic))
  {
    if ends != [] {
      TopicGates(t, ends[..|ends| - 1]);
    }
  }

  /** Every delta that a snapshot does not hold was written no earlier than it. */
  predicate WrittenAfter<E>(deltas: seq<Message<E>>, times: seq<int>, s: Message<E>, snapTime: int)
    requires |deltas| <= |times|
  {
    forall i :: 0 <= i < |deltas| && deltas[i].epoch == s.epoch && deltas[i].sequence > s.sequence ==> times[i] >= snapTime
  }

  /** The delta seek covers everything that a snapshot inside the lookback lacks. */
  lemma SeekCoversSnapshot<E>(deltas: seq<Message<E>>, times: seq<int>, high: nat, at: int, cutoff: int, s: Message<E>, snapTime: int)
    requires high <= |deltas| <= |times| && Answers(times, high, at, cutoff)
    requires cutoff <= snapTime && WrittenAfter(deltas, times, s, snapTime)
    ensures C.CoversAfter(deltas, SeekOffset(Deltas, high, at), s)
  {
    SeekCoversLookback(Deltas, times, high, at, cutoff);
  }

  /** What the broker answered about one stream's two topics when the seeks were planned: the
      ends they had then, and the first offsets inside the lookback. */
  datatype Answered = Answered(snapTimes: seq<int>, snapEnd: nat, snapAt: int,
                               deltaTimes: seq<int>, deltaEnd: nat, deltaAt: int, cutoff: int)

  /** The topics may have grown since. The newest snapshot of that time, and the snapshot
      `opening` from which the book will be rebuilt, lie inside the lookback. */
  predicate Asked<E>(snaps: seq<Message<E>>, deltas: seq<Message<E>>, opening: nat, a: Answered) {
    && 0 < a.snapEnd <= |snaps| <= |a.snapTimes| && a.deltaEnd <= |deltas| <= |a.deltaTimes| && opening < |snaps|
    && Answers(a.snapTimes, a.snapEnd, a.snapAt, a.cutoff) && Answers(a.deltaTimes, a.deltaEnd, a.deltaAt, a.cutoff)
    && a.snapTimes[a.snapEnd - 1] >= a.cutoff && a.snapTimes[opening] >= a.cutoff
    && WrittenAfter(deltas, a.deltaTimes, snaps[opening], a.snapTimes[opening])
  }

  /** The broker's answer for a topic's partition. */
  predicate Tells(t: TopicOffsets, partition: nat, high: nat, at: int) {
    && (forall k :: 0 <= k < |t.ends| && t.ends[k].partition == partition ==> t.ends[k].high == high)
    && at == if partition in t.firstAt then t.firstAt[partition] else -1
  }

  /** The answers the plan was made from are those about the stream called `name`. */
  predicate PlannedFrom(topics: seq<TopicOffsets>, name: string, partition: nat, a: Answered) {
    forall i :: 0 <= i < |topics| ==>
      && (topics[i].topic == SnapshotTopic(name) ==> Tells(topics[i], partition, a.snapEnd, a.snapAt))
      && (topics[i].topic == DeltaTopic(name) ==> Tells(topics[i], partition, a.deltaEnd, a.deltaAt))
  }

  /** A planned seek of one of the stream's two topics. */
  predicate PlansSeek(topics: seq<TopicOffsets>, s: Seek, topic: string, partition: nat) {
    s in Plan(topics) && s.topic == topic && s.partition == partition
  }

  lemma PlannedOffsets(topics: seq<TopicOffsets>, name: string, partition: nat, a: Answered, snapSeek: Seek, deltaSeek: Seek)
    requires PlannedFrom(topics, name, partition, a)
    requires PlansSeek(topics, snapSeek, SnapshotTopic(name), partition)
    requires PlansSeek(topics, deltaSeek, DeltaTopic(name), partition)
    ensures snapSeek.offset == SeekOffset(Snapshots, a.snapEnd, a.snapAt)
    ensures deltaSeek.offset == SeekOffset(Deltas, a.deltaEnd, a.deltaAt)
  {
    var i, j := PlanOnly(topics, snapSeek);
    var k, l := PlanOnly(topics, deltaSeek);
    NamedSnapshots("md.book." + name);
    NamedDeltas("md.book." + name);
    assert Tells(topics[i], partition, a.snapEnd, a.snapAt);
    assert Tells(topics[k], partition, a.deltaEnd, a.deltaAt);
  }

  lemma PlanCovers<E>(snaps: seq<Message<E>>, deltas: seq<Message<E>>, opening: nat, a: Answered)
    requires Asked(snaps, deltas, opening, a)
    ensures SeekOffset(Snapshots, a.snapEnd, a.snapAt) == a.snapEnd - 1
    ensures C.CoversAfter(deltas, SeekOffset(Deltas, a.deltaEnd, a.deltaAt), snaps[opening])
  {
    SnapshotSeekIsNewest(a.snapTimes, a.snapEnd, a.snapAt, a.cutoff);
    assert Recent(a.snapTimes, a.snapEnd, a.cutoff);
    SeekCoversSnapshot(deltas, a.deltaTimes, a.deltaEnd, a.deltaAt, a.cutoff, snaps[opening], a.snapTimes[opening]);
  }

  /** `ws` interleaves what the two topics hold from the given offsets on. */
  ghost predicate Resumes<E>(ws: seq<Message<E>>, ms: seq<Message<E>>, snapFrom: nat, deltaFrom: nat) {
    && snapFrom <= |C.SnapshotsOf(ms)| && deltaFrom <= |C.DeltasOf(ms)|
    && C.SnapshotsOf(ws) == C.SnapshotsOf(ms)[snapFrom..] && C.DeltasOf(ws) == C.DeltasOf(ms)[deltaFrom..]
  }

  /** A restart from the planned seeks of a stream's two topics, in any interleaving and reading
      on, through later re-snapshots and connections, keeps the book of a full replay. */
  lemma PlannedRestartIsFullReplay<E>(ms: seq<Message<E>>, ws: seq<Message<E>>, first: nat, opening: nat, a: Answered,
                                      topics: seq<TopicOffsets>, name: string, partition: nat, snapSeek: Seek, deltaSeek: Seek)
    requires C.LastEpochFrom(C.SnapshotsOf(ms), first) && C.Faithful(C.SnapshotsOf(ms), C.DeltasOf(ms), first)
    requires a.snapEnd > 0 && opening == C.OpeningFrom(first, a.snapEnd - 1)
    requires Asked(C.SnapshotsOf(ms), C.DeltasOf(ms), opening, a) && PlannedFrom(topics, name, partition, a)
    requires PlansSeek(topics, snapSeek, SnapshotTopic(name), partition)
    requires PlansSeek(topics, deltaSeek, DeltaTopic(name), partition)
    requires Resumes(ws, ms, snapSeek.offset, deltaSeek.offset)
    requires C.Quiet(ms, C.SnapshotsOf(ms)[first].epoch, C.SnapshotsOf(ms)[first].sequence)
    requires C.Quiet(ws, C.SnapshotsOf(ms)[opening].epoch, C.SnapshotsOf(ms)[opening].sequence)
    ensures Run(ws).book == Run(ms).book
  {
    PlannedOffsets(topics, name, partition, a, snapSeek, deltaSeek);
    PlanCovers(C.SnapshotsOf(ms), C.DeltasOf(ms), opening, a);
    C.WarmRestart(ms, ws, first, snapSeek.offset, deltaSeek.offset);
  }

  // ---------- the gate ----------

  datatype PartitionKey = PartitionKey(topic: string, partition: nat)

  datatype DrainState = DrainState(drainTo: nat, engaged: bool)

  type Gate = map<PartitionKey, DrainState>

  function GateOf(seeks: seq<Seek>): Gate {
    if seeks == [] then map[]
    else
      var s := seeks[|seeks| - 1];
      if s.drainTo.Some? then GateOf(seeks[..|seeks| - 1])[PartitionKey(s.topic, s.partition) := DrainState(s.drainTo.value, false)]
      else GateOf(seeks[..|seeks| - 1])
  }

  function KeyOf(s: Seek): PartitionKey {
    PartitionKey(s.topic, s.partition)
  }

  /** A gated seek that no later one of its partition replaces. */
  predicate GatesLast(seeks: seq<Seek>, i: int) {
    && 0 <= i < |seeks| && seeks[i].drainTo.Some?
    && forall j :: i < j < |seeks| && seeks[j].drainTo.Some? ==> KeyOf(seeks[j]) != KeyOf(seeks[i])
  }

  lemma {:induction false} GateHas(seeks: seq<Seek>, i: nat)
    requires GatesLast(seeks, i)
    ensures KeyOf(seeks[i]) in GateOf(seeks) && GateOf(seeks)[KeyOf(seeks[i])] == DrainState(seeks[i].drainTo.value, false)
  {
    if i < |seeks| - 1 {
      GateHas(seeks[..|seeks| - 1], i);
    }
  }

  lemma {:induction false} GateOnly(seeks: seq<Seek>, k: PartitionKey) returns (i: nat)
    requires k in GateOf(seeks)
    ensures GatesLast(seeks, i) && KeyOf(seeks[i]) == k
  {
    var rest, s := seeks[..|seeks| - 1], seeks[|seeks| - 1];
    if s.drainTo.Some? && KeyOf(s) == k {
      i := |seeks| - 1;
    } else {
      i := GateOnly(rest, k);
    }
  }

  predicate Warming(gate: Gate) {
    gate != map[]
  }

  datatype Observed = Observed(key: PartitionKey, offset: nat)

  function Observe(gate: Gate, o: Observed): Gate {
    if o.key !in gate then gate
    else
      var st := gate[o.key];
      var engaged := st.engaged || o.offset <= st.drainTo;
      if !engaged || o.offset < st.drainTo then gate[o.key := DrainState(st.drainTo, engaged)] else gate - {o.key}
  }

  /** The message that drains the last partition opens the gate. */
  predicate Opens(gate: Gate, o: Observed) {
    Warming(gate) && !Warming(Observe(gate, o))
  }

  function ObserveAll(gate: Gate, os: seq<Observed>): Gate {
    if os == [] then gate else Observe(ObserveAll(gate, os[..|os| - 1]), os[|os| - 1])
  }

  predicate Engaged(os: seq<Observed>, k: PartitionKey, target: nat) {
    exists i :: 0 <= i < |os| && os[i].key == k && os[i].offset <= target
  }

  /** An offset at or below the target was seen, and then (or at once) one at or above. */
  predicate Drained(os: seq<Observed>, k: PartitionKey, target: nat) {
    exists i, j :: 0 <= i <= j < |os| && os[i].key == k && os[i].offset <= target && os[j].key == k && os[j].offset >= target
  }

  lemma EngagedPush(os: seq<Observed>, o: Observed, k: PartitionKey, target: nat)
    ensures Engaged(os + [o], k, target) <==> Engaged(os, k, target) || (o.key == k && o.offset <= target)
  {
    var all := os + [o];
    if Engaged(os, k, target) {
      var i :| 0 <= i < |os| && os[i].key == k && os[i].offset <= target;
      assert all[i].key == k;
    }
    if o.key == k && o.offset <= target {
      assert all[|os|].key == k;
    }
  }

  lemma DrainedPush(os: seq<Observed>, o: Observed, k: PartitionKey, target: nat)
    ensures Drained(os + [o], k, target) <==>
              Drained(os, k, target) || (o.key == k && o.offset >= target && Engaged(os + [o], k, target))
  {
    var all := os + [o];
    if Drained(os, k, target) {
      var i, j :| 0 <= i <= j < |os| && os[i].key == k && os[i].offset <= target && os[j].key == k && os[j].offset >= target;
      assert all[i].key == k && all[j].key == k;
    }
    if o.key == k && o.offset >= target && Engaged(all, k, target) {
      var i :| 0 <= i < |all| && all[i].key == k && all[i].offset <= target;
      assert all[|os|].key == k;
    }
    if Drained(all, k, target) && !Drained(os, k, target) {
      var i, j :| 0 <= i <= j < |all| && all[i].key == k && all[i].offset <= target && all[j].key == k && all[j].offset >= target;
      assert j == |os|;
    }
  }

  /** A partition holds the gate exactly until it has drained. */
  lemma {:induction false} PendingUntilDrained(gate: Gate, os: seq<Observed>, k: PartitionKey)
    requires forall g :: g in gate ==> !gate[g].engaged
    ensures k in ObserveAll(gate, os) <==> k in gate && !Drained(os, k, gate[k].drainTo)
    ensures k in ObserveAll(gate, os) ==> ObserveAll(gate, os)[k] == DrainState(gate[k].drainTo, Engaged(os, k, gate[k].drainTo))
  {
    if os != [] {
      var rest, o := os[..|os| - 1], os[|os| - 1];
      PendingUntilDrained(gate, rest, k);
      assert os == rest + [o];
      if k in gate {
        EngagedPush(rest, o, k, gate[k].drainTo);
        DrainedPush(rest, o, k, gate[k].drainTo);
      }
    }
  }

  lemma {:induction false} GateStartsIdle(seeks: seq<Seek>)
    ensures forall g :: g in GateOf(seeks) ==> !GateOf(seeks)[g].engaged
  {
    if seeks != [] {
      GateStartsIdle(seeks[..|seeks| - 1]);
    }
  }

  /** Every gated partition has drained to its target. */
  predicate AllDrained(seeks: seq<Seek>, os: seq<Observed>) {
    forall i :: 0 <= i < |seeks| && GatesLast(seeks, i) ==> Drained(os, KeyOf(seeks[i]), seeks[i].drainTo.value)
  }

  /** The gate holds until every partition that the seeks gate has drained. */
  lemma WarmingUntilDrained(seeks: seq<Seek>, os: seq<Observed>)
    ensures !Warming(ObserveAll(GateOf(seeks), os)) <==> AllDrained(seeks, os)
  {
    GateStartsIdle(seeks);
    if Warming(ObserveAll(GateOf(seeks), os)) {
      var k := Member(ObserveAll(GateOf(seeks), os).Keys);
      PendingUntilDrained(GateOf(seeks), os, k);
      var i := GateOnly(seeks, k);
      GateHas(seeks, i);
    } else {
      forall i | 0 <= i < |seeks| && GatesLast(seeks, i) ensures Drained(os, KeyOf(seeks[i]), seeks[i].drainTo.value) {
        GateHas(seeks, i);
        PendingUntilDrained(GateOf(seeks), os, KeyOf(seeks[i]));
      }
    }
  }

  /** The gate opens on exactly the message that drains the last gated partition. */
  lemma OpensExactlyWhenDrained(seeks: seq<Seek>, os: seq<Observed>, o: Observed)
    ensures Opens(ObserveAll(GateOf(seeks), os), o) <==>
              !AllDrained(seeks, os) && AllDrained(seeks, os + [o])
  {
    WarmingUntilDrained(seeks, os);
    WarmingUntilDrained(seeks, os + [o]);
    assert (os + [o])[..|os|] == os;
  }

  lemma {:induction false} OpenStaysOpen(gate: Gate, os: seq<Observed>)
    requires !Warming(gate)
    ensures ObserveAll(gate, os) == map[]
  {
    if os != [] {
      OpenStaysOpen(gate, os[..|os| - 1]);
    }
  }

  lemma {:induction false} ObserveAllConcat(gate: Gate, a: seq<Observed>, b: seq<Observed>)
    ensures ObserveAll(gate, a + b) == ObserveAll(ObserveAll(gate, a), b)
  {
    if b == [] {
      assert a + b == a;
    } else {
      assert (a + b)[..|a + b| - 1] == a + b[..|b| - 1];
      ObserveAllConcat(gate, a, b[..|b| - 1]);
    }
  }

  /** It opens at most once. */
  lemma OpensAtMostOnce(gate: Gate, os: seq<Observed>, i: nat, j: nat)
    requires i < |os| && j < |os|
    requires Opens(ObserveAll(gate, os[..i]), os[i]) && Opens(ObserveAll(gate, os[..j]), os[j])
    ensures i == j
  {
    if i < j {
      OpenedBefore(gate, os, i, j);
    } else if j < i {
      OpenedBefore(gate, os, j, i);
    }
  }

  lemma OpenedBefore(gate: Gate, os: seq<Observed>, i: nat, j: nat)
    requires i < j < |os| && Opens(ObserveAll(gate, os[..i]), os[i])
    ensures !Warming(ObserveAll(gate, os[..j]))
  {
    assert os[..i + 1][..i] == os[..i];
    assert os[..j] == os[..i + 1] + os[i + 1..j];
    ObserveAllConcat(gate, os[..i + 1], os[i + 1..j]);
    OpenStaysOpen(ObserveAll(gate, os[..i + 1]), os[i + 1..j]);
  }

  /** Offsets past the target never release a partition that has not been replayed. */
  lemma {:induction false} StragglersHold(seeks: seq<Seek>, os: seq<Observed>, i: nat)
    requires GatesLast(seeks, i)
    requires forall j :: 0 <= j < |os| && os[j].key == KeyOf(seeks[i]) ==> os[j].offset > seeks[i].drainTo.value
    ensures Warming(ObserveAll(GateOf(seeks), os))
  {
    GateHas(seeks, i);
    GateStartsIdle(seeks);
    PendingUntilDrained(GateOf(seeks), os, KeyOf(seeks[i]));
  }

  class DrainGate {
    var pending: Gate

    constructor (seeks: seq<Seek>)
      ensures pending == GateOf(seeks)
    {
      var gate: Gate := map[];
      for i := 0 to |seeks|
        invariant gate == GateOf(seeks[..i])
      {
        assert seeks[..i + 1][..i] == seeks[..i];
        if seeks[i].drainTo.Some? {
          gate := gate[PartitionKey(seeks[i].topic, seeks[i].partition) := DrainState(seeks[i].drainTo.value, false)];
        }
      }
      assert seeks[..|seeks|] == seeks;
      pending := gate;
    }

    predicate IsWarming()
      reads this
    {
      pending != map[]
    }

    method Record(topic: string, partition: nat, offset: nat) returns (opens: bool)
      modifies this
      ensures pending == Observe(old(pending), Observed(PartitionKey(topic, partition), offset))
      ensures opens == Opens(old(pending), Observed(PartitionKey(topic, partition), offset))
      ensures opens <==> old(IsWarming()) && !IsWarming()
    {
      var key := PartitionKey(topic, partition);
      if key !in pending {
        return false;
      }
      var st := pending[key];
      if offset <= st.drainTo {
        st := st.(engaged := true);
        pending := pending[key := st];
      }
      if !st.engaged || offset < st.drainTo {
        assert pending[key] == st;
        return false;
      }
      pending := pending - {key};
      return pending == map[];
    }
  }
}
