/**
  Any number of relays over one outbox, interleaved at every await, with records being added meanwhile, relays
  crashing anywhere, and a broker that may receive a message late, more than once, or never (messaging.py).

  A record is identified by its index in the list, which only ever grows; that stands for the reference to the
  record object which a relay's snapshot holds.
 */
module RelayProtocol {
  import opened Basics
  import opened Sequences
  import opened Outbox

  /**
    A relay between passes, or inside one: `batch` is its snapshot, `next` the number of records it has marked, and
    `awaiting` says that the publish of `batch[next]` has been called and has not ended.
   */
  datatype Relay = Idle | Running(batch: seq<nat>, next: nat, awaiting: bool)

  /** `log` is what the broker received, as record indices; `attempted` are the records ever handed to publish. */
  datatype System = System(records: seq<Record>, log: seq<nat>, attempted: set<nat>, relays: map<nat, Relay>)

  datatype Action =
    | Add(record: Record)
    | Snapshot(relay: nat, limit: int)  // list_unpublished, at the start of a pass
    | Publish(relay: nat)               // publish is called for the next record of the snapshot
    | Arrive(relay: nat)                // the message being published reaches the broker
    | ArriveLate(index: nat)            // a message handed to publish at any earlier time reaches it (again)
    | Ack(relay: nat)                   // publish returns; the record is marked
    | Stop(relay: nat)                  // publish raises, or the relay crashes, or its pass is over

  const INIT := System([], [], {}, map[])

  function RelayOf(s: System, r: nat): Relay {
    if r in s.relays then s.relays[r] else Idle
  }

  /**
    Record ids are unique, and `publish` returns only once the broker has the message.  That a snapshot refers to
    stored records is no restriction: the invariant below says so.
   */
  ghost predicate Enabled(s: System, a: Action) {
    match a
    case Add(record) => forall i :: 0 <= i < |s.records| ==> s.records[i].id != record.id
    case Snapshot(r, _) => RelayOf(s, r).Idle?
    case Publish(r) => var relay := RelayOf(s, r); relay.Running? && !relay.awaiting && relay.next < |relay.batch|
    case Arrive(r) => var relay := RelayOf(s, r); relay.Running? && relay.awaiting && relay.next < |relay.batch|
    case ArriveLate(i) => i in s.attempted
    case Ack(r) =>
      var relay := RelayOf(s, r);
      && relay.Running? && relay.awaiting && relay.next < |relay.batch|
      && relay.batch[relay.next] < |s.records| && relay.batch[relay.next] in s.log
    case Stop(r) => RelayOf(s, r).Running?
  }

  ghost function Apply(s: System, a: Action): System
    requires Enabled(s, a)
  {
    match a
    case Add(record) => s.(records := s.records + [record])
    case Snapshot(r, limit) => s.(relays := s.relays[r := Running(SliceTo(Pending(s.records), limit), 0, false)])
    case Publish(r) =>
      var relay := s.relays[r];
      s.(attempted := s.attempted + {relay.batch[relay.next]}, relays := s.relays[r := relay.(awaiting := true)])
    case Arrive(r) =>
      var relay := s.relays[r];
      s.(log := s.log + [relay.batch[relay.next]])
    case ArriveLate(i) => s.(log := s.log + [i])
    case Ack(r) =>
      var relay := s.relays[r];
      s.(records := MarkFirst(s.records, s.records[relay.batch[relay.next]].id),
         relays := s.relays[r := relay.(next := relay.next + 1, awaiting := false)])
    case Stop(r) => s.(relays := s.relays[r := Idle])
  }

  ghost predicate IsPath(states: seq<System>, actions: seq<Action>) {
    && |states| == |actions| + 1
    && forall k :: 0 <= k < |actions| ==>
         Enabled(states[k], actions[k]) && states[k + 1] == Apply(states[k], actions[k])
  }

  ghost predicate IsRun(states: seq<System>, actions: seq<Action>) {
    IsPath(states, actions) && states[0] == INIT
  }

  /** A record is added unflagged, as it is created. */
  ghost predicate AddsPending(a: Action) {
    a.Add? ==> !a.record.published
  }

  ghost predicate OnlyPendingAdded(actions: seq<Action>) {
    forall i :: 0 <= i < |actions| ==> AddsPending(actions[i])
  }

  // ---------------------------------------------------------------- the invariant

  /** The flagged records come before all others. */
  ghost predicate FlaggedPrefix(rs: seq<Record>) {
    forall i, j :: 0 <= i < j < |rs| && rs[j].published ==> rs[i].published
  }

  ghost predicate FlaggedBelow(rs: seq<Record>, n: nat) {
    forall i :: 0 <= i < n ==> i < |rs| && rs[i].published
  }

  /** A snapshot is a run of consecutive records, and whatever comes before its next record is flagged. */
  ghost predicate RelayInv(rs: seq<Record>, attempted: set<nat>, relay: Relay) {
    relay.Running? ==>
      && relay.next <= |relay.batch|
      && Within(relay.batch, |rs|)
      && (forall k :: 0 <= k < |relay.batch| ==> relay.batch[k] == relay.batch[0] + k)
      && (relay.next < |relay.batch| ==> FlaggedBelow(rs, relay.batch[relay.next]))
      && (relay.awaiting ==> relay.next < |relay.batch| && relay.batch[relay.next] in attempted)
  }

  ghost predicate Inv(s: System) {
    && UniqueIds(s.records)
    && FlaggedPrefix(s.records)
    && Within(s.log, |s.records|)
    && GapFree(s.log)
    && (forall i :: 0 <= i < |s.records| && s.records[i].published ==> i in s.log)
    && (forall j :: j in s.attempted ==> j < |s.records| && forall i :: 0 <= i < j ==> i in s.log)
    && (forall r :: r in s.relays ==> RelayInv(s.records, s.attempted, s.relays[r]))
  }

  lemma FlagBoundary(rs: seq<Record>, n: nat, i: nat)
    requires FlaggedBelow(rs, n) && i < |rs| && !rs[i].published
    ensures n <= i
  {
  }

  predicate Flagged(rs: seq<Record>, i: nat) {
    i < |rs| && rs[i].published
  }

  lemma AllFlagged(rs: seq<Record>, c: nat)
    requires c <= |rs| && FlaggedBelow(rs, |rs|) && forall i :: c <= i < |rs| ==> !rs[i].published
    ensures c == |rs|
  {
    assert Flagged(rs, c) <==> c < |rs|;
  }

  /** When the flags form a prefix, of length `c`, the pending records are c, c + 1, ... up to the end. */
  lemma {:induction false} PendingIsSuffix(rs: seq<Record>) returns (c: nat)
    requires FlaggedPrefix(rs)
    ensures c <= |rs| && FlaggedBelow(rs, c)
    ensures forall i :: c <= i < |rs| ==> !rs[i].published
    ensures |Pending(rs)| == |rs| - c && forall k :: 0 <= k < |Pending(rs)| ==> Pending(rs)[k] == c + k
  {
    if rs == [] {
      c := 0;
    } else {
      var n := |rs| - 1;
      c := PendingIsSuffix(rs[..n]);
      if rs[n].published {
        AllFlagged(rs[..n], c);
        c := n + 1;
      }
    }
  }

  lemma SnapshotKeepsInv(s: System, r: nat, limit: int)
    requires Inv(s) && Enabled(s, Snapshot(r, limit))
    ensures Inv(Apply(s, Snapshot(r, limit)))
  {
    var c := PendingIsSuffix(s.records);
    var batch := SliceTo(Pending(s.records), limit);
    assert RelayInv(s.records, s.attempted, Running(batch, 0, false));
  }

  lemma AckKeepsInv(s: System, r: nat)
    requires Inv(s) && Enabled(s, Ack(r))
    ensures Inv(Apply(s, Ack(r)))
    ensures var relay := s.relays[r];
            var i := relay.batch[relay.next];
            Apply(s, Ack(r)).records == s.records[i := s.records[i].(published := true)]
  {
    var relay := s.relays[r];
    var i := relay.batch[relay.next];
    MarkFirstHitsItsRecord(s.records, i);
    var rs := Apply(s, Ack(r)).records;
    assert FlaggedBelow(rs, i + 1);
    assert RelayInv(rs, s.attempted, relay.(next := relay.next + 1, awaiting := false));
  }

  lemma ArrivalKeepsInv(s: System, i: nat)
    requires Inv(s) && i in s.attempted
    ensures Inv(s.(log := s.log + [i]))
  {
    GapFreeExtend(s.log, i);
  }

  lemma StepKeepsInv(s: System, a: Action)
    requires Inv(s) && Enabled(s, a) && AddsPending(a)
    ensures Inv(Apply(s, a))
  {
    match a
    case Add(record) =>
    case Snapshot(r, limit) => SnapshotKeepsInv(s, r, limit);
    case Publish(r) =>
    case Arrive(r) => ArrivalKeepsInv(s, s.relays[r].batch[s.relays[r].next]);
    case ArriveLate(i) => ArrivalKeepsInv(s, i);
    case Ack(r) => AckKeepsInv(s, r);
    case Stop(r) =>
  }

  lemma {:induction false} RunKeepsInv(states: seq<System>, actions: seq<Action>, k: nat)
    requires IsRun(states, actions) && OnlyPendingAdded(actions) && k < |states|
    ensures Inv(states[k])
  {
    if k > 0 {
      RunKeepsInv(states, actions, k - 1);
      assert AddsPending(actions[k - 1]);
      StepKeepsInv(states[k - 1], actions[k - 1]);
    }
  }

  // ---------------------------------------------------------------- order and no loss

  /**
    The flagged records are a prefix of the outbox, each of them is in the broker log, and the first occurrences in
    the log are exactly the first m records in insertion order, for some m that covers the flagged ones.
   */
  ghost predicate InOrderAndKept(s: System) {
    var m := |FirstOccurrences(s.log)|;
    && FlaggedPrefix(s.records)
    && m <= |s.records| && FirstOccurrences(s.log) == UpTo(m)
    && (forall i :: 0 <= i < |s.records| && s.records[i].published ==> i < m && i in s.log)
  }

  /** So it is in every state of every run to which records are added unflagged. */
  lemma OrderAndNoLoss(states: seq<System>, actions: seq<Action>, k: nat)
    requires IsRun(states, actions) && OnlyPendingAdded(actions) && k < |states|
    ensures InOrderAndKept(states[k])
  {
    RunKeepsInv(states, actions, k);
    var s := states[k];
    GapFreeFirstOccurrences(s.log);
    var m := |FirstOccurrences(s.log)|;
    assert |s.records| !in s.log;
  }

  /** And of no other run: a record that is added with its flag set is neither in the log nor ever relayed. */
  lemma OrderAndNoLossIff(states: seq<System>, actions: seq<Action>)
    requires IsRun(states, actions)
    ensures (forall k :: 0 <= k < |states| ==> InOrderAndKept(states[k])) <==> OnlyPendingAdded(actions)
  {
    if OnlyPendingAdded(actions) {
      forall k | 0 <= k < |states| ensures InOrderAndKept(states[k]) {
        OrderAndNoLoss(states, actions, k);
      }
    }
    if forall k :: 0 <= k < |states| ==> InOrderAndKept(states[k]) {
      forall k | 0 <= k < |actions| ensures AddsPending(actions[k]) {
        var before, after := states[k], states[k + 1];
        assert InOrderAndKept(before) && InOrderAndKept(after);
        AddedIsPending(before, actions[k], after);
      }
    }
  }

  lemma AddedIsPending(s: System, a: Action, t: System)
    requires Enabled(s, a) && t == Apply(s, a) && InOrderAndKept(s) && InOrderAndKept(t)
    ensures AddsPending(a)
  {
    if a.Add? {
      assert |s.records| !in FirstOccurrences(s.log);
      assert t.records[|s.records|] == a.record;
    }
  }

  /** Later states only append records, never revert a flag, change an envelope, or forget a message. */
  ghost predicate Grows(s: System, t: System) {
    && |s.records| <= |t.records| && s.log <= t.log && s.attempted <= t.attempted
    && forall i :: 0 <= i < |s.records| ==> SameRecord(s.records[i], t.records[i])
  }

  ghost predicate SameRecord(r: Record, later: Record) {
    later.id == r.id && later.envelope == r.envelope && (r.published ==> later.published)
  }

  lemma StepGrows(s: System, a: Action)
    requires Enabled(s, a)
    ensures Grows(s, Apply(s, a))
  {
  }

  lemma GrowsTransitive(s: System, t: System, u: System)
    requires Grows(s, t) && Grows(t, u)
    ensures Grows(s, u)
  {
  }

  lemma {:induction false} FlagsNeverRevert(states: seq<System>, actions: seq<Action>, k: nat, l: nat)
    requires IsRun(states, actions) && k <= l < |states|
    ensures Grows(states[k], states[l])
    decreases l
  {
    if k < l {
      FlagsNeverRevert(states, actions, k, l - 1);
      StepGrows(states[l - 1], actions[l - 1]);
      GrowsTransitive(states[k], states[l - 1], states[l]);
    }
  }

  /** A record gets flagged only by an Ack of a relay that was publishing this very record. */
  lemma OnlyAckFlags(s: System, a: Action, i: nat)
    requires Inv(s) && Enabled(s, a) && i < |s.records|
    requires !s.records[i].published && Apply(s, a).records[i].published
    ensures a.Ack? && i in s.log && s.relays[a.relay].batch[s.relays[a.relay].next] == i
  {
    if a.Ack? {
      AckKeepsInv(s, a.relay);
    }
  }

  // ---------------------------------------------------------------- one relay, nothing late

  /** Each message is the previous one again or the next record; the first is record 0. */
  ghost predicate Stutters(log: seq<nat>) {
    && (log != [] ==> log[0] == 0)
    && forall q :: 0 < q < |log| ==> log[q] == log[q - 1] || log[q] == log[q - 1] + 1
  }

  /** Only relay 0 takes steps, and a message arrives only while its publish is being awaited. */
  ghost predicate Single(a: Action) {
    match a
    case Add(_) => true
    case ArriveLate(_) => false
    case Snapshot(r, _) => r == 0
    case Publish(r) => r == 0
    case Arrive(r) => r == 0
    case Ack(r) => r == 0
    case Stop(r) => r == 0
  }

  /** The last message is the newest flagged record or the one right after it. */
  ghost predicate AtBoundary(rs: seq<Record>, log: seq<nat>) {
    if log == [] then forall i :: 0 <= i < |rs| ==> !rs[i].published
    else
      var last := log[|log| - 1];
      FlaggedBelow(rs, last) && forall i :: last < i < |rs| ==> !rs[i].published
  }

  /** ... and the relay is about to handle a record that is not flagged yet. */
  ghost predicate SingleInv(s: System) {
    && Stutters(s.log) && AtBoundary(s.records, s.log)
    && s.relays.Keys <= {0}
    && var relay := RelayOf(s, 0);
       relay.Running? && relay.next < |relay.batch| ==>
         relay.batch[relay.next] < |s.records| && !s.records[relay.batch[relay.next]].published
  }

  lemma SingleArrive(s: System)
    requires Inv(s) && SingleInv(s) && Enabled(s, Arrive(0))
    ensures Stutters(Apply(s, Arrive(0)).log)
  {
    var i := s.relays[0].batch[s.relays[0].next];
    assert FlaggedBelow(s.records, i) && !s.records[i].published;
    if s.log == [] {
      FlagBoundary(s.records, i, 0);
    } else {
      var last := s.log[|s.log| - 1];
      FlagBoundary(s.records, last, i);
      if last + 1 < |s.records| {
        FlagBoundary(s.records, i, last + 1);
      }
    }
  }

  lemma {:induction false} StuttersToMaximum(log: seq<nat>, q: nat)
    requires Stutters(log) && q < |log|
    ensures log[q] <= log[|log| - 1]
    decreases |log| - q
  {
    if q + 1 < |log| {
      StuttersToMaximum(log, q + 1);
    }
  }

  /** The record being marked is the last one the broker received. */
  lemma MarkAtBoundary(rs: seq<Record>, log: seq<nat>, i: nat)
    requires Stutters(log) && AtBoundary(rs, log)
    requires i in log && i < |rs| && !rs[i].published
    ensures i == log[|log| - 1]
    ensures AtBoundary(rs[i := rs[i].(published := true)], log)
  {
    var q :| 0 <= q < |log| && log[q] == i;
    StuttersToMaximum(log, q);
    FlagBoundary(rs, log[|log| - 1], i);
  }

  lemma SingleAck(s: System)
    requires Inv(s) && SingleInv(s) && Enabled(s, Ack(0))
    ensures SingleInv(Apply(s, Ack(0)))
  {
    AckKeepsInv(s, 0);
    MarkAtBoundary(s.records, s.log, s.relays[0].batch[s.relays[0].next]);
  }

  lemma SingleStep(s: System, a: Action)
    requires Inv(s) && SingleInv(s) && Enabled(s, a) && Single(a) && AddsPending(a)
    ensures SingleInv(Apply(s, a))
  {
    match a
    case Add(record) =>
    case Snapshot(r, limit) =>
      var c := PendingIsSuffix(s.records);
    case Publish(r) =>
    case Arrive(r) => SingleArrive(s);
    case ArriveLate(i) =>
    case Ack(r) => SingleAck(s);
    case Stop(r) =>
  }

  /** With a single relay and nothing late, the broker log is a stuttering copy of a prefix of the outbox. */
  lemma {:induction false} SingleRelayStutters(states: seq<System>, actions: seq<Action>, k: nat)
    requires IsRun(states, actions) && OnlyPendingAdded(actions) && k < |states|
    requires forall a :: a in actions ==> Single(a)
    ensures SingleInv(states[k]) && Stutters(states[k].log)
  {
    if k > 0 {
      SingleRelayStutters(states, actions, k - 1);
      RunKeepsInv(states, actions, k - 1);
      assert actions[k - 1] in actions && AddsPending(actions[k - 1]);
      SingleStep(states[k - 1], actions[k - 1]);
    }
  }

  // ---------------------------------------------------------------- the loop of a pass, in the protocol

  /** A path with one more step. */
  lemma Step(states: seq<System>, actions: seq<Action>, a: Action) returns (states': seq<System>, actions': seq<Action>)
    requires IsPath(states, actions) && Enabled(states[|actions|], a)
    ensures IsPath(states', actions') && states'[0] == states[0]
    ensures states'[|actions'|] == Apply(states[|actions|], a)
  {
    states', actions' := states + [Apply(states[|actions|], a)], actions + [a];
  }

  function Elements(at: seq<nat>): set<nat> {
    set i | i in at
  }

  /** The system after the first `j` publishes of the pass of relay `r` over the snapshot `at` have returned. */
  ghost function MidPass(s: System, r: nat, at: seq<nat>, j: nat): System
    requires Within(at, |s.records|) && j <= |at|
  {
    System(Flag(s.records, at, j), s.log + at[..j], s.attempted + Elements(at[..j]),
           s.relays[r := Running(at, j, false)])
  }

  /** Publishing, arriving and acknowledging the next record. */
  lemma MidPassStep(s: System, r: nat, at: seq<nat>, j: nat) returns (s1: System, s2: System)
    requires UniqueIds(s.records) && Within(at, |s.records|) && j < |at|
    ensures var s0 := MidPass(s, r, at, j);
            && Enabled(s0, Publish(r)) && s1 == Apply(s0, Publish(r))
            && Enabled(s1, Arrive(r)) && s2 == Apply(s1, Arrive(r))
            && Enabled(s2, Ack(r)) && Apply(s2, Ack(r)) == MidPass(s, r, at, j + 1)
  {
    s1 := Apply(MidPass(s, r, at, j), Publish(r));
    s2 := Apply(s1, Arrive(r));
    assert s2.log[|s.log| + j] == at[j];
    PrefixGrows(s, at, j);
    assert s2.relays == s.relays[r := Running(at, j, true)];
    MidPassAck(s, r, at, j, s2);
  }

  lemma MidPassAck(s: System, r: nat, at: seq<nat>, j: nat, t: System)
    requires UniqueIds(s.records) && Within(at, |s.records|) && j < |at|
    requires t == System(Flag(s.records, at, j), s.log + at[..j + 1], s.attempted + Elements(at[..j + 1]),
                         s.relays[r := Running(at, j, true)])
    requires Enabled(t, Ack(r))
    ensures Apply(t, Ack(r)) == MidPass(s, r, at, j + 1)
  {
    FlagKeepsIds(s.records, at, j, at[j]);
    FlagStep(s.records, at, j);
    assert t.relays[r := Running(at, j + 1, false)] == s.relays[r := Running(at, j + 1, false)];
  }

  lemma PrefixGrows(s: System, at: seq<nat>, j: nat)
    requires j < |at|
    ensures s.log + at[..j] + [at[j]] == s.log + at[..j + 1]
    ensures s.attempted + Elements(at[..j]) + {at[j]} == s.attempted + Elements(at[..j + 1])
  {
    assert at[..j + 1] == at[..j] + [at[j]];
  }

  lemma PublishOne(s: System, r: nat, at: seq<nat>, j: nat, states: seq<System>, actions: seq<Action>)
    returns (states': seq<System>, actions': seq<Action>)
    requires UniqueIds(s.records) && Within(at, |s.records|) && j < |at|
    requires IsPath(states, actions) && states[|actions|] == MidPass(s, r, at, j)
    ensures IsPath(states', actions') && states'[0] == states[0] && states'[|actions'|] == MidPass(s, r, at, j + 1)
  {
    var s1, s2 := MidPassStep(s, r, at, j);
    states', actions' := Step(states, actions, Publish(r));
    states', actions' := Step(states', actions', Arrive(r));
    states', actions' := Step(states', actions', Ack(r));
  }

  lemma FlagKeepsIds(rs: seq<Record>, at: seq<nat>, j: nat, i: nat)
    requires Within(at, |rs|) && j <= |at| && i < |rs|
    ensures Flag(rs, at, j)[i].id == rs[i].id
  {
    FlagMeans(rs, at, j);
  }

  lemma {:induction false} PublishMany(s: System, r: nat, at: seq<nat>, j: nat)
    returns (states: seq<System>, actions: seq<Action>)
    requires UniqueIds(s.records) && Within(at, |s.records|) && j <= |at|
    requires RelayOf(s, r) == Running(at, 0, false)
    ensures IsPath(states, actions) && states[0] == s && states[|actions|] == MidPass(s, r, at, j)
  {
    if j == 0 {
      states, actions := [s], [];
      assert s.relays[r := Running(at, 0, false)] == s.relays;
      assert MidPass(s, r, at, 0) == s;
    } else {
      states, actions := PublishMany(s, r, at, j - 1);
      states, actions := PublishOne(s, r, at, j - 1, states, actions);
    }
  }

  /**
    A pass as `Outbox.RelayOnce` performs it is a path of the protocol: from any state in which the relay is idle
    there are steps of this relay alone to one in which it is idle again, the records are those which that pass
    leaves and the broker log has grown by what that pass sends.
   */
  lemma PassIsPath(s: System, r: nat, limit: int, raisesAt: nat, reached: bool)
    returns (states: seq<System>, actions: seq<Action>)
    requires Inv(s) && RelayOf(s, r).Idle?
    ensures IsPath(states, actions) && states[0] == s
    ensures var at := SliceTo(Pending(s.records), limit);
            var j := Min(raisesAt, |at|);
            var end := states[|actions|];
            && FlaggedAlso(s.records, at[..j], end.records)
            && end.log == s.log + at[..Reaching(|at|, raisesAt, reached)]
            && RelayOf(end, r).Idle?
  {
    var at := SliceTo(Pending(s.records), limit);
    states, actions := BatchIsPath(Apply(s, Snapshot(r, limit)), r, at, raisesAt, reached);
    FlagMeans(s.records, at, Min(raisesAt, |at|));
    Prepend(s, Snapshot(r, limit), states, actions);
    states, actions := [s] + states, [Snapshot(r, limit)] + actions;
  }

  lemma BatchIsPath(s: System, r: nat, at: seq<nat>, raisesAt: nat, reached: bool)
    returns (states: seq<System>, actions: seq<Action>)
    requires UniqueIds(s.records) && Within(at, |s.records|) && RelayOf(s, r) == Running(at, 0, false)
    ensures IsPath(states, actions) && states[0] == s
    ensures var j := Min(raisesAt, |at|);
            var end := states[|actions|];
            && end.records == Flag(s.records, at, j)
            && end.log == s.log + at[..Reaching(|at|, raisesAt, reached)]
            && RelayOf(end, r).Idle?
  {
    var j := Min(raisesAt, |at|);
    states, actions := PublishMany(s, r, at, j);
    if j < |at| && reached {
      states, actions := Step(states, actions, Publish(r));
      states, actions := Step(states, actions, Arrive(r));
      assert at[..j + 1] == at[..j] + [at[j]];
    }
    states, actions := Step(states, actions, Stop(r));
  }

  lemma Prepend(s: System, a: Action, states: seq<System>, actions: seq<Action>)
    requires Enabled(s, a) && IsPath(states, actions) && states[0] == Apply(s, a)
    ensures IsPath([s] + states, [a] + actions)
  {
    var ss, aa := [s] + states, [a] + actions;
    forall k | 0 <= k < |aa| ensures Enabled(ss[k], aa[k]) && ss[k + 1] == Apply(ss[k], aa[k]) {
      if 0 < k {
        assert ss[k] == states[k - 1] && aa[k] == actions[k - 1] && ss[k + 1] == states[k - 1 + 1];
      }
    }
  }
}
