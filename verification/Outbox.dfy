/**
  The transactional outbox and one pass of its relay (messaging.py).

  The store keeps a list of records and sets their `published` flags; `relay_once` walks over a snapshot of the
  unflagged ones and never reads their flags again.  The pure functions below say what listing, marking and one pass
  do to the list.
 */
module Outbox {
  import opened Basics
  import opened Sequences

  /** `eventId` is the text of the envelope's "event_id" entry, empty when there is none. */
  datatype Envelope = Envelope(eventId: string, payload: string)

  datatype Record = Record(id: string, envelope: Envelope, published: bool)

  // ---------------------------------------------------------------- listing and marking, on values

  /** The indices of the records that are not flagged, oldest first. */
  function Pending(rs: seq<Record>): (r: seq<nat>)
    ensures Within(r, |rs|) && |r| <= |rs|
  {
    if rs == [] then []
    else
      var n := |rs| - 1;
      if rs[n].published then Pending(rs[..n]) else Pending(rs[..n]) + [n]
  }

  ghost predicate Increasing(s: seq<nat>) {
    forall q, p :: 0 <= q < p < |s| ==> s[q] < s[p]
  }

  /** `Pending` lists all unflagged records, each once, in order. */
  lemma {:induction false} PendingMeans(rs: seq<Record>)
    ensures Increasing(Pending(rs))
    ensures forall i: nat :: i in Pending(rs) <==> i < |rs| && !rs[i].published
  {
    if rs != [] {
      var n := |rs| - 1;
      PendingMeans(rs[..n]);
      forall i: nat ensures i in Pending(rs) <==> i < |rs| && !rs[i].published {
        assert i < n ==> rs[..n][i] == rs[i];
      }
    }
  }

  /** Python's `s[:limit]`: a negative limit drops that many elements from the end. */
  function SliceTo<T>(s: seq<T>, limit: int): (r: seq<T>)
    ensures |r| <= |s| && r == s[..|r|]
    ensures 0 <= limit ==> |r| == if limit < |s| then limit else |s|
    ensures limit < 0 ==> |r| == if |s| + limit < 0 then 0 else |s| + limit
  {
    if limit < 0 then (if |s| + limit < 0 then [] else s[..|s| + limit])
    else if limit < |s| then s[..limit] else s
  }

  /** The index of the first record with the given id; the length of the list if there is none. */
  function IndexOf(rs: seq<Record>, id: string): (k: nat)
    ensures k <= |rs| && (k < |rs| ==> rs[k].id == id)
    ensures forall i :: 0 <= i < k ==> rs[i].id != id
  {
    if rs == [] || rs[0].id == id then 0 else 1 + IndexOf(rs[1..], id)
  }

  /** Flag the first record with the given id, if there is one. */
  function MarkFirst(rs: seq<Record>, id: string): seq<Record> {
    var k := IndexOf(rs, id);
    if k < |rs| then rs[k := rs[k].(published := true)] else rs
  }

  ghost predicate UniqueIds(rs: seq<Record>) {
    forall i, j :: 0 <= i < j < |rs| ==> rs[i].id != rs[j].id
  }

  /** `rs` with exactly the listed records flagged as well. */
  ghost predicate FlaggedAlso(rs: seq<Record>, done: seq<nat>, after: seq<Record>) {
    && |after| == |rs|
    && forall i :: 0 <= i < |rs| ==> after[i] == rs[i].(published := rs[i].published || i in done)
  }

  /**
    Why ids must be unique: marking flags the very record meant if and only if no earlier record has its id; and a
    later record with the same id stays as it is.
   */
  lemma MarkFirstHitsItsRecord(rs: seq<Record>, k: nat)
    requires k < |rs|
    ensures (forall i :: 0 <= i < k ==> rs[i].id != rs[k].id)
              ==> MarkFirst(rs, rs[k].id) == rs[k := rs[k].(published := true)]
    ensures (exists i :: 0 <= i < k && rs[i].id == rs[k].id) ==> MarkFirst(rs, rs[k].id)[k] == rs[k]
  {
    var m := IndexOf(rs, rs[k].id);
    assert m <= k;
  }

  /** Two strictly increasing sequences with the same elements are equal. */
  lemma {:induction false} SameIncreasing(a: seq<nat>, b: seq<nat>)
    requires Increasing(a) && Increasing(b)
    requires forall x: nat :: x in a <==> x in b
    ensures a == b
  {
    assert a != [] ==> a[0] in a;
    assert b != [] ==> b[0] in b;
    if a != [] {
      var la, lb := a[|a| - 1], b[|b| - 1];
      assert la in b && lb in a;
      assert la == lb;
      var a', b' := a[..|a| - 1], b[..|b| - 1];
      forall x: nat ensures x in a' <==> x in b' {
        assert x in a <==> x in a' || x == la;
        assert x in b <==> x in b' || x == lb;
      }
      SameIncreasing(a', b');
    }
  }

  /** Once the first `j` pending records are flagged, exactly the others are pending, in the same order. */
  lemma PendingAfterPass(rs: seq<Record>, j: nat, after: seq<Record>)
    requires j <= |Pending(rs)|
    requires FlaggedAlso(rs, Pending(rs)[..j], after)
    ensures Pending(after) == Pending(rs)[j..]
  {
    var all := Pending(rs);
    PendingMeans(rs);
    PendingMeans(after);
    forall x: nat ensures x in Pending(after) <==> x in all[j..] {
      InOnePart(all, j, x);
    }
    SameIncreasing(Pending(after), all[j..]);
  }

  lemma InOnePart(s: seq<nat>, j: nat, x: nat)
    requires Increasing(s) && j <= |s|
    ensures x in s[j..] <==> x in s && x !in s[..j]
  {
    assert s == s[..j] + s[j..];
  }

  // ---------------------------------------------------------------- repeated passes without failure

  /** `states` are the records before each of a row of passes in which every publish returns. */
  ghost predicate CleanPasses(states: seq<seq<Record>>, limit: int) {
    forall k :: 0 <= k < |states| - 1 ==> CleanAt(states, limit, k)
  }

  ghost predicate CleanAt(states: seq<seq<Record>>, limit: int, k: nat) {
    k + 1 < |states| && FlaggedAlso(states[k], SliceTo(Pending(states[k]), limit), states[k + 1])
  }

  /** How many of `n` pending records `k` clean passes flag. */
  function Covered(n: nat, limit: nat, k: nat): (c: nat)
    ensures c <= n
  {
    if k == 0 then 0 else Min(Covered(n, limit, k - 1) + limit, n)
  }

  lemma {:induction false} CoveredIsProduct(n: nat, limit: nat, k: nat)
    ensures Covered(n, limit, k) == Min(k * limit, n)
  {
    if k > 0 {
      CoveredIsProduct(n, limit, k - 1);
      assert k * limit == (k - 1) * limit + limit;
    }
  }

  /** After `k` clean passes with a positive limit, `k * limit` more records are flagged, oldest first. */
  lemma {:induction false} CleanPassesPending(states: seq<seq<Record>>, limit: nat, k: nat)
    requires CleanPasses(states, limit) && k < |states|
    ensures Pending(states[k]) == Pending(states[0])[Covered(|Pending(states[0])|, limit, k)..]
  {
    if k > 0 {
      CleanPassesPending(states, limit, k - 1);
      assert CleanAt(states, limit, k - 1);
      OnePassPending(Pending(states[0]), Covered(|Pending(states[0])|, limit, k - 1), limit, states[k - 1], states[k]);
    }
  }

  lemma OnePassPending(all: seq<nat>, c: nat, limit: nat, before: seq<Record>, after: seq<Record>)
    requires c <= |all| && Pending(before) == all[c..]
    requires FlaggedAlso(before, SliceTo(Pending(before), limit), after)
    ensures Pending(after) == all[Min(c + limit, |all|)..]
  {
    PendingAfterPass(before, |SliceTo(Pending(before), limit)|, after);
  }

  /**
    Draining: with no failure and no new record, the pass number `k` returns min(limit, remaining), the outbox is
    empty of pending records after ceil(n / limit) passes, and not before.
   */
  lemma DrainTakesCeiling(states: seq<seq<Record>>, limit: nat, k: nat)
    requires 0 < limit && CleanPasses(states, limit) && k < |states|
    ensures var n := |Pending(states[0])|;
            && |SliceTo(Pending(states[k]), limit)| == Min(limit, n - Min(k * limit, n))
            && (Pending(states[k]) == [] <==> (n + limit - 1) / limit <= k)
  {
    CleanPassesPending(states, limit, k);
    Drained(|Pending(states[0])|, limit, k);
  }

  lemma Drained(n: nat, limit: nat, k: nat)
    requires 0 < limit
    ensures Covered(n, limit, k) == Min(k * limit, n)
    ensures Covered(n, limit, k) == n <==> (n + limit - 1) / limit <= k
  {
    CoveredIsProduct(n, limit, k);
    CeilingDivision(n, limit, k);
  }

  lemma CeilingDivision(n: nat, d: nat, k: nat)
    requires 0 < d
    ensures (n + d - 1) / d <= k <==> n <= k * d
  {
    var c := (n + d - 1) / d;
    assert c * d <= n + d - 1 < c * d + d;
    if c <= k {
      Scale(c, k, d);
    } else {
      Scale(k + 1, c, d);
      assert (k + 1) * d == k * d + d;
    }
  }

  lemma Scale(a: int, b: int, d: nat)
    requires a <= b
    ensures a * d <= b * d
  {
  }

  // ---------------------------------------------------------------- the objects

  class InMemoryOutbox {
    var records: seq<Record>

    constructor ()
      ensures records == []
    {
      records := [];
    }

    method Add(record: Record)
      modifies this
      ensures records == old(records) + [record]
    {
      records := records + [record];
    }

    /** The first `limit` pending records, oldest first. */
    method ListUnpublished(limit: int) returns (batch: seq<Record>)
      ensures batch == Pick(records, SliceTo(Pending(records), limit))
    {
      var pending: seq<Record> := [];
      ghost var at: seq<nat> := [];
      for i := 0 to |records|
        invariant at == Pending(records[..i])
        invariant pending == Pick(records, at)
      {
        assert records[..i + 1][..i] == records[..i];
        if !records[i].published {
          pending, at := pending + [records[i]], at + [i];
        }
      }
      assert records[..|records|] == records;
      batch := SliceTo(pending, limit);
    }

    method MarkPublished(recordId: string)
      modifies this
      ensures records == MarkFirst(old(records), recordId)
    {
      for i := 0 to |records|
        invariant records == old(records)
        invariant forall k :: 0 <= k < i ==> records[k].id != recordId
      {
        if records[i].id == recordId {
          assert IndexOf(records, recordId) == i;
          records := records[i := records[i].(published := true)];
          return;
        }
      }
    }
  }

  /** What the broker has received, in order. */
  class Broker {
    var log: seq<Envelope>

    constructor ()
      ensures log == []
    {
      log := [];
    }

    method Append(envelope: Envelope)
      modifies this
      ensures log == old(log) + [envelope]
    {
      log := log + [envelope];
    }
  }

  /** How one pass ends: `Completed(n)` returns n, `Interrupted` propagates the exception of `publish`. */
  datatype Pass = Completed(count: nat) | Interrupted

  /** The envelopes of the first `j` records listed in `at`. */
  function Envelopes(rs: seq<Record>, at: seq<nat>, j: nat): seq<Envelope>
    requires Within(at, |rs|) && j <= |at|
  {
    if j == 0 then [] else Envelopes(rs, at, j - 1) + [rs[at[j - 1]].envelope]
  }

  /** How many of `n` records reach the broker: those published, and the one that raised if it got there. */
  function Reaching(n: nat, raisesAt: nat, reached: bool): (k: nat)
    ensures k <= n
  {
    if raisesAt < n then (if reached then raisesAt + 1 else raisesAt) else n
  }

  /**
    One relay pass with nobody else touching the outbox, when its publish number `raisesAt` (if it gets that far)
    raises, having reached the broker or not.  Exactly the records published before that one get flagged, all others
    stay pending, and the broker gets each of the former once, in insertion order, and possibly the one that raised.
   */
  method RelayOnce(store: InMemoryOutbox, broker: Broker, limit: int, raisesAt: nat, reached: bool)
    returns (result: Pass)
    requires UniqueIds(store.records)
    modifies store, broker
    ensures var was := old(store.records);
            var at := SliceTo(Pending(was), limit);
            var j := Min(raisesAt, |at|);
            && result == (if j == |at| then Completed(|at|) else Interrupted)
            && FlaggedAlso(was, at[..j], store.records)
            && Pending(store.records) == Pending(was)[j..]
            && broker.log == old(broker.log) + Envelopes(was, at, Reaching(|at|, raisesAt, reached))
  {
    ghost var was := store.records;
    ghost var at := SliceTo(Pending(was), limit);
    var batch := store.ListUnpublished(limit);
    result := RelayBatch(store, broker, at, batch, raisesAt, reached);
    PassEnd(was, at, Min(raisesAt, |at|), store.records);
  }

  /** A pass over the snapshot just taken; `at` says which records it holds. */
  method RelayBatch(store: InMemoryOutbox, broker: Broker, ghost at: seq<nat>, batch: seq<Record>,
                    raisesAt: nat, reached: bool)
    returns (result: Pass)
    requires UniqueIds(store.records)
    requires Within(at, |store.records|) && batch == Pick(store.records, at)
    modifies store, broker
    ensures var was := old(store.records);
            var j := Min(raisesAt, |at|);
            && result == (if j == |at| then Completed(|at|) else Interrupted)
            && store.records == Flag(was, at, j)
            && broker.log == old(broker.log) + Envelopes(was, at, Reaching(|at|, raisesAt, reached))
  {
    var published := PublishUntil(store, broker, at, batch, raisesAt);
    if published == |batch| {
      return Completed(published);
    }
    if reached {
      broker.Append(batch[published].envelope);
    }
    result := Interrupted;
  }

  /** The loop of a pass, up to the publish that raises. */
  method PublishUntil(store: InMemoryOutbox, broker: Broker, ghost at: seq<nat>, batch: seq<Record>, raisesAt: nat)
    returns (published: nat)
    requires UniqueIds(store.records)
    requires Within(at, |store.records|) && batch == Pick(store.records, at)
    modifies store, broker
    ensures published == Min(raisesAt, |at|) && store.records == Flag(old(store.records), at, published)
    ensures broker.log == old(broker.log) + Envelopes(old(store.records), at, published)
  {
    ghost var was, before := store.records, broker.log;
    published := 0;
    while published < |batch| && published != raisesAt
      invariant 0 <= published <= |batch| && published <= raisesAt
      invariant store.records == Flag(was, at, published)
      invariant broker.log == before + Envelopes(was, at, published)
    {
      PublishAndMark(store, broker, was, at, published, batch[published]);
      published := published + 1;
    }
  }

  method PublishAndMark(store: InMemoryOutbox, broker: Broker, ghost was: seq<Record>, ghost at: seq<nat>,
                        ghost j: nat, record: Record)
    requires UniqueIds(was) && Within(at, |was|) && j < |at| && record == was[at[j]]
    requires store.records == Flag(was, at, j)
    modifies store, broker
    ensures store.records == Flag(was, at, j + 1) && broker.log == old(broker.log) + [was[at[j]].envelope]
  {
    FlagStep(was, at, j);
    broker.Append(record.envelope);
    store.MarkPublished(record.id);
  }

  /** `rs` after flagging the first `j` records listed in `at`, one after the other. */
  function Flag(rs: seq<Record>, at: seq<nat>, j: nat): (r: seq<Record>)
    requires Within(at, |rs|) && j <= |at|
    ensures |r| == |rs|
  {
    if j == 0 then rs
    else var front := Flag(rs, at, j - 1); front[at[j - 1] := front[at[j - 1]].(published := true)]
  }

  lemma {:induction false} FlagMeans(rs: seq<Record>, at: seq<nat>, j: nat)
    requires Within(at, |rs|) && j <= |at|
    ensures FlaggedAlso(rs, at[..j], Flag(rs, at, j))
  {
    if j > 0 {
      FlagMeans(rs, at, j - 1);
      assert at[..j] == at[..j - 1] + [at[j - 1]];
    }
  }

  /** Marking the next record of the snapshot, by its id, flags just that record. */
  lemma FlagStep(rs: seq<Record>, at: seq<nat>, j: nat)
    requires UniqueIds(rs) && Within(at, |rs|) && j < |at|
    ensures MarkFirst(Flag(rs, at, j), rs[at[j]].id) == Flag(rs, at, j + 1)
  {
    FlagMeans(rs, at, j);
    MarkFirstHitsItsRecord(Flag(rs, at, j), at[j]);
  }

  lemma PassEnd(was: seq<Record>, at: seq<nat>, j: nat, now: seq<Record>)
    requires j <= |at| && at <= Pending(was) && Within(at, |was|) && now == Flag(was, at, j)
    ensures FlaggedAlso(was, at[..j], now) && Pending(now) == Pending(was)[j..]
  {
    FlagMeans(was, at, j);
    assert at[..j] == Pending(was)[..j];
    PendingAfterPass(was, j, now);
  }

  // ---------------------------------------------------------------- a relay process

  /** What pass number `k` handles of `n` pending records when none fails. */
  function Share(n: nat, limit: nat, k: nat): int {
    Covered(n, limit, k + 1) - Covered(n, limit, k)
  }

  lemma SharesAreRemaining(n: nat, limit: nat, counts: seq<nat>)
    requires CountsAre(n, limit, counts)
    ensures forall k :: 0 <= k < |counts| ==> counts[k] == Min(limit, n - Min(k * limit, n))
  {
    forall k | 0 <= k < |counts| ensures counts[k] == Min(limit, n - Min(k * limit, n)) {
      CoveredIsProduct(n, limit, k);
    }
  }

  /** The same records, but for their flags. */
  ghost predicate SameButFlags(rs: seq<Record>, later: seq<Record>) {
    |later| == |rs| && forall i :: 0 <= i < |rs| ==> later[i].(published := rs[i].published) == rs[i]
  }

  /** A pass in which no publish raises. */
  method CleanPass(store: InMemoryOutbox, broker: Broker, limit: nat) returns (count: nat)
    requires UniqueIds(store.records)
    modifies store, broker
    ensures var was := old(store.records);
            var at := SliceTo(Pending(was), limit);
            && count == |at| && FlaggedAlso(was, at, store.records)
            && broker.log == old(broker.log) + Envelopes(was, at, |at|)
    ensures SameButFlags(old(store.records), store.records) && UniqueIds(store.records)
  {
    ghost var at := SliceTo(Pending(store.records), limit);
    var result := RelayOnce(store, broker, limit, |store.records|, false);
    assert at[..|at|] == at;
    count := result.count;
  }

  /** `at` is what `all` lists from position `c` on, or the beginning of that. */
  ghost predicate IsRest(all: seq<nat>, c: nat, at: seq<nat>) {
    c + |at| <= |all| && forall q :: 0 <= q < |at| ==> at[q] == all[c + q]
  }

  lemma SliceOfRest(all: seq<nat>, c: nat, limit: nat)
    requires c <= |all|
    ensures var at := SliceTo(all[c..], limit);
            c + |at| == Min(c + limit, |all|) && IsRest(all, c, at)
  {
  }

  lemma {:induction false} EnvelopesAre(rs: seq<Record>, at: seq<nat>, j: nat)
    requires Within(at, |rs|) && j <= |at|
    ensures |Envelopes(rs, at, j)| == j && forall i :: 0 <= i < j ==> Envelopes(rs, at, j)[i] == rs[at[i]].envelope
  {
    if 0 < j {
      EnvelopesAre(rs, at, j - 1);
    }
  }

  /** The broker has got the envelopes of the first `c` records that were pending at the start. */
  ghost predicate Got(was: seq<Record>, all: seq<nat>, c: nat, before: seq<Envelope>, log: seq<Envelope>) {
    && Within(all, |was|) && c <= |all| && |log| == |before| + c && before <= log
    && forall i :: 0 <= i < c ==> log[|before| + i] == was[all[i]].envelope
  }

  lemma GotMeans(was: seq<Record>, all: seq<nat>, c: nat, before: seq<Envelope>, log: seq<Envelope>)
    requires Got(was, all, c, before, log)
    ensures log == before + Envelopes(was, all, c)
  {
    EnvelopesAre(was, all, c);
  }

  lemma GotMore(was: seq<Record>, all: seq<nat>, c: nat, before: seq<Envelope>, log: seq<Envelope>,
                at: seq<nat>, sent: seq<Envelope>)
    requires Got(was, all, c, before, log) && IsRest(all, c, at)
    requires |sent| == |at| && forall q :: 0 <= q < |at| ==> at[q] < |was| && sent[q] == was[at[q]].envelope
    ensures Got(was, all, c + |at|, before, log + sent)
  {
    forall i | 0 <= i < c + |at| ensures (log + sent)[|before| + i] == was[all[i]].envelope {
      if c <= i {
        assert (log + sent)[|before| + i] == sent[i - c] && at[i - c] == all[i];
      }
    }
  }

  /** What a clean pass hands to the broker, the records from position `c` on being pending. */
  lemma PassGets(was: seq<Record>, all: seq<nat>, c: nat, before: seq<Envelope>, log: seq<Envelope>,
                 last: seq<Record>, limit: nat)
    requires Got(was, all, c, before, log) && SameButFlags(was, last) && Pending(last) == all[c..]
    ensures var at := SliceTo(Pending(last), limit);
            && c + |at| == Min(c + limit, |all|)
            && Got(was, all, c + |at|, before, log + Envelopes(last, at, |at|))
  {
    var at := SliceTo(Pending(last), limit);
    SliceOfRest(all, c, limit);
    var sent := Envelopes(last, at, |at|);
    EnvelopesAre(last, at, |at|);
    forall q | 0 <= q < |at| ensures at[q] < |was| && sent[q] == was[at[q]].envelope {
      assert last[at[q]].envelope == was[at[q]].envelope;
    }
    GotMore(was, all, c, before, log, at, sent);
  }

  ghost predicate CountsAre(n: nat, limit: nat, counts: seq<nat>) {
    forall k :: 0 <= k < |counts| ==> counts[k] == Share(n, limit, k)
  }

  lemma CountsPass(all: seq<nat>, limit: nat, counts: seq<nat>, last: seq<Record>)
    requires CountsAre(|all|, limit, counts) && Pending(last) == all[Covered(|all|, limit, |counts|)..]
    ensures var at := SliceTo(Pending(last), limit);
            && CountsAre(|all|, limit, counts + [|at|])
            && Covered(|all|, limit, |counts|) + |at| == Covered(|all|, limit, |counts| + 1)
  {
    SliceOfRest(all, Covered(|all|, limit, |counts|), limit);
    CountsExtend(|all|, limit, counts, |SliceTo(Pending(last), limit)|);
  }

  /** After a number of clean passes: what each of them returned, and what the broker has got. */
  ghost predicate Passed(was: seq<Record>, all: seq<nat>, limit: nat, counts: seq<nat>, now: seq<Record>,
                         before: seq<Envelope>, log: seq<Envelope>)
  {
    && SameButFlags(was, now) && CountsAre(|all|, limit, counts)
    && Got(was, all, Covered(|all|, limit, |counts|), before, log)
  }

  lemma CleanPassesExtend(states: seq<seq<Record>>, limit: nat, now: seq<Record>)
    requires states != [] && CleanPasses(states, limit)
    requires FlaggedAlso(states[|states| - 1], SliceTo(Pending(states[|states| - 1]), limit), now)
    ensures CleanPasses(states + [now], limit)
  {
    var longer := states + [now];
    forall k | 0 <= k < |states| ensures CleanAt(longer, limit, k) {
      assert longer[k] == states[k];
      if k + 1 < |states| {
        assert CleanAt(states, limit, k) && longer[k + 1] == states[k + 1];
      }
    }
  }

  lemma PassedOne(was: seq<Record>, all: seq<nat>, limit: nat, counts: seq<nat>, last: seq<Record>,
                  before: seq<Envelope>, log: seq<Envelope>, now: seq<Record>)
    requires Passed(was, all, limit, counts, last, before, log) && SameButFlags(last, now)
    requires Pending(last) == all[Covered(|all|, limit, |counts|)..]
    ensures var at := SliceTo(Pending(last), limit);
            Passed(was, all, limit, counts + [|at|], now, before, log + Envelopes(last, at, |at|))
  {
    CountsPass(all, limit, counts, last);
    PassGets(was, all, Covered(|all|, limit, |counts|), before, log, last, limit);
    SameButFlagsTransitive(was, last, now);
  }

  lemma CountsExtend(n: nat, limit: nat, counts: seq<nat>, m: nat)
    requires CountsAre(n, limit, counts) && m == Share(n, limit, |counts|)
    ensures CountsAre(n, limit, counts + [m])
  {
  }

  /**
    What a number of clean passes come to: pass number `k` returned min(limit, remaining), the broker got the pending
    records once each in insertion order, and none is pending if and only if there were ceil(n / limit) passes.
   */
  ghost predicate Relayed(was: seq<Record>, limit: nat, counts: seq<nat>, now: seq<Record>, sent: seq<Envelope>)
    requires 0 < limit
  {
    var all, passes := Pending(was), |counts|;
    && (forall k :: 0 <= k < passes ==> counts[k] == Min(limit, |all| - Min(k * limit, |all|)))
    && (Pending(now) == [] <==> (|all| + limit - 1) / limit <= passes)
    && sent == Envelopes(was, all, Min(passes * limit, |all|))
  }

  lemma AllPassed(states: seq<seq<Record>>, limit: nat, counts: seq<nat>, before: seq<Envelope>, log: seq<Envelope>)
    requires 0 < limit && |states| == |counts| + 1 && CleanPasses(states, limit)
    requires Passed(states[0], Pending(states[0]), limit, counts, states[|counts|], before, log)
    ensures before <= log && Relayed(states[0], limit, counts, states[|counts|], log[|before|..])
  {
    var was, all, passes := states[0], Pending(states[0]), |counts|;
    DrainTakesCeiling(states, limit, passes);
    Drained(|all|, limit, passes);
    SharesAreRemaining(|all|, limit, counts);
    GotMeans(was, all, Covered(|all|, limit, passes), before, log);
  }

  lemma SameButFlagsTransitive(rs: seq<Record>, later: seq<Record>, last: seq<Record>)
    requires SameButFlags(rs, later) && SameButFlags(later, last)
    ensures SameButFlags(rs, last)
  {
  }

  /** The loop of a relay process, over a number of passes in which no publish raises and nobody adds a record. */
  method RelayLoop(store: InMemoryOutbox, broker: Broker, limit: nat, passes: nat) returns (counts: seq<nat>)
    requires UniqueIds(store.records) && 0 < limit
    modifies store, broker
    ensures |counts| == passes && old(broker.log) <= broker.log
    ensures Relayed(old(store.records), limit, counts, store.records, broker.log[|old(broker.log)|..])
  {
    ghost var was, before := store.records, broker.log;
    ghost var states, all := [was], Pending(was);
    counts := [];
    for k := 0 to passes
      invariant |counts| == k && Passed(was, all, limit, counts, store.records, before, broker.log)
      invariant |states| == k + 1 && states[0] == was && states[k] == store.records && CleanPasses(states, limit)
      invariant UniqueIds(store.records)
    {
      ghost var log, last := broker.log, store.records;
      CleanPassesPending(states, limit, k);
      var count := CleanPass(store, broker, limit);
      PassedOne(was, all, limit, counts, last, before, log, store.records);
      CleanPassesExtend(states, limit, store.records);
      states, counts := states + [store.records], counts + [count];
    }
    AllPassed(states, limit, counts, before, broker.log);
  }
}
