/**
  The outbox, its relays, the broker and the consumer together (messaging.py): what the handler has done once
  everything is relayed and delivered.
 */
module EndToEnd {
  import opened Sequences
  import opened Outbox
  import RelayProtocol
  import Consumer

  /**
    `at` are the positions of the broker log in the order in which they are delivered: every position is delivered
    at least once, and none before all earlier ones have been.  Redeliveries and rewinds are allowed.
   */
  ghost predicate DeliversInLogOrder(at: seq<nat>, log: seq<nat>) {
    GapFree(at) && Within(at, |log|) && forall p: nat :: p < |log| ==> p in at
  }

  ghost predicate Drained(s: RelayProtocol.System) {
    forall i :: 0 <= i < |s.records| ==> s.records[i].published
  }

  function EnvelopesOf(rs: seq<Record>): (r: seq<Envelope>)
    ensures |r| == |rs| && forall i :: 0 <= i < |rs| ==> r[i] == rs[i].envelope
  {
    seq(|rs|, i requires 0 <= i < |rs| => rs[i].envelope)
  }

  /** Event ids are present and different from record to record. */
  ghost predicate DistinctEvents(es: seq<Envelope>) {
    && (forall i :: 0 <= i < |es| ==> es[i].eventId != "")
    && forall i, j :: 0 <= i < j < |es| ==> es[i].eventId != es[j].eventId
  }

  /** The envelopes handed to the consumer when the positions `at` of the log are delivered. */
  ghost function Delivered(s: RelayProtocol.System, at: seq<nat>): seq<Envelope>
    requires Within(s.log, |s.records|) && Within(at, |s.log|)
  {
    Pick(EnvelopesOf(s.records), Pick(s.log, at))
  }

  /** Delivered records: gap-free, all within the outbox, and all of it once the outbox is drained. */
  lemma DeliveredRecords(s: RelayProtocol.System, at: seq<nat>)
    requires RelayProtocol.Inv(s) && DeliversInLogOrder(at, s.log)
    ensures var ds := Pick(s.log, at);
            && GapFree(ds) && Within(ds, |s.records|)
            && (Drained(s) ==> FirstOccurrences(ds) == UpTo(|s.records|))
  {
    var ds := Pick(s.log, at);
    GapFreeCompose(s.log, at);
    GapFreeFirstOccurrences(ds);
    if Drained(s) {
      var n, m := |s.records|, |FirstOccurrences(ds)|;
      forall i: nat | i < n ensures i in ds {
        assert i in s.log;
        var p :| 0 <= p < |s.log| && s.log[p] == i;
        assert p in at;
        var q :| 0 <= q < |at| && at[q] == p;
        assert ds[q] == i;
      }
      assert n !in ds;
      assert m <= n <= m by {
        assert m > n ==> n in ds;
        assert m < n ==> m in ds;
      }
    }
  }

  /**
    End to end: however many relays ran, crashed and published again, once the outbox is drained and its log has been
    delivered, a consumer whose handler never raises has handled each event exactly once, in insertion order.
   */
  lemma ExactlyOnceInOrder(states: seq<RelayProtocol.System>, actions: seq<RelayProtocol.Action>, k: nat,
                           at: seq<nat>, fails: seq<bool>)
    requires RelayProtocol.IsRun(states, actions) && RelayProtocol.OnlyPendingAdded(actions) && k < |states|
    requires Drained(states[k]) && DistinctEvents(EnvelopesOf(states[k].records))
    requires DeliversInLogOrder(at, states[k].log)
    requires |fails| == |at| && forall q :: 0 <= q < |fails| ==> !fails[q]
    ensures Within(states[k].log, |states[k].records|)
    ensures Consumer.DeliverAll(Delivered(states[k], at), fails).effects == EnvelopesOf(states[k].records)
  {
    RelayProtocol.RunKeepsInv(states, actions, k);
    DeliveredRecords(states[k], at);
    EffectsOfDeliveries(EnvelopesOf(states[k].records), Pick(states[k].log, at), fails);
  }

  /** Any gap-free delivery of all of the distinct events `es` has just them as its effects. */
  lemma EffectsOfDeliveries(es: seq<Envelope>, ds: seq<nat>, fails: seq<bool>)
    requires DistinctEvents(es) && Within(ds, |es|)
    requires FirstOccurrences(ds) == UpTo(|es|)
    requires |fails| == |ds| && forall q :: 0 <= q < |fails| ==> !fails[q]
    ensures Consumer.DeliverAll(Pick(es, ds), fails).effects == es
  {
    PickedAreDistinct(es, ds);
    Consumer.EffectsAreFirstDeliveries(Pick(es, ds), fails);
    FirstOccurrencesPick(es, ds);
    assert Pick(es, UpTo(|es|)) == es;
  }

  lemma PickedAreDistinct(es: seq<Envelope>, ds: seq<nat>)
    requires DistinctEvents(es) && Within(ds, |es|)
    ensures forall i, j :: 0 <= i < j < |es| ==> es[i] != es[j]
    ensures forall e :: e in Pick(es, ds) ==> e.eventId != ""
    ensures forall e, f :: e in Pick(es, ds) && f in Pick(es, ds) && e.eventId == f.eventId ==> e == f
  {
  }

  /**
    Nothing is dropped, whatever the handler does: once drained and delivered, every event of the outbox has taken
    effect or is in the dead-letter queue, and none took effect twice.
   */
  lemma NothingDropped(states: seq<RelayProtocol.System>, actions: seq<RelayProtocol.Action>, k: nat,
                       at: seq<nat>, fails: seq<bool>, i: nat)
    requires RelayProtocol.IsRun(states, actions) && RelayProtocol.OnlyPendingAdded(actions) && k < |states|
    requires Drained(states[k]) && DistinctEvents(EnvelopesOf(states[k].records))
    requires DeliversInLogOrder(at, states[k].log) && |fails| == |at|
    requires i < |states[k].records|
    ensures Within(states[k].log, |states[k].records|)
    ensures var ledger := Consumer.DeliverAll(Delivered(states[k], at), fails);
            var e := states[k].records[i].envelope;
            && (Consumer.Successes(ledger.effects, e.eventId) == 1 || e in ledger.dead)
            && Consumer.Successes(ledger.effects, e.eventId) <= 1
  {
    RelayProtocol.RunKeepsInv(states, actions, k);
    var s := states[k];
    var e := s.records[i].envelope;
    DeliveredRecords(s, at);
    var ds := Pick(s.log, at);
    assert i in FirstOccurrences(ds) by { assert UpTo(|s.records|)[i] == i; }
    var q :| 0 <= q < |ds| && ds[q] == i;
    assert EnvelopesOf(s.records)[i] == e && Delivered(s, at)[q] == e;
    assert EnvelopesOf(s.records)[i].eventId != "";
    Consumer.SequentialLedger(Delivered(s, at), fails);
    var ledger := Consumer.DeliverAll(Delivered(s, at), fails);
    if e in ledger.effects {
      Consumer.EffectCounts(ledger.effects, e);
    }
  }
}
