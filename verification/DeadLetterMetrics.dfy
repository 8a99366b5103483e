/** The counts and sizes that uploads report to the metrics. */
module DeadLetterMetrics {
  import opened Builds
  import opened Text
  import opened Framing
  import opened DeadLetter

  /** The items reported for one key. */
  function ItemsReported(uploads: seq<Upload>, k: Key): nat {
    if uploads == [] then 0
    else
      var last := uploads[|uploads| - 1];
      ItemsReported(uploads[..|uploads| - 1], k) + if last.key == k then last.count else 0
  }

  /** The bytes reported for one key. */
  function BytesReported(uploads: seq<Upload>, k: Key): nat {
    if uploads == [] then 0
    else
      var last := uploads[|uploads| - 1];
      BytesReported(uploads[..|uploads| - 1], k) + if last.key == k then last.size else 0
  }

  lemma ReportedSnoc(uploads: seq<Upload>, u: Upload, k: Key)
    ensures ItemsReported(uploads + [u], k) == ItemsReported(uploads, k) + if u.key == k then u.count else 0
    ensures BytesReported(uploads + [u], k) == BytesReported(uploads, k) + if u.key == k then u.size else 0
  {
    assert (uploads + [u])[..|uploads|] == uploads;
  }

  /** What is reported for a key adds up to what left the queue and what S3 took. */
  ghost predicate ReportsRight(s: Store, k: Key) {
    && ItemsReported(s.uploads, k) == Drained(s, k)
    && BytesReported(s.uploads, k) == |Received(s.uploads, k)|
  }

  lemma FlushKeyReports(s: Store, k: Key, o: Outcome, j: Key)
    requires ReportsRight(s, j)
    ensures ReportsRight(FlushKey(Repaired, s, k, o), j)
  {
    if o.stored {
      var u := UploadOf(Repaired, k, o.now, Held(s, k));
      ReportedSnoc(s.uploads, u, j);
      ReceivedSnoc(s.uploads, u, j);
      hide Frame;
    }
  }

  lemma {:induction false} FlushAllReports(s: Store, visits: seq<Visit>, j: Key)
    requires ReportsRight(s, j)
    ensures ReportsRight(FlushAll(Repaired, s, visits), j)
  {
    if visits == [] {
    } else {
      var init, last := visits[..|visits| - 1], visits[|visits| - 1];
      FlushAllReports(s, init, j);
      FlushKeyReports(FlushAll(Repaired, s, init), last.key, last.outcome, j);
      hide ReportsRight;
    }
  }

  lemma TriggerReports(size: int64, s: Store, k: Key, o: Outcome, j: Key)
    requires ReportsRight(s, j)
    ensures ReportsRight(Trigger(Repaired, size, s, k, o), j)
  {
    FlushKeyReports(s, k, o, j);
    hide FlushKey;
  }

  lemma AppendReports(s: Store, k: Key, d: Data, j: Key)
    requires ReportsRight(s, j)
    ensures ReportsRight(Append(s, k, d), j)
  {
    AcceptedSnoc(s.accepted, (k, d), j);
  }

  /** Repaired, in every run the items reported for a key are as many as have left the queue, and the bytes
      as many as S3 took. */
  lemma {:induction false} ReportsAddUp(size: int64, events: seq<Event>, k: Key)
    ensures var s := Run(Repaired, size, events);
            ItemsReported(s.uploads, k) == Drained(s, k) && BytesReported(s.uploads, k) == |Received(s.uploads, k)|
  {
    if events == [] {
    } else {
      var init, last := events[..|events| - 1], events[|events| - 1];
      ReportsAddUp(size, init, k);
      var s := Run(Repaired, size, init);
      assert ReportsRight(s, k);
      match last
      case AddEvent(j, d, o) =>
        AppendReports(s, j, d, k);
        TriggerReports(size, Append(s, j, d), j, o, k);
        hide Trigger, Append;
      case FlushEvent(visits) =>
        FlushAllReports(s, visits, k);
        hide FlushAll;
    }
  }

  // ---- every single upload, in either build ----

  /** An upload reports some batch of its key: so many items, their bytes with a newline each, and,
      repaired, that batch as its body. */
  ghost predicate ReportsBatch(b: Build, u: Upload, batch: seq<Data>) {
    && u.count == |batch| && u.size == TotalLength(batch) + |batch|
    && u.body == if b.AsTyped? then [] else Frame(batch)
  }

  /** A stored flush reports what the queue held, whole. */
  lemma FlushReportsHeld(b: Build, s: Store, k: Key, now: int64)
    ensures var s' := FlushKey(b, s, k, Outcome(true, now));
            && |s'.uploads| == |s.uploads| + 1 && s'.uploads[..|s.uploads|] == s.uploads
            && s'.uploads[|s.uploads|].key == k && s'.uploads[|s.uploads|].now == now
            && ReportsBatch(b, s'.uploads[|s.uploads|], Held(s, k))
  {
    FrameSize(Held(s, k));
  }

  ghost predicate ReportsSome(b: Build, u: Upload) {
    exists batch :: ReportsBatch(b, u, batch)
  }

  ghost predicate AllReport(b: Build, uploads: seq<Upload>) {
    forall i | 0 <= i < |uploads| :: ReportsSome(b, uploads[i])
  }

  lemma FlushKeyReport(b: Build, s: Store, k: Key, o: Outcome)
    requires AllReport(b, s.uploads)
    ensures AllReport(b, FlushKey(b, s, k, o).uploads)
  {
    if o.stored { FlushReportsHeld(b, s, k, o.now); }
  }

  lemma {:induction false} FlushAllReport(b: Build, s: Store, visits: seq<Visit>)
    requires AllReport(b, s.uploads)
    ensures AllReport(b, FlushAll(b, s, visits).uploads)
  {
    if visits == [] {
    } else {
      var init, last := visits[..|visits| - 1], visits[|visits| - 1];
      FlushAllReport(b, s, init);
      FlushKeyReport(b, FlushAll(b, s, init), last.key, last.outcome);
      hide AllReport;
    }
  }

  /** In either build and every run, each upload reports the items and bytes of some batch, and, repaired, has
      that batch as its body. */
  lemma {:induction false} EveryUploadReports(b: Build, size: int64, events: seq<Event>)
    ensures AllReport(b, Run(b, size, events).uploads)
  {
    if events == [] {
    } else {
      var init, last := events[..|events| - 1], events[|events| - 1];
      EveryUploadReports(b, size, init);
      var s := Run(b, size, init);
      match last
      case AddEvent(k, d, o) => FlushKeyReport(b, Append(s, k, d), k, o);
      case FlushEvent(visits) => FlushAllReport(b, s, visits);
      hide AllReport;
    }
  }
}
