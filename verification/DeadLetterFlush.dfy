/** What one Flush of the dead letter queue does. */
module DeadLetterFlush {
  import opened Builds
  import opened Text
  import opened DeadLetter

  /** Some stored visit emptied this entry. */
  ghost predicate Emptied(b: Build, visits: seq<Visit>, k: Key) {
    exists i :: 0 <= i < |visits| && visits[i].outcome.stored
                && ClearedKey(b, visits[i].key, visits[i].outcome.now) == k
  }

  lemma EmptiedSnoc(b: Build, visits: seq<Visit>, last: Visit, k: Key)
    ensures Emptied(b, visits + [last], k) <==>
            Emptied(b, visits, k) || (last.outcome.stored && ClearedKey(b, last.key, last.outcome.now) == k)
  {
    var all := visits + [last];
    assert all[|visits|] == last;
    if Emptied(b, visits, k) {
      var i :| 0 <= i < |visits| && visits[i].outcome.stored
               && ClearedKey(b, visits[i].key, visits[i].outcome.now) == k;
      assert all[i] == visits[i];
    }
    if Emptied(b, all, k) {
      var i :| 0 <= i < |all| && all[i].outcome.stored
               && ClearedKey(b, all[i].key, all[i].outcome.now) == k;
      assert i < |visits| ==> visits[i] == all[i];
    }
  }

  lemma VisitSnoc(b: Build, s: Store, done: seq<Visit>, v: Visit)
    requires RangePrefix(b, s, done)
    requires v.key in FlushAll(b, s, done).queue && !Visits(done, v.key)
    ensures RangePrefix(b, s, done + [v])
    ensures FlushAll(b, s, done + [v]) == FlushKey(b, FlushAll(b, s, done), v.key, v.outcome)
  {
    var done' := done + [v];
    assert done'[..|done|] == done;
    forall i | 0 <= i < |done'| ensures done'[i].key in FlushAll(b, s, done'[..i]).queue {
      if i < |done| {
        assert done'[..i] == done[..i] && done'[i] == done[i];
      }
    }
    forall i, j | 0 <= i < j < |done'| ensures done'[i].key != done'[j].key {
      assert done'[i] == done[i];
      assert j < |done| ==> done'[j] == done[j];
    }
  }

  /** One flush, in closed form and for either build: the entries a stored visit empties are
      empty, every other key keeps its data, nothing is accepted. */
  lemma {:induction false} FlushAllMeaning(b: Build, s: Store, visits: seq<Visit>, k: Key)
    ensures var s' := FlushAll(b, s, visits);
            && Held(s', k) == (if Emptied(b, visits, k) then [] else Held(s, k))
            && (k in s'.queue <==> k in s.queue || Emptied(b, visits, k))
            && s'.accepted == s.accepted
  {
    if visits == [] {
    } else {
      var init, last := visits[..|visits| - 1], visits[|visits| - 1];
      FlushAllMeaning(b, s, init, k);
      EmptiedSnoc(b, init, last, k);
      assert init + [last] == visits;
      FlushKeyMeaning(b, FlushAll(b, s, init), last.key, last.outcome, k);
    }
  }

  /** Repaired, a key with data is emptied exactly when its own visit was stored. */
  lemma FlushEmptiesStoredKeys(s: Store, visits: seq<Visit>, i: nat)
    requires Ranges(Repaired, s, visits) && i < |visits|
    ensures Held(FlushAll(Repaired, s, visits), visits[i].key)
            == if visits[i].outcome.stored then [] else Held(s, visits[i].key)
  {
    FlushAllMeaning(Repaired, s, visits, visits[i].key);
  }

  /** Repaired, the loop visits exactly the keys that were there when it began. */
  lemma RepairedRangeVisitsKeys(s: Store, visits: seq<Visit>, k: Key)
    requires Ranges(Repaired, s, visits)
    ensures Visits(visits, k) <==> k in s.queue
  {
    if Visits(visits, k) {
      var i :| 0 <= i < |visits| && visits[i].key == k;
      RepairedKeys(s, visits, i);
    }
  }

  lemma {:induction false} RepairedKeys(s: Store, visits: seq<Visit>, i: nat)
    requires RangePrefix(Repaired, s, visits) && i <= |visits|
    ensures FlushAll(Repaired, s, visits[..i]).queue.Keys == s.queue.Keys
  {
    if i > 0 {
      RepairedKeys(s, visits, i - 1);
      assert visits[..i][..i - 1] == visits[..i - 1];
      assert visits[i - 1].key in FlushAll(Repaired, s, visits[..i - 1]).queue;
    } else {
      assert visits[..0] == [];
    }
  }

  // ---- the loop as typed ----

  /** Visits that fail, one for each of some keys not yet visited. */
  lemma {:induction false} FailingVisits(b: Build, s: Store, done: seq<Visit>, keys: set<Key>)
    returns (visits: seq<Visit>)
    requires RangePrefix(b, s, done) && keys <= FlushAll(b, s, done).queue.Keys
    requires forall k | k in keys :: !Visits(done, k)
    ensures RangePrefix(b, s, visits)
    ensures forall k :: Visits(visits, k) <==> Visits(done, k) || k in keys
    decreases |keys|
  {
    if keys == {} {
      visits := done;
    } else {
      var k :| k in keys;
      var v := Visit(k, FAILED);
      VisitSnoc(b, s, done, v);
      forall j ensures Visits(done + [v], j) <==> Visits(done, j) || j == k { VisitsSnoc(done, v, j); }
      visits := FailingVisits(b, s, done + [v], keys - {k});
    }
  }

  lemma VisitsSnoc(done: seq<Visit>, v: Visit, k: Key)
    ensures Visits(done + [v], k) <==> Visits(done, k) || v.key == k
  {
    var all := done + [v];
    assert all[|done|] == v;
    if i :| 0 <= i < |done| && done[i].key == k {
      assert all[i].key == k;
    }
  }

  lemma {:induction false} LongestKey(keys: set<Key>) returns (k: Key)
    requires keys != {}
    ensures k in keys && forall j | j in keys :: |j| <= |k|
    decreases |keys|
  {
    k :| k in keys;
    if keys != {k} {
      var j := LongestKey(keys - {k});
      if |j| > |k| { k := j; }
    }
  }

  /** As typed a stored flush makes a new entry, and the loop may go on to visit it. */
  lemma VisitsNewEntry(s: Store) returns (visits: seq<Visit>, name: Key)
    requires s.queue != map[]
    ensures Ranges(AsTyped, s, visits) && Visits(visits, name) && name !in s.queue
  {
    var k := LongestKey(s.queue.Keys);
    name := ObjectName(k, 0);
    var v, w := Visit(k, Outcome(true, 0)), Visit(name, FAILED);
    assert !Visits([], k) && FlushAll(AsTyped, s, []) == s;
    VisitSnoc(AsTyped, s, [], v);
    VisitsSnoc([], v, name);
    VisitSnoc(AsTyped, s, [] + [v], w);
    forall j ensures Visits([] + [v] + [w], j) <==> j == k || j == name {
      VisitsSnoc([], v, j);
      VisitsSnoc([] + [v], w, j);
    }
    visits := FailingVisits(AsTyped, s, [] + [v] + [w], s.queue.Keys - {k});
  }

  lemma NothingToVisit(s: Store, visits: seq<Visit>)
    requires s.queue == map[] && RangePrefix(AsTyped, s, visits)
    ensures visits == []
  {
    assert visits != [] ==> visits[0].key in FlushAll(AsTyped, s, visits[..0]).queue;
  }

  /** As typed the loop is bound to visit exactly the keys that were there when it began only when
      there were none. */
  lemma TypedRangeVisitsKeys(s: Store)
    ensures (forall visits: seq<Visit>, k: Key | Ranges(AsTyped, s, visits) :: Visits(visits, k) <==> k in s.queue)
            <==> s.queue == map[]
  {
    if s.queue == map[] {
      forall visits: seq<Visit>, k: Key | Ranges(AsTyped, s, visits) ensures !Visits(visits, k) {
        NothingToVisit(s, visits);
      }
    } else {
      var visits, name := VisitsNewEntry(s);
    }
  }

  // ---- the order of the loop ----

  ghost predicate SameVisits(v: seq<Visit>, w: seq<Visit>) {
    forall x :: x in v <==> x in w
  }

  /** A stored visit forgets the key's failed flushes. */
  lemma {:induction false} FlushAllFailures(b: Build, s: Store, visits: seq<Visit>, k: Key)
    ensures var s' := FlushAll(b, s, visits);
            && (k in s'.sizeFailures <==> k in s.sizeFailures || Emptied(Repaired, visits, k))
            && Failures(s', k) == if Emptied(Repaired, visits, k) then 0 else Failures(s, k)
  {
    if visits == [] {
    } else {
      var init, last := visits[..|visits| - 1], visits[|visits| - 1];
      FlushAllFailures(b, s, init, k);
      EmptiedSnoc(Repaired, init, last, k);
      assert init + [last] == visits;
    }
  }

  lemma EmptiedSubset(b: Build, v: seq<Visit>, w: seq<Visit>, k: Key)
    requires forall x | x in v :: x in w
    ensures Emptied(b, v, k) ==> Emptied(b, w, k)
  {
    if Emptied(b, v, k) {
      var i :| 0 <= i < |v| && v[i].outcome.stored
               && ClearedKey(b, v[i].key, v[i].outcome.now) == k;
      assert v[i] in w;
      var j :| 0 <= j < |w| && w[j] == v[i];
      assert w[j].outcome.stored;
    }
  }

  /** Whatever order the map is ranged over, one flush with given outcomes ends in one queue and with
      the same failures counted. */
  lemma FlushOrderIrrelevant(b: Build, s: Store, v: seq<Visit>, w: seq<Visit>)
    requires SameVisits(v, w)
    ensures FlushAll(b, s, v).queue == FlushAll(b, s, w).queue
    ensures FlushAll(b, s, v).sizeFailures == FlushAll(b, s, w).sizeFailures
  {
    var s1, s2 := FlushAll(b, s, v), FlushAll(b, s, w);
    forall k
      ensures k in s1.queue <==> k in s2.queue
      ensures k in s1.sizeFailures <==> k in s2.sizeFailures
      ensures Held(s1, k) == Held(s2, k) && Failures(s1, k) == Failures(s2, k)
    {
      FlushAllMeaning(b, s, v, k);
      FlushAllMeaning(b, s, w, k);
      FlushAllFailures(b, s, v, k);
      FlushAllFailures(b, s, w, k);
      EmptiedSubset(b, v, w, k);
      EmptiedSubset(b, w, v, k);
      EmptiedSubset(Repaired, v, w, k);
      EmptiedSubset(Repaired, w, v, k);
    }
    assert forall k | k in s1.queue :: s1.queue[k] == Held(s1, k) == Held(s2, k);
    assert forall k | k in s1.sizeFailures :: s1.sizeFailures[k] == Failures(s1, k) == Failures(s2, k);
  }

  /** What the stored visits upload if each finds its key's batch untouched. */
  function UploadsOf(s: Store, visits: seq<Visit>): seq<Upload> {
    if visits == [] then []
    else
      var last := visits[|visits| - 1];
      UploadsOf(s, visits[..|visits| - 1])
      + if last.outcome.stored then [UploadOf(Repaired, last.key, last.outcome.now, Held(s, last.key))] else []
  }

  predicate DistinctKeys(visits: seq<Visit>) {
    forall i, j | 0 <= i < j < |visits| :: visits[i].key != visits[j].key
  }

  lemma {:induction false} FlushAllUploads(s: Store, visits: seq<Visit>)
    requires DistinctKeys(visits)
    ensures FlushAll(Repaired, s, visits).uploads == s.uploads + UploadsOf(s, visits)
  {
    if visits == [] {
    } else {
      var init, last := visits[..|visits| - 1], visits[|visits| - 1];
      FlushAllUploads(s, init);
      FlushAllMeaning(Repaired, s, init, last.key);
      assert !Emptied(Repaired, init, last.key);
    }
  }

  lemma {:induction false} UploadsOfAppend(s: Store, v: seq<Visit>, w: seq<Visit>)
    ensures UploadsOf(s, v + w) == UploadsOf(s, v) + UploadsOf(s, w)
  {
    if w == [] {
      assert v + w == v;
    } else {
      var init := w[..|w| - 1];
      UploadsOfAppend(s, v, init);
      assert (v + w)[..|v + w| - 1] == v + init;
    }
  }

  lemma UploadsSplit(s: Store, w: seq<Visit>, i: nat)
    requires i < |w|
    ensures multiset(UploadsOf(s, w)) == multiset(UploadsOf(s, w[..i] + w[i + 1..])) + multiset(UploadsOf(s, [w[i]]))
  {
    hide UploadsOf;
    var a, x, b := w[..i], [w[i]], w[i + 1..];
    assert w == a + x + b;
    UploadsOfAppend(s, a, b);
    UploadsOfAppend(s, a + x, b);
    UploadsOfAppend(s, a, x);
  }

  lemma AnyVisit(w: seq<Visit>) returns (x: Visit)
    requires w != []
    ensures x in w
  {
    x := w[0];
  }

  lemma {:induction false} UploadsPermuted(s: Store, v: seq<Visit>, w: seq<Visit>)
    requires DistinctKeys(v) && DistinctKeys(w) && SameVisits(v, w)
    ensures multiset(UploadsOf(s, v)) == multiset(UploadsOf(s, w))
  {
    if v == [] {
      if w != [] {
        var x := AnyVisit(w);
        assert false;
      }
    } else {
      var n := |v| - 1;
      assert v[n] in w;
      var i :| 0 <= i < |w| && w[i] == v[n];
      RemoveVisit(v, w, i);
      hide UploadsOf, DistinctKeys, SameVisits;
      UploadsPermuted(s, v[..n], w[..i] + w[i + 1..]);
      UploadsSplit(s, w, i);
      UploadsSplit(s, v, n);
      assert v[..n] + v[n + 1..] == v[..n];
    }
  }

  lemma RemoveVisit(v: seq<Visit>, w: seq<Visit>, i: nat)
    requires DistinctKeys(v) && DistinctKeys(w) && SameVisits(v, w)
    requires v != [] && i < |w| && w[i] == v[|v| - 1]
    ensures var init, rest := v[..|v| - 1], w[..i] + w[i + 1..];
            DistinctKeys(init) && DistinctKeys(rest) && SameVisits(init, rest)
  {
    var init, rest, x := v[..|v| - 1], w[..i] + w[i + 1..], w[i];
    forall j | 0 <= j < |rest| ensures rest[j] == w[if j < i then j else j + 1] {}
    forall y ensures y in init <==> y in rest {
      assert y in init <==> y in v && y != x by { assert v == init + [x]; }
      assert y in rest <==> y in w && y != x by { assert w == w[..i] + [x] + w[i + 1..]; }
    }
  }

  /** Repaired, the same objects are uploaded too. */
  lemma UploadsOrderIrrelevant(s: Store, v: seq<Visit>, w: seq<Visit>)
    requires Ranges(Repaired, s, v) && Ranges(Repaired, s, w) && SameVisits(v, w)
    ensures multiset(FlushAll(Repaired, s, v).uploads) == multiset(FlushAll(Repaired, s, w).uploads)
  {
    FlushAllUploads(s, v);
    FlushAllUploads(s, w);
    UploadsPermuted(s, v, w);
  }

  /** The tests expect length 0 after a stored flush of the key. As typed that holds exactly when
      the key was empty before. */
  lemma TypedFlushKeepsBatch(s: Store, k: Key, now: int64)
    ensures Held(FlushKey(Repaired, s, k, Outcome(true, now)), k) == []
    ensures Held(FlushKey(AsTyped, s, k, Outcome(true, now)), k) == Held(s, k)
    ensures |Held(FlushKey(AsTyped, s, k, Outcome(true, now)), k)| == 0 <==> |Held(s, k)| == 0
  {
    assert |ObjectName(k, now)| > |k|;
  }
}
