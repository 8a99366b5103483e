/** What the S3 bucket holds after some uploads: an object's name carries the second of its upload,
    and an upload replaces the object that has its name. */
module Bucket {
  import opened Builds
  import opened Text
  import opened Framing
  import opened DeadLetter

  function Objects(uploads: seq<Upload>): map<string, Data> {
    if uploads == [] then map[]
    else
      var last := uploads[|uploads| - 1];
      Objects(uploads[..|uploads| - 1])[NameOf(last) := last.body]
  }

  function Without(names: seq<string>, name: string): seq<string> {
    if names == [] then []
    else Without(names[..|names| - 1], name) + if names[|names| - 1] == name then [] else [names[|names| - 1]]
  }

  /** The names of one key's objects, in the order of the uploads the bucket still holds. */
  function NamesFor(uploads: seq<Upload>, k: Key): seq<string> {
    if uploads == [] then []
    else
      var init, last := NamesFor(uploads[..|uploads| - 1], k), uploads[|uploads| - 1];
      if last.key == k then Without(init, NameOf(last)) + [NameOf(last)] else init
  }

  function BodyAt(bucket: map<string, Data>, name: string): Data {
    if name in bucket then bucket[name] else []
  }

  function ReadAll(bucket: map<string, Data>, names: seq<string>): Data {
    if names == [] then []
    else ReadAll(bucket, names[..|names| - 1]) + BodyAt(bucket, names[|names| - 1])
  }

  /** Everything the bucket holds for one key. */
  function ReadKey(uploads: seq<Upload>, k: Key): Data {
    ReadAll(Objects(uploads), NamesFor(uploads, k))
  }

  /** Some non-empty upload of the key is followed by another one of it in the same second. */
  ghost predicate Overwritten(uploads: seq<Upload>, k: Key) {
    exists i, j :: 0 <= i < j < |uploads| && uploads[i].key == k && Replaces(uploads[j], uploads[i])
  }

  /** The one takes the place of the other, which is not empty. */
  predicate Replaces(u: Upload, v: Upload) {
    u.key == v.key && u.now == v.now && v.count > 0
  }

  /** An upload's count is zero exactly when its body is empty. */
  ghost predicate CountsRight(uploads: seq<Upload>) {
    forall i | 0 <= i < |uploads| :: uploads[i].count == 0 <==> uploads[i].body == []
  }

  // ---- names and objects ----

  lemma {:induction false} WithoutMembers(names: seq<string>, name: string, x: string)
    ensures x in Without(names, name) <==> x in names && x != name
  {
    if names == [] {
    } else {
      WithoutMembers(names[..|names| - 1], name, x);
      assert names == names[..|names| - 1] + [names[|names| - 1]];
    }
  }

  /** Each object of the key, and no other, is named. */
  lemma {:induction false} NamesForObjects(uploads: seq<Upload>, k: Key, now: int64)
    ensures ObjectName(k, now) in NamesFor(uploads, k) <==> ObjectName(k, now) in Objects(uploads)
  {
    if uploads == [] {
    } else {
      var init, last := uploads[..|uploads| - 1], uploads[|uploads| - 1];
      NamesForObjects(init, k, now);
      WithoutMembers(NamesFor(init, k), NameOf(last), ObjectName(k, now));
      ObjectNameInjective(k, now, last.key, last.now);
      hide ObjectName;
    }
  }

  ghost predicate Distinct(names: seq<string>) {
    forall i, j | 0 <= i < j < |names| :: names[i] != names[j]
  }

  lemma {:induction false} WithoutDistinct(names: seq<string>, name: string)
    requires Distinct(names)
    ensures Distinct(Without(names, name))
  {
    if names == [] {
    } else {
      var init, last := names[..|names| - 1], names[|names| - 1];
      WithoutDistinct(init, name);
      WithoutMembers(init, name, last);
      assert last !in init;
    }
  }

  /** No object is read twice. */
  lemma {:induction false} NamesForDistinct(uploads: seq<Upload>, k: Key)
    ensures Distinct(NamesFor(uploads, k))
  {
    if uploads == [] {
    } else {
      var init, name := NamesFor(uploads[..|uploads| - 1], k), NameOf(uploads[|uploads| - 1]);
      NamesForDistinct(uploads[..|uploads| - 1], k);
      WithoutDistinct(init, name);
      WithoutMembers(init, name, name);
      hide ObjectName, Without;
    }
  }

  lemma {:induction false} NamesAreOfKey(uploads: seq<Upload>, k: Key, j: Key, now: int64)
    requires j != k
    ensures ObjectName(j, now) !in NamesFor(uploads, k)
  {
    if uploads == [] {
    } else {
      var init, last := uploads[..|uploads| - 1], uploads[|uploads| - 1];
      NamesAreOfKey(init, k, j, now);
      WithoutMembers(NamesFor(init, k), NameOf(last), ObjectName(j, now));
      ObjectNameInjective(j, now, last.key, last.now);
      hide ObjectName;
    }
  }

  /** An object holds the body of the last upload of its name. */
  lemma {:induction false} LastOfName(uploads: seq<Upload>, k: Key, now: int64) returns (i: nat)
    requires ObjectName(k, now) in Objects(uploads)
    ensures i < |uploads| && uploads[i].key == k && uploads[i].now == now
    ensures Objects(uploads)[ObjectName(k, now)] == uploads[i].body
    ensures forall j | i < j < |uploads| :: uploads[j].key != k || uploads[j].now != now
  {
    hide ObjectName;
    var n := |uploads| - 1;
    var init, last := uploads[..n], uploads[n];
    ObjectNameInjective(k, now, last.key, last.now);
    if last.key == k && last.now == now {
      i := n;
    } else {
      assert NameOf(last) != ObjectName(k, now);
      i := LastOfName(init, k, now);
      assert forall j | 0 <= j < n :: uploads[j] == init[j];
    }
  }

  lemma {:induction false} UploadHasObject(uploads: seq<Upload>, i: nat)
    requires i < |uploads|
    ensures NameOf(uploads[i]) in Objects(uploads)
  {
    var n := |uploads| - 1;
    if i == n {
    } else {
      UploadHasObject(uploads[..n], i);
      assert uploads[..n][i] == uploads[i];
    }
  }

  // ---- reading back ----

  lemma {:induction false} ReadUnchanged(bucket: map<string, Data>, names: seq<string>, name: string, body: Data)
    requires name !in names
    ensures ReadAll(bucket[name := body], names) == ReadAll(bucket, names)
  {
    if names == [] {
    } else {
      ReadUnchanged(bucket, names[..|names| - 1], name, body);
      assert names[|names| - 1] in names;
    }
  }

  lemma ReadSnoc(bucket: map<string, Data>, names: seq<string>, x: string)
    ensures ReadAll(bucket, names + [x]) == ReadAll(bucket, names) + BodyAt(bucket, x)
  {
    assert (names + [x])[..|names|] == names;
  }

  /** Leaving a name out loses nothing exactly when it is not there or its object is empty. */
  lemma {:induction false} ReadWithout(bucket: map<string, Data>, names: seq<string>, name: string)
    ensures var all, rest := ReadAll(bucket, names), ReadAll(bucket, Without(names, name));
            if name in names && BodyAt(bucket, name) != [] then |rest| < |all| else rest == all
  {
    if names == [] {
    } else {
      var init, last := names[..|names| - 1], names[|names| - 1];
      ReadWithout(bucket, init, name);
      assert names == init + [last];
      ReadSnoc(bucket, Without(init, name), last);
      var rest, body := ReadAll(bucket, Without(init, name)), BodyAt(bucket, last);
      assert ReadAll(bucket, names) == ReadAll(bucket, init) + body;
      assert body == [] ==> ReadAll(bucket, init) + body == ReadAll(bucket, init);
      assert Without(names, name) == if last == name then Without(init, name) else Without(init, name) + [last];
      assert ReadAll(bucket, Without(names, name)) == if last == name then rest else rest + body;
      hide ReadAll, Without, BodyAt;
    }
  }

  lemma ReadOtherKey(init: seq<Upload>, last: Upload, k: Key)
    requires last.key != k
    ensures ReadKey(init + [last], k) == ReadKey(init, k)
  {
    var uploads := init + [last];
    assert uploads[..|init|] == init;
    NamesAreOfKey(init, k, last.key, last.now);
    ReadUnchanged(Objects(init), NamesFor(init, k), NameOf(last), last.body);
  }

  lemma ReadSameKey(init: seq<Upload>, last: Upload)
    ensures var k, bucket := last.key, Objects(init);
            ReadKey(init + [last], k) == ReadAll(bucket, Without(NamesFor(init, k), NameOf(last))) + last.body
  {
    var uploads, k, name := init + [last], last.key, NameOf(last);
    assert uploads[..|init|] == init;
    var rest := Without(NamesFor(init, k), name);
    var names := rest + [name];
    assert NamesFor(uploads, k) == names && names[..|rest|] == rest;
    WithoutMembers(NamesFor(init, k), name, name);
    ReadUnchanged(Objects(init), rest, name, last.body);
    hide NamesFor, Without;
  }

  lemma OverwrittenSnoc(init: seq<Upload>, last: Upload, k: Key)
    ensures Overwritten(init + [last], k) <==>
            Overwritten(init, k) || (last.key == k && exists i :: 0 <= i < |init| && Replaces(last, init[i]))
  {
    var uploads := init + [last];
    assert forall i | 0 <= i < |init| :: uploads[i] == init[i];
    if Overwritten(uploads, k) {
      var i, j :| 0 <= i < j < |uploads| && uploads[i].key == k && Replaces(uploads[j], uploads[i]);
      assert Replaces(uploads[j], init[i]);
    }
    if i :| last.key == k && 0 <= i < |init| && Replaces(last, init[i]) {
      assert Replaces(uploads[|init|], uploads[i]);
    }
    if i, j :| 0 <= i < j < |init| && init[i].key == k && Replaces(init[j], init[i]) {
      assert Replaces(uploads[j], uploads[i]);
    }
  }

  /** When nothing was overwritten so far, an upload replaces a non-empty one exactly when the object
      that has its name is not empty. */
  lemma ReplacedObject(init: seq<Upload>, last: Upload)
    requires CountsRight(init) && !Overwritten(init, last.key)
    ensures (exists i :: 0 <= i < |init| && Replaces(last, init[i]))
            <==> BodyAt(Objects(init), NameOf(last)) != []
  {
    var k, now := last.key, last.now;
    if NameOf(last) in Objects(init) {
      var l := LastOfName(init, k, now);
      forall i | 0 <= i < |init| && Replaces(last, init[i]) ensures i == l {
        var _ := Replaces(init[l], init[i]);
      }
      assert init[l].count > 0 ==> Replaces(last, init[l]);
    } else {
      forall i | 0 <= i < |init| ensures !Replaces(last, init[i]) {
        UploadHasObject(init, i);
      }
    }
    hide ObjectName, Objects;
  }

  /** The bucket holds every byte it ever took for a key exactly when no non-empty upload of the key
      was followed by another in the same second, and otherwise strictly fewer. */
  lemma {:induction false} ReadBack(uploads: seq<Upload>, k: Key)
    requires CountsRight(uploads)
    ensures if Overwritten(uploads, k) then |ReadKey(uploads, k)| < |Received(uploads, k)|
            else ReadKey(uploads, k) == Received(uploads, k)
  {
    if uploads == [] {
    } else {
      var init, last := uploads[..|uploads| - 1], uploads[|uploads| - 1];
      assert uploads == init + [last];
      ReadBack(init, k);
      OverwrittenSnoc(init, last, k);
      ReceivedSnoc(init, last, k);
      if last.key != k {
        ReadOtherKey(init, last, k);
      } else {
        ReadSameKey(init, last);
        ReadWithout(Objects(init), NamesFor(init, k), NameOf(last));
        NamesForObjects(init, k, last.now);
        if !Overwritten(init, k) { ReplacedObject(init, last); }
      }
      hide Overwritten, Received, ObjectName, Objects, NamesFor, Replaces, Without;
    }
  }

  // ---- in every run ----

  lemma FlushKeyCounted(s: Store, k: Key, o: Outcome)
    requires CountsRight(s.uploads)
    ensures CountsRight(FlushKey(Repaired, s, k, o).uploads)
  {
    FrameSize(Held(s, k));
  }

  lemma {:induction false} FlushAllCounted(s: Store, visits: seq<Visit>)
    requires CountsRight(s.uploads)
    ensures CountsRight(FlushAll(Repaired, s, visits).uploads)
  {
    if visits == [] {
    } else {
      var init, last := visits[..|visits| - 1], visits[|visits| - 1];
      FlushAllCounted(s, init);
      FlushKeyCounted(FlushAll(Repaired, s, init), last.key, last.outcome);
    }
  }

  lemma {:induction false} RunCounted(size: int64, events: seq<Event>)
    ensures CountsRight(Run(Repaired, size, events).uploads)
  {
    if events == [] {
    } else {
      var init, last := events[..|events| - 1], events[|events| - 1];
      RunCounted(size, init);
      var s := Run(Repaired, size, init);
      match last
      case AddEvent(k, d, o) => FlushKeyCounted(Append(s, k, d), k, o);
      case FlushEvent(visits) => FlushAllCounted(s, visits);
    }
  }

  /** The bucket holds exactly the items of the key that left the queue, framed and in order. */
  ghost predicate AllKept(s: Store, k: Key) {
    0 <= Drained(s, k) && ReadKey(s.uploads, k) == Frame(AcceptedFor(s.accepted, k)[..Drained(s, k)])
  }

  /** Repaired, in every run the items of a key that left the queue are in the bucket, all of them
      and in order, exactly when no non-empty upload of the key was followed by another of it in the
      same second. Otherwise the bucket has lost some of them. */
  lemma KeptExactly(size: int64, events: seq<Event>, k: Key)
    ensures var s := Run(Repaired, size, events);
            && (AllKept(s, k) <==> !Overwritten(s.uploads, k))
            && (Overwritten(s.uploads, k) ==> |ReadKey(s.uploads, k)| < |Received(s.uploads, k)|)
  {
    History(size, events, k);
    RunCounted(size, events);
    ReadBack(Run(Repaired, size, events).uploads, k);
    hide ReadKey, Overwritten, Run, Received, Frame, AcceptedFor;
  }

  lemma {:induction false} ReceivedHolds(uploads: seq<Upload>, i: nat)
    requires i < |uploads|
    ensures |uploads[i].body| <= |Received(uploads, uploads[i].key)|
  {
    if i == |uploads| - 1 {
    } else {
      ReceivedHolds(uploads[..|uploads| - 1], i);
    }
  }

  /** As typed every object in the bucket is empty, in every run. */
  lemma TypedObjectsEmpty(size: int64, events: seq<Event>, k: Key, now: int64)
    requires ObjectName(k, now) in Objects(Run(AsTyped, size, events).uploads)
    ensures Objects(Run(AsTyped, size, events).uploads)[ObjectName(k, now)] == []
  {
    var uploads := Run(AsTyped, size, events).uploads;
    var i := LastOfName(uploads, k, now);
    ReceivedHolds(uploads, i);
    TypedStoresNothing(size, events, k);
    hide Objects, ObjectName;
  }

  lemma {:induction false} OneName(uploads: seq<Upload>, k: Key, now: int64, x: string)
    requires forall i | 0 <= i < |uploads| :: uploads[i].key == k && uploads[i].now == now
    requires x in NamesFor(uploads, k)
    ensures x == ObjectName(k, now)
  {
    if uploads == [] {
    } else {
      var init, last := uploads[..|uploads| - 1], uploads[|uploads| - 1];
      WithoutMembers(NamesFor(init, k), NameOf(last), x);
      if x in NamesFor(init, k) { OneName(init, k, now, x); }
      hide ObjectName, Without;
    }
  }

  /** Of several uploads in one second the bucket keeps the last. */
  lemma LastInSecond(init: seq<Upload>, last: Upload)
    requires forall i | 0 <= i < |init| :: init[i].key == last.key && init[i].now == last.now
    ensures ReadKey(init + [last], last.key) == last.body
  {
    ReadSameKey(init, last);
    var names := NamesFor(init, last.key);
    assert Without(names, NameOf(last)) == [] by {
      if Without(names, NameOf(last)) != [] {
        var x := Without(names, NameOf(last))[0];
        WithoutMembers(names, NameOf(last), x);
        OneName(init, last.key, last.now, x);
      }
    }
    hide ReadKey, NamesFor, Without;
  }

  /** One key, and nothing uploaded but in one second. */
  ghost predicate OneSecond(s: Store, k: Key, d: Data, now: int64) {
    && k in s.queue && AcceptedFor(s.accepted, k) == [d]
    && forall i | 0 <= i < |s.uploads| :: s.uploads[i].key == k && s.uploads[i].now == now
  }

  lemma FlushInSecond(s: Store, k: Key, d: Data, now: int64)
    requires OneSecond(s, k, d, now) && s.queue.Keys == {k}
    ensures var visits := [Visit(k, Outcome(true, now))];
            var s' := FlushAll(Repaired, s, visits);
            && Ranges(Repaired, s, visits) && OneSecond(s', k, d, now) && s'.queue == map[k := []]
            && s'.uploads == s.uploads + [UploadOf(Repaired, k, now, Held(s, k))]
  {
    var visits := [Visit(k, Outcome(true, now))];
    assert visits[..0] == [] && visits[0].key == k;
    assert FlushAll(Repaired, s, visits) == FlushKey(Repaired, s, k, Outcome(true, now));
  }

  lemma FirstAdd(size: int64, k: Key, d: Data, now: int64)
    requires ValidKey(k) && d != []
    ensures var s := Add(Repaired, size, EMPTY, k, d, Outcome(true, now));
            OneSecond(s, k, d, now) && s.queue.Keys == {k}
  {
    AcceptedSnoc([], (k, d), k);
    assert [] + [(k, d)] == [(k, d)] && AcceptedFor([], k) == [];
  }

  /** A run that loses an item, for every queue size, valid key, item and second: a second flush in the
      same second uploads the emptied batch over the first. */
  lemma SameSecondLoses(size: int64, k: Key, d: Data, now: int64) returns (events: seq<Event>)
    requires ValidKey(k) && d != []
    ensures var s := Run(Repaired, size, events);
            Held(s, k) == [] && AcceptedFor(s.accepted, k) == [d] && ReadKey(s.uploads, k) == []
  {
    var add, flush := AddEvent(k, d, Outcome(true, now)), FlushEvent([Visit(k, Outcome(true, now))]);
    var s1 := Run(Repaired, size, [] + [add]);
    RunSnoc(Repaired, size, [], add);
    FirstAdd(size, k, d, now);
    var s2 := Run(Repaired, size, [] + [add] + [flush]);
    RunSnoc(Repaired, size, [] + [add], flush);
    hide Run, Add, AcceptedFor;
    FlushInSecond(s1, k, d, now);
    RunSnoc(Repaired, size, [] + [add] + [flush], flush);
    FlushInSecond(s2, k, d, now);
    LastInSecond(s2.uploads, UploadOf(Repaired, k, now, []));
    events := [] + [add] + [flush] + [flush];
    hide FlushAll;
  }
}
