/** The dead letter queue client: the map it mutates and the objects it has stored. */
module DeadLetterClient {
  import opened Builds
  import opened Text
  import opened Framing
  import opened DeadLetter

  datatype AddResult = Added | Ignored | Rejected | FlushFailed

  /** One upload was made: of the batch's items each followed by a newline, or as typed of nothing, with
      the number of items and of bytes that the metrics are given. */
  ghost predicate Uploaded(before: seq<Upload>, after: seq<Upload>, b: Build, key: Key, now: int64, batch: seq<Data>) {
    && |after| == |before| + 1 && after[..|before|] == before
    && var u := after[|before|];
       && u.key == key && u.now == now
       && u.count == |batch| && u.size == TotalLength(batch) + |batch|
       && u.body == if b.AsTyped? then [] else Frame(batch)
  }

  class Client {
    const build: Build
    const queueSize: int64
    var queue: Queue
    var uploads: seq<Upload>  // what the S3 client was handed and stored
    ghost var accepted: seq<(Key, Data)>
    ghost var sizeFailures: map<Key, nat>

    ghost function State(): Store
      reads this
    {
      Store(queue, accepted, uploads, sizeFailures)
    }

    constructor (build: Build, queueSize: int64)
      ensures this.build == build && this.queueSize == queueSize
      ensures State() == EMPTY
    {
      this.build, this.queueSize := build, queueSize;
      queue, uploads := map[], [];
      accepted, sizeFailures := [], map[];
    }

    /** Adds one item; `outcome` is what the flush meets if the size triggers one. */
    method AddToQueue(key: Key, data: Data, outcome: Outcome) returns (r: AddResult)
      modifies this
      ensures State() == Add(build, queueSize, old(State()), key, data, outcome)
      ensures r == Rejected <==> key == "" || (data != [] && '/' !in key)
      ensures r == Ignored <==> key != "" && data == []
      ensures r == FlushFailed <==> key != "" && data != [] && '/' in key && !outcome.stored
                                    && |old(Held(State(), key))| + 1 >= queueSize
      ensures r == Rejected || r == Ignored ==> State() == old(State())
      ensures r == Added || r == FlushFailed ==> accepted == old(accepted) + [(key, data)]
      ensures r == Added && |old(Held(State(), key))| + 1 >= queueSize ==>
                Uploaded(old(uploads), uploads, build, key, outcome.now, old(Held(State(), key)) + [data])
      ensures r == FlushFailed || |old(Held(State(), key))| + 1 < queueSize ==> uploads == old(uploads)
    {
      if |key| == 0 { return Rejected; }
      if |data| == 0 { return Ignored; }
      if '/' !in key { return Rejected; }
      queue := queue[key := (if key in queue then queue[key] else []) + [data]];
      accepted := accepted + [(key, data)];
      assert State() == Append(old(State()), key, data);
      if |queue[key]| >= queueSize {
        var stored := FlushBatch(key, outcome);
        if !stored {
          sizeFailures := sizeFailures[key := Failures(State(), key) + 1];
          return FlushFailed;
        }
      }
      return Added;
    }

    /** flush: write the batch into a buffer, upload, clear. */
    method FlushBatch(key: Key, outcome: Outcome) returns (stored: bool)
      modifies this
      ensures State() == FlushKey(build, old(State()), key, outcome)
      ensures stored == outcome.stored
      ensures stored ==>
                Uploaded(old(uploads), uploads, build, key, outcome.now, old(Held(State(), key)))
      ensures !stored ==> State() == old(State())
    {
      var data: Data := [];
      var buffer: Data := data;
      var count, size := 0, 0;
      var batch := if key in queue then queue[key] else [];
      assert batch[..|batch|] == batch;
      while count < |batch|
        invariant 0 <= count <= |batch|
        invariant buffer == Frame(batch[..count]) && size == |buffer|
      {
        buffer := buffer + batch[count];
        size := size + |batch[count]|;
        buffer := buffer + [NEWLINE];
        size := size + 1;
        count := count + 1;
        assert batch[..count][..count - 1] == batch[..count - 1];
      }
      FrameSize(batch);
      var name := ObjectName(key, outcome.now);
      if !outcome.stored { return false; }
      uploads := uploads + [Upload(key, outcome.now, if build.AsTyped? then data else buffer, count, size)];
      queue := queue[(if build.AsTyped? then name else key) := []];
      sizeFailures := sizeFailures[key := 0];
      return true;
    }

    /** Flush: every key in the order the map is ranged over (see Ranges); the errors are
        the keys whose upload failed. */
    method Flush(visits: seq<Visit>) returns (errors: seq<Key>)
      modifies this
      ensures State() == FlushAll(build, old(State()), visits)
      ensures errors == Errors(visits)
    {
      errors := [];
      ghost var before := State();
      assert visits[..|visits|] == visits;
      for i := 0 to |visits|
        invariant State() == FlushAll(build, before, visits[..i])
        invariant errors == Errors(visits[..i])
      {
        FlushAllStep(build, before, visits, i);
        var stored := FlushBatch(visits[i].key, visits[i].outcome);
        if !stored { errors := errors + [visits[i].key]; }
      }
    }

    method Length(key: Key) returns (n: nat)
      ensures n == |Held(State(), key)|
    {
      n := if key in queue then |queue[key]| else 0;
    }
  }
}
