/** Houston's answers as maps in memory: filled entry by entry, published by pointer, and read by loops
    that only hold the pointer. */
module PublishedMaps {
  import opened Houston

  type Tid = nat
  type Ref = nat

  /** One goroutine asks Houston, which answers with these entries, and publishes the map it makes of
      them; the other routes messages of an application. */
  datatype Job = Fetching(app: string, answer: seq<Integration>) | Routing(app: string)

  /** `seen` lists what a loop has found behind its pointer, visit by visit. */
  datatype Pc = Begin | Filling(ref: Ref, done: nat) | Holding(ref: Ref, seen: seq<Routes>) | Finished

  /** `owner` only observes who made each map. */
  datatype World = World(heap: seq<Routes>, owner: seq<Tid>, cache: map<string, Ref>, pc: map<Tid, Pc>)

  datatype Config = Config(jobs: map<Tid, Job>)

  datatype Action =
    | Make(t: Tid)    // an empty map
    | Fill(t: Tid)    // one entry
    | Publish(t: Tid) // the pointer, once all entries are in
    | Fetch(t: Tid)   // the pointer, for a loop
    | Visit(t: Tid)   // one step of the loop
    | ResetCache

  ghost function Init(c: Config): World {
    World([], [], map[], map t | t in c.jobs :: Begin)
  }

  ghost predicate Enabled(c: Config, w: World, a: Action) {
    a.ResetCache? ||
    (a.t in c.jobs && a.t in w.pc &&
     var job, p := c.jobs[a.t], w.pc[a.t];
     match a
     case Make(_) => job.Fetching? && p.Begin?
     case Fill(_) => job.Fetching? && p.Filling? && p.done < |job.answer| && p.ref < |w.heap|
     case Publish(_) => job.Fetching? && p.Filling? && p.done == |job.answer|
     case Fetch(_) => job.Routing? && p.Begin? && job.app in w.cache
     case Visit(_) => p.Holding? && p.ref < |w.heap|
     case ResetCache => true)
  }

  ghost function Apply(c: Config, w: World, a: Action): World
    requires Enabled(c, w, a)
  {
    match a
    case Make(t) =>
      World(w.heap + [map[]], w.owner + [t], w.cache, w.pc[t := Filling(|w.heap|, 0)])
    case Fill(t) =>
      var p := w.pc[t];
      w.(heap := w.heap[p.ref := Take(w.heap[p.ref], c.jobs[t].answer[p.done])],
         pc := w.pc[t := Filling(p.ref, p.done + 1)])
    case Publish(t) =>
      w.(cache := w.cache[c.jobs[t].app := w.pc[t].ref], pc := w.pc[t := Finished])
    case Fetch(t) => w.(pc := w.pc[t := Holding(w.cache[c.jobs[t].app], [])])
    case Visit(t) =>
      var p := w.pc[t];
      w.(pc := w.pc[t := Holding(p.ref, p.seen + [w.heap[p.ref]])])
    case ResetCache => w.(cache := map[])
  }

  ghost function Execute(c: Config, schedule: seq<Action>): World {
    if schedule == [] then Init(c)
    else
      var w, a := Execute(c, schedule[..|schedule| - 1]), schedule[|schedule| - 1];
      if Enabled(c, w, a) then Apply(c, w, a) else w
  }

  /** A map whose maker has published it, and what it was made of. */
  ghost predicate Published(c: Config, w: World, ref: Ref) {
    && ref < |w.owner| && w.owner[ref] in w.pc && w.pc[w.owner[ref]].Finished?
    && w.owner[ref] in c.jobs && c.jobs[w.owner[ref]].Fetching?
  }

  /** A map is being filled by its maker, or published and whole. */
  ghost predicate MapRight(c: Config, w: World, ref: Ref)
    requires ref < |w.heap| && |w.owner| == |w.heap|
  {
    var t := w.owner[ref];
    && t in c.jobs && c.jobs[t].Fetching? && t in w.pc
    && match w.pc[t]
       case Filling(r, done) =>
         r == ref && done <= |c.jobs[t].answer| && w.heap[ref] == TakeAll(c.jobs[t].answer[..done])
       case Finished => w.heap[ref] == TakeAll(c.jobs[t].answer)
       case _ => false
  }

  ghost predicate PcRight(c: Config, w: World, t: Tid, p: Pc)
    requires t in c.jobs && |w.owner| == |w.heap|
  {
    match p
    case Filling(ref, _) => c.jobs[t].Fetching? && ref < |w.heap| && w.owner[ref] == t
    case Holding(ref, seen) =>
      && c.jobs[t].Routing? && Published(c, w, ref) && c.jobs[w.owner[ref]].app == c.jobs[t].app
      && forall i | 0 <= i < |seen| :: seen[i] == w.heap[ref]
    case _ => true
  }

  ghost predicate Inv(c: Config, w: World) {
    && w.pc.Keys == c.jobs.Keys && |w.owner| == |w.heap|
    && (forall r, q | 0 <= r < q < |w.owner| :: w.owner[r] != w.owner[q])
    && (forall r | 0 <= r < |w.heap| :: MapRight(c, w, r))
    && (forall t | t in w.pc :: PcRight(c, w, t, w.pc[t]))
    && (forall app | app in w.cache :: Published(c, w, w.cache[app]) && c.jobs[w.owner[w.cache[app]]].app == app)
  }

  /** A step of the machine leaves published maps alone: only the map its own goroutine is filling is
      written. */
  lemma PublishedStays(c: Config, w: World, a: Action, ref: Ref)
    requires Inv(c, w) && Enabled(c, w, a) && Published(c, w, ref)
    ensures var w' := Apply(c, w, a);
            Published(c, w', ref) && ref < |w'.heap| && w'.heap[ref] == w.heap[ref] && w'.owner[ref] == w.owner[ref]
  {
    if a.Fill? { assert PcRight(c, w, a.t, w.pc[a.t]); }
  }

  lemma MapStep(c: Config, w: World, a: Action, ref: Ref)
    requires Inv(c, w) && Enabled(c, w, a) && ref < |Apply(c, w, a).heap|
    ensures |Apply(c, w, a).owner| == |Apply(c, w, a).heap| && MapRight(c, Apply(c, w, a), ref)
  {
    var w' := Apply(c, w, a);
    if ref < |w.heap| {
      assert MapRight(c, w, ref);
      if !a.ResetCache? && a.t == w.owner[ref] {
        assert PcRight(c, w, a.t, w.pc[a.t]);
        if a.Fill? {
          TakeAllSnoc(c.jobs[a.t].answer[..w.pc[a.t].done], c.jobs[a.t].answer[w.pc[a.t].done]);
          assert c.jobs[a.t].answer[..w.pc[a.t].done + 1]
              == c.jobs[a.t].answer[..w.pc[a.t].done] + [c.jobs[a.t].answer[w.pc[a.t].done]];
        } else if a.Publish? {
          assert c.jobs[a.t].answer[..|c.jobs[a.t].answer|] == c.jobs[a.t].answer;
        }
      }
    }
    hide TakeAll, Take;
  }

  lemma PcStep(c: Config, w: World, a: Action, t: Tid)
    requires Inv(c, w) && Enabled(c, w, a) && t in w.pc
    ensures |Apply(c, w, a).owner| == |Apply(c, w, a).heap|
    ensures t in Apply(c, w, a).pc && PcRight(c, Apply(c, w, a), t, Apply(c, w, a).pc[t])
  {
    assert PcRight(c, w, t, w.pc[t]);
    if w.pc[t].Holding? { PublishedStays(c, w, a, w.pc[t].ref); }
    if a.Fetch? && a.t == t { PublishedStays(c, w, a, w.cache[c.jobs[t].app]); }
    hide TakeAll, Take, MapRight;
  }

  lemma ApplyInv(c: Config, w: World, a: Action)
    requires Inv(c, w) && Enabled(c, w, a)
    ensures Inv(c, Apply(c, w, a))
  {
    var w' := Apply(c, w, a);
    forall r | 0 <= r < |w'.heap| ensures MapRight(c, w', r) { MapStep(c, w, a, r); }
    forall t | t in w'.pc ensures PcRight(c, w', t, w'.pc[t]) { PcStep(c, w, a, t); }
    forall app | app in w'.cache
      ensures Published(c, w', w'.cache[app]) && c.jobs[w'.owner[w'.cache[app]]].app == app
    {
      if app in w.cache && w'.cache[app] == w.cache[app] {
        PublishedStays(c, w, a, w.cache[app]);
      } else {
        assert PcRight(c, w, a.t, w.pc[a.t]);
      }
    }
    OwnersDistinct(c, w, a);
    hide MapRight, PcRight, TakeAll, Take, Published;
  }

  lemma OwnersDistinct(c: Config, w: World, a: Action)
    requires Inv(c, w) && Enabled(c, w, a)
    ensures var w' := Apply(c, w, a);
            && w'.pc.Keys == c.jobs.Keys && |w'.owner| == |w'.heap|
            && forall r, q | 0 <= r < q < |w'.owner| :: w'.owner[r] != w'.owner[q]
  {
    if a.Make? {
      forall r | 0 <= r < |w.owner| ensures w.owner[r] != a.t {
        assert MapRight(c, w, r);
      }
    }
    hide TakeAll, Take, PcRight;
  }

  lemma {:induction false} ExecuteInv(c: Config, schedule: seq<Action>)
    ensures Inv(c, Execute(c, schedule))
  {
    if schedule == [] {
    } else {
      var w, a := Execute(c, schedule[..|schedule| - 1]), schedule[|schedule| - 1];
      ExecuteInv(c, schedule[..|schedule| - 1]);
      if Enabled(c, w, a) { ApplyInv(c, w, a); }
      hide Inv, Enabled, Apply;
    }
  }

  /** Under every schedule, a map is the same ever after it was published. */
  lemma {:induction false} NeverMutated(c: Config, before: seq<Action>, later: seq<Action>, ref: Ref)
    requires Published(c, Execute(c, before), ref)
    ensures var w, w' := Execute(c, before), Execute(c, before + later);
            ref < |w.heap| && ref < |w'.heap| && Published(c, w', ref)
            && w'.heap[ref] == w.heap[ref] && w'.owner[ref] == w.owner[ref]
  {
    if later == [] {
      assert before + later == before;
      ExecuteInv(c, before);
    } else {
      var init, a := later[..|later| - 1], later[|later| - 1];
      NeverMutated(c, before, init, ref);
      assert (before + later)[..|before + later| - 1] == before + init;
      ExecuteInv(c, before + init);
      var w := Execute(c, before + init);
      if Enabled(c, w, a) { PublishedStays(c, w, a, ref); }
    }
    hide Enabled, Apply, Published;
  }

  /** Under every schedule, everything a loop finds behind its pointer is one map, and that is the
      flattened answer of one call to Houston for the loop's application. */
  lemma LoopSeesOneAnswer(c: Config, schedule: seq<Action>, t: Tid) returns (u: Tid)
    requires t in c.jobs && t in Execute(c, schedule).pc && Execute(c, schedule).pc[t].Holding?
    ensures u in c.jobs && c.jobs[u].Fetching? && c.jobs[u].app == c.jobs[t].app
    ensures var seen := Execute(c, schedule).pc[t].seen;
            forall i | 0 <= i < |seen| :: seen[i] == TakeAll(c.jobs[u].answer)
  {
    ExecuteInv(c, schedule);
    var w := Execute(c, schedule);
    assert PcRight(c, w, t, w.pc[t]);
    assert MapRight(c, w, w.pc[t].ref);
    u := w.owner[w.pc[t].ref];
    hide Execute, TakeAll;
  }
}
