/** The concurrent cache behaves like the one that answers, fills and empties its table in single
    steps. */
module CacheRefinement {
  import opened Wrappers
  import opened Houston
  import IntegrationCache
  import opened CacheLocks
  import opened CacheCoherence
  import opened CacheFreshness

  /** What an answer says. */
  function Said(truths: seq<map<string, Routes>>, answer: Answer): Routes {
    if answer.version < |truths| && answer.app in truths[answer.version] then truths[answer.version][answer.app]
    else map[]
  }

  /** A table as the sequential cache has it; an answer's version stands for its time. */
  function Plain(truths: seq<map<string, Routes>>, entries: map<string, Entry>): IntegrationCache.Table {
    map app | app in entries :: IntegrationCache.Cached(Said(truths, entries[app].answer), entries[app].answer.version)
  }

  /** All tables so far, the one in use last. */
  ghost function Tables(w: World): seq<IntegrationCache.Table> {
    seq(|w.tables|, i requires 0 <= i < |w.tables| => Plain(w.truths, w.tables[i].entries))
  }

  /** What a step does to the cache. */
  datatype Effect = Filled(app: string, routes: Routes, version: nat) | Emptied | Nothing

  ghost function EffectOf(c: Config, w: World, a: Action): Effect {
    if !Enabled(c, w, a) then Nothing
    else if a.Put? then Filled(App(c.jobs[a.t]), Said(w.truths, w.pc[a.t].answer), w.pc[a.t].answer.version)
    else if Resets(w, a) then Emptied
    else Nothing
  }

  function After(ts: seq<IntegrationCache.Table>, e: Effect): seq<IntegrationCache.Table>
    requires ts != []
  {
    match e
    case Filled(app, routes, version) =>
      ts[|ts| - 1 := IntegrationCache.Update(ts[|ts| - 1], app, IntegrationCache.Says(routes), version)]
    case Emptied => ts + [map[]]
    case Nothing => ts
  }

  lemma PutEffect(c: Config, w: World, t: Tid)
    requires w.current + 1 == |w.tables| && Enabled(c, w, Put(t))
    ensures Tables(Apply(c, w, Put(t))) == After(Tables(w), EffectOf(c, w, Put(t)))
  {
    var app, p := App(c.jobs[t]), w.pc[t];
    var entries := w.tables[w.current].entries;
    var w' := Apply(c, w, Put(t));
    assert w'.tables[w.current].entries == entries[app := Entry(p.answer, p.since, t)] && w'.truths == w.truths;
    assert forall i | 0 <= i < w.current :: w'.tables[i] == w.tables[i];
    assert Plain(w.truths, entries[app := Entry(p.answer, p.since, t)])
        == Plain(w.truths, entries)[app := IntegrationCache.Cached(Said(w.truths, p.answer), p.answer.version)];
    hide Apply, Enabled, Plain, Said;
  }

  /** Houston's changes touch no answer already given. */
  lemma ChangeEffect(c: Config, w: World, app: string, routes: Routes)
    requires Coherent(c, w) && Enabled(c, w, Change(app, routes))
    ensures Tables(Apply(c, w, Change(app, routes))) == Tables(w)
  {
    var truths := Apply(c, w, Change(app, routes)).truths;
    forall i | 0 <= i < |w.tables| ensures Plain(truths, w.tables[i].entries) == Plain(w.truths, w.tables[i].entries) {
      assert TableGenuine(|w.truths|, w.tables[i]);
    }
    hide Plain, Coherent;
  }

  lemma OtherEffect(c: Config, w: World, a: Action)
    requires w.current + 1 == |w.tables| && Enabled(c, w, a) && !a.Put? && !a.Change?
    ensures Tables(Apply(c, w, a)) == After(Tables(w), EffectOf(c, w, a))
  {
    EntriesKept(c, w, a);
    ApplyCountsResets(c, w, a, w.current);
    assert Apply(c, w, a).truths == w.truths;
    assert Plain(w.truths, map[]) == map[];
    hide Plain, Apply, Enabled;
  }

  lemma StepEffect(c: Config, w: World, a: Action)
    requires Coherent(c, w) && w.current + 1 == |w.tables| && Enabled(c, w, a)
    ensures Tables(Apply(c, w, a)) == After(Tables(w), EffectOf(c, w, a))
  {
    if a.Put? {
      PutEffect(c, w, a.t);
    } else if a.Change? {
      ChangeEffect(c, w, a.app, a.routes);
    } else {
      OtherEffect(c, w, a);
    }
    hide Coherent, Tables, After, Apply;
  }

  /** The tables of the sequential cache: the effects of a schedule, one after the other. */
  ghost function Sequential(c: Config, schedule: seq<Action>): (ts: seq<IntegrationCache.Table>)
    ensures ts != []
  {
    if schedule == [] then [map[]]
    else
      var init := schedule[..|schedule| - 1];
      After(Sequential(c, init), EffectOf(c, Execute(c, init), schedule[|schedule| - 1]))
  }

  /** Under every schedule whatever, the tables are what the sequential cache makes of the puts and resets
      in the order they happened. */
  lemma {:induction false} CacheIsSequential(c: Config, schedule: seq<Action>)
    ensures Tables(Execute(c, schedule)) == Sequential(c, schedule)
  {
    if schedule == [] {
      assert Plain([map[]], map[]) == map[];
    } else {
      var init, a := schedule[..|schedule| - 1], schedule[|schedule| - 1];
      var w := Execute(c, init);
      CacheIsSequential(c, init);
      EveryAnswerGenuine(c, init);
      CurrentCountsResets(c, init);
      if Enabled(c, w, a) { StepEffect(c, w, a); }
      hide Tables, Coherent, Enabled, Apply, After;
    }
  }

  /** And a lookup is the sequential cache's, in the table the reader fetched: the one in use, or what
      that was when a reset replaced it. A hit is served its entry, and a miss goes on to ask. */
  lemma LookupIsSequential(c: Config, schedule: seq<Action>, t: Tid)
    requires Reads(c, Execute(c, schedule), t)
    ensures var w, app := Execute(c, schedule), App(c.jobs[t]);
            var i, p := w.pc[t].table, Apply(c, w, Inside(t)).pc[t];
            && i < |Sequential(c, schedule)|
            && var table := Sequential(c, schedule)[i];
               if app in table then
                 && p.Done? && p.served.Some?
                 && var answer := p.served.value.answer;
                    IntegrationCache.Cached(Said(w.truths, answer), answer.version) == table[app]
               else p.Ask?
  {
    CacheIsSequential(c, schedule);
    hide Execute, Sequential;
  }

  /** When Houston fails, nothing is put, no lock is touched, and the goroutine returns without an
      answer. */
  lemma FailedAskChangesNothing(c: Config, w: World, t: Tid)
    requires Enabled(c, w, AskHouston(t, false))
    ensures var w' := Apply(c, w, AskHouston(t, false));
            && w'.tables == w.tables && w'.locks == w.locks && w'.held == w.held && w'.global == w.global
            && w'.pc == w.pc[t := Done(None)]
    ensures forall table, app, now ::
              IntegrationCache.Update(table, app, IntegrationCache.Error, now) == table
  {
  }
}
