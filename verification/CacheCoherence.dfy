/** What the cache holds and serves under concurrency: whose answers they are, and how old. */
module CacheCoherence {
  import opened Houston
  import opened CacheLocks

  // ---- every answer is one Houston gave ----

  /** An answer Houston gave for the application, asked for no earlier than `since`; there are `n`
      versions so far. */
  ghost predicate Genuine(n: nat, app: string, answer: Answer, since: nat) {
    answer.app == app && since <= answer.version < n
  }

  ghost predicate PcGenuine(n: nat, app: string, p: Pc) {
    match p
    case Ask(since) => since < n
    case Ensure(since, answer) => Genuine(n, app, answer, since)
    case EnsureIn(since, answer) => Genuine(n, app, answer, since)
    case Take(since, answer) => Genuine(n, app, answer, since)
    case Taking(since, answer, _) => Genuine(n, app, answer, since)
    case Write(since, answer, _) => Genuine(n, app, answer, since)
    case Release(since, answer, _) => Genuine(n, app, answer, since)
    case Done(served) => served.Some? ==> Genuine(n, app, served.value.answer, served.value.since)
    case _ => true
  }

  ghost predicate PcsGenuine(c: Config, n: nat, pc: map<Tid, Pc>)
    requires pc.Keys == c.jobs.Keys
  {
    forall t | t in pc :: PcGenuine(n, App(c.jobs[t]), pc[t])
  }

  ghost predicate TableGenuine(n: nat, table: Table) {
    forall app | app in table.entries :: Genuine(n, app, table.entries[app].answer, table.entries[app].since)
  }

  ghost predicate TablesGenuine(n: nat, tables: seq<Table>) {
    forall i | 0 <= i < |tables| :: TableGenuine(n, tables[i])
  }

  ghost predicate Coherent(c: Config, w: World) {
    && w.pc.Keys == c.jobs.Keys && |w.truths| > 0
    && PcsGenuine(c, |w.truths|, w.pc) && TablesGenuine(|w.truths|, w.tables)
  }

  lemma PcOf(c: Config, w: World, a: Action)
    requires Coherent(c, w) && Enabled(c, w, a) && !a.Change?
    ensures PcGenuine(|w.truths|, App(c.jobs[a.t]), Apply(c, w, a).pc[a.t])
  {
    assert PcGenuine(|w.truths|, App(c.jobs[a.t]), w.pc[a.t]);
    if a.Inside? && w.pc[a.t].LookupIn? {
      assert TableGenuine(|w.truths|, w.tables[w.pc[a.t].table]);
    }
    hide Coherent, TableGenuine;
  }

  lemma ApplyShape(c: Config, w: World, a: Action)
    requires Enabled(c, w, a) && !a.Change?
    ensures a.t in w.pc && a.t in Apply(c, w, a).pc
    ensures Apply(c, w, a).pc == w.pc[a.t := Apply(c, w, a).pc[a.t]]
    ensures Apply(c, w, a).truths == w.truths
  {
  }

  lemma TablesOf(c: Config, w: World, a: Action)
    requires Coherent(c, w) && Enabled(c, w, a)
    ensures TablesGenuine(|w.truths|, Apply(c, w, a).tables)
  {
    if a.Put? {
      assert PcGenuine(|w.truths|, App(c.jobs[a.t]), w.pc[a.t]);
      assert TableGenuine(|w.truths|, w.tables[w.current]);
    }
  }

  lemma ChangeCoherent(c: Config, w: World, app: string, routes: Routes)
    requires Coherent(c, w) && Enabled(c, w, Change(app, routes))
    ensures Coherent(c, Apply(c, w, Change(app, routes)))
  {
    var n := |w.truths|;
    forall i | 0 <= i < |w.tables| ensures TableGenuine(n + 1, w.tables[i]) {
      assert TableGenuine(n, w.tables[i]);
    }
    forall t | t in w.pc ensures PcGenuine(n + 1, App(c.jobs[t]), w.pc[t]) {
      assert PcGenuine(n, App(c.jobs[t]), w.pc[t]);
    }
  }

  lemma ApplyCoherent(c: Config, w: World, a: Action)
    requires Coherent(c, w) && Enabled(c, w, a)
    ensures Coherent(c, Apply(c, w, a))
  {
    if a.Change? {
      ChangeCoherent(c, w, a.app, a.routes);
    } else {
      PcOf(c, w, a);
      ApplyShape(c, w, a);
      TablesOf(c, w, a);
      hide Apply, Enabled, TablesGenuine, PcGenuine;
    }
  }

  lemma InitCoherent(c: Config)
    ensures Coherent(c, Init(c))
  {
  }

  /** Under every schedule whatever, resets in windows included, every entry of every table, every
      answer under way and every answer served is one Houston gave for that same application, no
      earlier than the update that brought it began. */
  lemma {:induction false} EveryAnswerGenuine(c: Config, schedule: seq<Action>)
    ensures Coherent(c, Execute(c, schedule))
  {
    if schedule == [] {
      InitCoherent(c);
    } else {
      var w, a := Execute(c, schedule[..|schedule| - 1]), schedule[|schedule| - 1];
      EveryAnswerGenuine(c, schedule[..|schedule| - 1]);
      if Enabled(c, w, a) { ApplyCoherent(c, w, a); }
      hide Coherent, Apply, Enabled;
    }
  }

  // ---- every goroutine writes once ----

  /** An entry's writer is one that reads or updates its application, and is past its put. */
  ghost predicate Written(c: Config, w: World, app: string, writer: Tid) {
    && writer in c.jobs && !c.jobs[writer].Resetting? && c.jobs[writer].app == app
    && writer in w.pc && (w.pc[writer].Release? || w.pc[writer].Done?)
  }

  ghost predicate WrittenOnce(c: Config, w: World) {
    && (forall i, app | 0 <= i < |w.tables| && app in w.tables[i].entries ::
          Written(c, w, app, w.tables[i].entries[app].writer))
    && (forall i, j, app | 0 <= i < j < |w.tables| && app in w.tables[i].entries && app in w.tables[j].entries ::
          w.tables[i].entries[app].writer != w.tables[j].entries[app].writer)
  }

  lemma WrittenStays(c: Config, w: World, a: Action, app: string, writer: Tid)
    requires Written(c, w, app, writer) && Enabled(c, w, a)
    ensures Written(c, Apply(c, w, a), app, writer)
  {
  }

  lemma PutWrittenOnce(c: Config, w: World, t: Tid)
    requires Safe(c, w) && WrittenOnce(c, w) && Enabled(c, w, Put(t))
    ensures WrittenOnce(c, Apply(c, w, Put(t)))
  {
    var w', app := Apply(c, w, Put(t)), App(c.jobs[t]);
    assert Fits(c.jobs[t], w.pc[t]);
    assert w'.pc == w.pc[t := w'.pc[t]] && w'.pc[t].Release?;
    hide Safe, Apply, Enabled, Fits;
    forall i, x | 0 <= i < |w'.tables| && x in w'.tables[i].entries
      ensures Written(c, w', x, w'.tables[i].entries[x].writer)
    {
      if i != w.current || x != app {
        assert Written(c, w, x, w.tables[i].entries[x].writer);
      }
    }
  }

  /** Other steps leave every table's entries alone, or add a table without any. */
  lemma EntriesKept(c: Config, w: World, a: Action)
    requires w.current < |w.tables| && Enabled(c, w, a) && !a.Put?
    ensures var w' := Apply(c, w, a);
            && |w.tables| <= |w'.tables|
            && (forall i | 0 <= i < |w.tables| :: w'.tables[i].entries == w.tables[i].entries)
            && (forall i | |w.tables| <= i < |w'.tables| :: w'.tables[i].entries == map[])
  {
  }

  lemma ApplyWrittenOnce(c: Config, w: World, a: Action)
    requires Safe(c, w) && WrittenOnce(c, w) && Enabled(c, w, a)
    ensures WrittenOnce(c, Apply(c, w, a))
  {
    if a.Put? {
      PutWrittenOnce(c, w, a.t);
    } else {
      var w' := Apply(c, w, a);
      EntriesKept(c, w, a);
      forall i, app | 0 <= i < |w'.tables| && app in w'.tables[i].entries
        ensures Written(c, w', app, w'.tables[i].entries[app].writer)
      {
        WrittenStays(c, w, a, app, w.tables[i].entries[app].writer);
      }
      hide Safe, Apply, Enabled, Written;
    }
  }

  lemma {:induction false} EveryoneWritesOnce(c: Config, schedule: seq<Action>)
    requires CleanFrom(c, Init(c), schedule)
    ensures Safe(c, Execute(c, schedule)) && WrittenOnce(c, Execute(c, schedule))
  {
    if schedule == [] {
    } else {
      var w, a := Execute(c, schedule[..|schedule| - 1]), schedule[|schedule| - 1];
      EveryoneWritesOnce(c, schedule[..|schedule| - 1]);
      if Enabled(c, w, a) {
        ApplySafe(c, w, a);
        ApplyWrittenOnce(c, w, a);
      }
      hide Safe, WrittenOnce, Apply, Enabled, Clean;
    }
  }
}
