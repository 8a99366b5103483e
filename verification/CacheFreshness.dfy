/** How old what the cache serves can be, and exactly when a read is served what updates have
    brought. */
module CacheFreshness {
  import opened Wrappers
  import opened Houston
  import opened CacheLocks
  import opened CacheCoherence

  /** In an update, from its start to its unlock. */
  predicate Section(p: Pc) {
    p.Ask? || p.Ensure? || p.EnsureIn? || Window(p)
  }

  /** No two goroutines are updating the same application. */
  ghost predicate Apart(c: Config, w: World) {
    forall t, u | t in w.pc && u in w.pc && t in c.jobs && u in c.jobs && t != u
                  && Section(w.pc[t]) && Section(w.pc[u]) ::
      App(c.jobs[t]) != App(c.jobs[u])
  }

  ghost predicate ApartThroughout(c: Config, schedule: seq<Action>) {
    && Apart(c, Execute(c, schedule))
    && (schedule == [] || ApartThroughout(c, schedule[..|schedule| - 1]))
  }

  /** A table's entry for the application is at least as new as every update of it completed while the
      table was in use. */
  ghost predicate EntryFresh(table: Table, app: string) {
    app in table.latest ==> app in table.entries && table.latest[app] <= table.entries[app].answer.version
  }

  ghost predicate TableFresh(n: nat, table: Table) {
    && (forall app | app in table.latest :: table.latest[app] < n)
    && (forall app :: EntryFresh(table, app))
  }

  ghost predicate SectionFresh(table: Table, t: Tid, app: string, p: Pc) {
    && (Section(p) && app in table.latest ==> table.latest[app] <= p.since)
    && (p.Release? ==> app in table.entries && table.entries[app] == Entry(p.answer, p.since, t))
  }

  ghost predicate SectionsFresh(c: Config, w: World)
    requires w.pc.Keys == c.jobs.Keys && w.current < |w.tables|
  {
    forall t | t in w.pc :: SectionFresh(w.tables[w.current], t, App(c.jobs[t]), w.pc[t])
  }

  ghost predicate Fresh(c: Config, w: World)
    requires w.pc.Keys == c.jobs.Keys && w.current < |w.tables|
  {
    && w.current + 1 == |w.tables|
    && (forall i | 0 <= i < |w.tables| :: TableFresh(|w.truths|, w.tables[i]))
    && SectionsFresh(c, w)
  }

  ghost predicate OnlyMoves(w: World, w': World, t: Tid)
    requires t in w.pc
  {
    && t in w'.pc && w'.pc == w.pc[t := w'.pc[t]] && w'.truths == w.truths
    && w'.current == w.current && w'.tables == w.tables
  }

  predicate Resets(w: World, a: Action) {
    a.Inside? && a.t in w.pc && w.pc[a.t].ResetIn?
  }

  lemma MoveShape(c: Config, w: World, a: Action)
    requires w.current < |w.tables| && Enabled(c, w, a)
    requires !a.Put? && !a.Unlock? && !a.Change? && !Resets(w, a)
    ensures OnlyMoves(w, Apply(c, w, a), a.t)
    ensures var p, p' := w.pc[a.t], Apply(c, w, a).pc[a.t];
            && (Section(p') ==> if Section(p) then p'.since == p.since else p'.since == Version(w))
            && (p'.Release? ==> p' == p)
  {
  }

  /** Steps that only move a goroutine. */
  lemma QuietFresh(c: Config, w: World, a: Action)
    requires Coherent(c, w) && w.current < |w.tables| && Fresh(c, w) && Enabled(c, w, a)
    requires !a.Put? && !a.Unlock? && !a.Change? && !Resets(w, a)
    ensures Coherent(c, Apply(c, w, a)) && Apply(c, w, a).current < |Apply(c, w, a).tables|
    ensures Fresh(c, Apply(c, w, a))
  {
    ApplyCoherent(c, w, a);
    MoveShape(c, w, a);
    var w' := Apply(c, w, a);
    var table := w.tables[w.current];
    assert TableFresh(|w.truths|, table);
    assert SectionFresh(table, a.t, App(c.jobs[a.t]), w.pc[a.t]);
    assert SectionFresh(table, a.t, App(c.jobs[a.t]), w'.pc[a.t]);
    hide Apply, Enabled, Coherent, SectionFresh, TableFresh;
  }

  ghost predicate Puts(c: Config, w: World, w': World, t: Tid)
    requires w.pc.Keys == c.jobs.Keys && w.current < |w.tables|
  {
    && t in w.pc && w.pc[t].Write? && w.pc[t].since <= w.pc[t].answer.version
    && w'.pc == w.pc[t := Release(w.pc[t].since, w.pc[t].answer, w.pc[t].lock)]
    && w'.current == w.current && w'.truths == w.truths
    && var table, p := w.tables[w.current], w.pc[t];
       w'.tables == w.tables[w.current :=
         table.(entries := table.entries[App(c.jobs[t]) := Entry(p.answer, p.since, t)])]
  }

  lemma PutShape(c: Config, w: World, t: Tid)
    requires Coherent(c, w) && w.current < |w.tables| && Enabled(c, w, Put(t))
    ensures Puts(c, w, Apply(c, w, Put(t)), t)
  {
    assert PcGenuine(|w.truths|, App(c.jobs[t]), w.pc[t]);
    hide Coherent;
  }

  /** What a put writes was asked for after every completed update of the application began. */
  lemma PutFresh(c: Config, w: World, w': World, t: Tid)
    requires w.pc.Keys == c.jobs.Keys && w.current < |w.tables| && Fresh(c, w) && Apart(c, w)
    requires Puts(c, w, w', t)
    ensures w'.pc.Keys == c.jobs.Keys && w'.current < |w'.tables| && Fresh(c, w')
  {
    var table, table' := w.tables[w.current], w'.tables[w.current];
    assert SectionFresh(table, t, App(c.jobs[t]), w.pc[t]);
    assert TableFresh(|w.truths|, table);
    forall x ensures EntryFresh(table', x) {
      assert EntryFresh(table, x);
    }
    forall u | u in w'.pc ensures SectionFresh(table', u, App(c.jobs[u]), w'.pc[u]) {
      assert SectionFresh(table, u, App(c.jobs[u]), w.pc[u]);
    }
    forall i | 0 <= i < |w.tables| && i != w.current ensures TableFresh(|w.truths|, w'.tables[i]) {
      assert TableFresh(|w.truths|, w.tables[i]);
    }
    hide SectionFresh, EntryFresh;
  }

  ghost predicate Unlocks(c: Config, w: World, w': World, t: Tid)
    requires w.pc.Keys == c.jobs.Keys && w.current < |w.tables|
  {
    && t in w.pc && w.pc[t].Release? && w.pc[t].since <= w.pc[t].answer.version < |w.truths|
    && t in w'.pc && w'.pc == w.pc[t := w'.pc[t]] && w'.pc[t].Done?
    && w'.current == w.current && w'.truths == w.truths
    && var table := w.tables[w.current];
       w'.tables == w.tables[w.current := table.(latest := table.latest[App(c.jobs[t]) := w.pc[t].since])]
  }

  lemma UnlockShape(c: Config, w: World, t: Tid)
    requires Safe(c, w) && Coherent(c, w) && Fresh(c, w) && Enabled(c, w, Unlock(t))
    ensures Unlocks(c, w, Apply(c, w, Unlock(t)), t)
  {
    UnlockSafe(c, w, t);
    assert PcGenuine(|w.truths|, App(c.jobs[t]), w.pc[t]);
    assert SectionFresh(w.tables[w.current], t, App(c.jobs[t]), w.pc[t]);
    hide Safe, Coherent, Fresh;
  }

  lemma UnlockFresh(c: Config, w: World, w': World, t: Tid)
    requires w.pc.Keys == c.jobs.Keys && w.current < |w.tables| && Fresh(c, w) && Apart(c, w)
    requires Unlocks(c, w, w', t)
    ensures w'.pc.Keys == c.jobs.Keys && w'.current < |w'.tables| && Fresh(c, w')
  {
    var table, table', app := w.tables[w.current], w'.tables[w.current], App(c.jobs[t]);
    assert SectionFresh(table, t, app, w.pc[t]);
    assert TableFresh(|w.truths|, table);
    forall x ensures EntryFresh(table', x) {
      assert x != app ==> EntryFresh(table, x);
    }
    forall u | u in w'.pc ensures SectionFresh(table', u, App(c.jobs[u]), w'.pc[u]) {
      assert SectionFresh(table, u, App(c.jobs[u]), w.pc[u]);
    }
    forall i | 0 <= i < |w.tables| && i != w.current ensures TableFresh(|w.truths|, w'.tables[i]) {
      assert TableFresh(|w.truths|, w.tables[i]);
    }
    hide SectionFresh, EntryFresh;
  }

  lemma ResetFresh(c: Config, w: World, t: Tid)
    requires Coherent(c, w) && w.current < |w.tables| && Fresh(c, w)
    requires Enabled(c, w, Inside(t)) && w.pc[t].ResetIn? && Clean(c, w, Inside(t))
    ensures Apply(c, w, Inside(t)).current < |Apply(c, w, Inside(t)).tables|
    ensures Apply(c, w, Inside(t)).pc.Keys == c.jobs.Keys
    ensures Fresh(c, Apply(c, w, Inside(t)))
  {
    var w' := Apply(c, w, Inside(t));
    assert w'.tables == w.tables + [NEW_TABLE] && w'.truths == w.truths && w'.current == |w.tables|;
    assert w'.pc == w.pc[t := Done(None)];
    forall i | 0 <= i < |w'.tables| ensures TableFresh(|w.truths|, w'.tables[i]) {
      if i < |w.tables| { assert TableFresh(|w.truths|, w.tables[i]); }
    }
    hide Apply, Enabled, Coherent, TableFresh;
  }

  lemma ChangeFresh(c: Config, w: World, app: string, routes: Routes)
    requires Coherent(c, w) && w.current < |w.tables| && Fresh(c, w) && Enabled(c, w, Change(app, routes))
    ensures Fresh(c, Apply(c, w, Change(app, routes)))
  {
    forall i | 0 <= i < |w.tables| ensures TableFresh(|w.truths| + 1, w.tables[i]) {
      assert TableFresh(|w.truths|, w.tables[i]);
    }
    hide Coherent, TableFresh, SectionsFresh;
  }

  ghost predicate Good(c: Config, w: World) {
    Safe(c, w) && Coherent(c, w) && Fresh(c, w) && WrittenOnce(c, w)
  }

  lemma ApplyGood(c: Config, w: World, a: Action)
    requires Good(c, w) && Apart(c, w) && Enabled(c, w, a) && Clean(c, w, a)
    ensures Good(c, Apply(c, w, a))
  {
    ApplySafe(c, w, a);
    ApplyCoherent(c, w, a);
    ApplyWrittenOnce(c, w, a);
    if a.Put? {
      PutShape(c, w, a.t);
      PutFresh(c, w, Apply(c, w, a), a.t);
    } else if a.Unlock? {
      UnlockShape(c, w, a.t);
      UnlockFresh(c, w, Apply(c, w, a), a.t);
    } else if Resets(w, a) {
      ResetFresh(c, w, a.t);
    } else if a.Change? {
      ChangeFresh(c, w, a.app, a.routes);
    } else {
      QuietFresh(c, w, a);
    }
    hide Coherent, Enabled, Clean, Fresh, WrittenOnce, Puts, Unlocks, Apply;
  }

  lemma InitGood(c: Config)
    ensures Good(c, Init(c))
  {
    InitCoherent(c);
  }

  lemma {:induction false} AllGood(c: Config, schedule: seq<Action>)
    requires CleanFrom(c, Init(c), schedule) && ApartThroughout(c, schedule)
    ensures Good(c, Execute(c, schedule))
  {
    if schedule == [] {
      InitGood(c);
    } else {
      var w, a := Execute(c, schedule[..|schedule| - 1]), schedule[|schedule| - 1];
      AllGood(c, schedule[..|schedule| - 1]);
      if Enabled(c, w, a) { ApplyGood(c, w, a); }
      hide Good, Apply, Enabled, Apart, Clean;
    }
  }

  // ---- reads ----

  /** What Houston's configuration said about an application at a version. */
  function RoutesAt(w: World, app: string, version: nat): Routes
    requires version < |w.truths|
  {
    if app in w.truths[version] then w.truths[version][app] else map[]
  }

  /** Houston has said one thing about the application ever since. */
  ghost predicate Unchanged(w: World, app: string, version: nat)
    requires version < |w.truths|
  {
    forall v | version <= v < |w.truths| :: RoutesAt(w, app, v) == RoutesAt(w, app, |w.truths| - 1)
  }

  /** A reader is about to look its application up in a table. */
  ghost predicate Reads(c: Config, w: World, t: Tid) {
    Enabled(c, w, Inside(t)) && w.pc[t].LookupIn?
  }

  ghost function TableRead(c: Config, w: World, t: Tid): Table
    requires Reads(c, w, t)
  {
    w.tables[w.pc[t].table]
  }

  /** While no two updates of one application overlap and no reset falls into a window, whatever table
      a reader looks into: if an update of its application was completed while that table was in use,
      the read is a hit, on an answer no older than the beginning of the last such update. So a read of
      a table that a reset has replaced may be older than later updates, but not than those before the
      reset. What Houston has not changed since is what Houston would say now. */
  lemma ReadsAfterUpdates(c: Config, schedule: seq<Action>, t: Tid)
    requires CleanFrom(c, Init(c), schedule) && ApartThroughout(c, schedule)
    requires Reads(c, Execute(c, schedule), t)
    requires App(c.jobs[t]) in TableRead(c, Execute(c, schedule), t).latest
    ensures var w, app := Execute(c, schedule), App(c.jobs[t]);
            var p, since := Apply(c, w, Inside(t)).pc[t], TableRead(c, w, t).latest[app];
            && p.Done? && p.served.Some? && p.served.value.answer.app == app
            && since <= p.served.value.answer.version < |w.truths|
            && (Unchanged(w, app, since)
                ==> RoutesAt(w, app, p.served.value.answer.version) == RoutesAt(w, app, |w.truths| - 1))
  {
    AllGood(c, schedule);
    var w, app := Execute(c, schedule), App(c.jobs[t]);
    var table := TableRead(c, w, t);
    assert TableFresh(|w.truths|, table) && EntryFresh(table, app);
    assert TableGenuine(|w.truths|, table);
    hide Execute, CleanFrom, ApartThroughout, Safe, WrittenOnce;
  }

  /** While updates of an application do not overlap and no reset falls into a window, a reader that has
      missed and whose update completes is served, repaired, the entry it has put, of its own application;
      as typed it is served nothing. */
  lemma CompletedReadIsServed(c: Config, schedule: seq<Action>, t: Tid)
    requires CleanFrom(c, Init(c), schedule) && ApartThroughout(c, schedule)
    requires Enabled(c, Execute(c, schedule), Unlock(t)) && c.jobs[t].Reading?
    ensures var w, app := Execute(c, schedule), c.jobs[t].app;
            var p := Apply(c, w, Unlock(t)).pc[t];
            if c.build.AsTyped? then p == Done(None)
            else
              && app in w.tables[w.current].entries && w.tables[w.current].entries[app].writer == t
              && p == Done(Some(w.tables[w.current].entries[app]))
  {
    AllGood(c, schedule);
    var w := Execute(c, schedule);
    UnlockSafe(c, w, t);
    assert SectionFresh(w.tables[w.current], t, c.jobs[t].app, w.pc[t]);
    hide Execute, CleanFrom, ApartThroughout, Safe, Coherent, WrittenOnce;
  }

  // ---- the table a reader looks into ----

  /** How many resets a schedule has performed. */
  ghost function ResetsIn(c: Config, schedule: seq<Action>): nat {
    if schedule == [] then 0
    else
      var w, a := Execute(c, schedule[..|schedule| - 1]), schedule[|schedule| - 1];
      ResetsIn(c, schedule[..|schedule| - 1]) + if Enabled(c, w, a) && Resets(w, a) then 1 else 0
  }

  ghost predicate CountsResets(w: World, resets: nat) {
    w.current == resets && |w.tables| == resets + 1
  }

  lemma ApplyCountsResets(c: Config, w: World, a: Action, resets: nat)
    requires CountsResets(w, resets) && Enabled(c, w, a)
    ensures CountsResets(Apply(c, w, a), resets + if Resets(w, a) then 1 else 0)
  {
  }

  /** The table in use is numbered by the resets. */
  lemma {:induction false} CurrentCountsResets(c: Config, schedule: seq<Action>)
    ensures CountsResets(Execute(c, schedule), ResetsIn(c, schedule))
  {
    if schedule == [] {
    } else {
      var w, a := Execute(c, schedule[..|schedule| - 1]), schedule[|schedule| - 1];
      CurrentCountsResets(c, schedule[..|schedule| - 1]);
      if Enabled(c, w, a) { ApplyCountsResets(c, w, a, ResetsIn(c, schedule[..|schedule| - 1])); }
      hide Apply, Enabled, CountsResets, Resets;
    }
  }

  /** A reader keeps the table it fetched at its start until it has looked its application up. */
  predicate Holds(p: Pc, table: nat) {
    match p
    case Begin => false
    case Lookup(i) => i == table
    case LookupIn(i) => i == table
    case _ => true
  }

  lemma HoldsOn(c: Config, w: World, a: Action, t: Tid, table: nat)
    requires t in w.pc && Holds(w.pc[t], table) && Enabled(c, w, a)
    ensures t in Apply(c, w, a).pc && Holds(Apply(c, w, a).pc[t], table)
  {
  }

  /** The reader's Start step in the schedule. */
  ghost predicate StartedAt(c: Config, schedule: seq<Action>, t: Tid, n: nat) {
    n < |schedule| && schedule[n] == Start(t) && Enabled(c, Execute(c, schedule[..n]), Start(t))
  }

  lemma {:induction false} ReaderHolds(c: Config, schedule: seq<Action>, t: Tid, n: nat)
    requires StartedAt(c, schedule, t, n)
    ensures t in Execute(c, schedule).pc
            && Holds(Execute(c, schedule).pc[t], ResetsIn(c, schedule[..n]))
  {
    var init, a := schedule[..|schedule| - 1], schedule[|schedule| - 1];
    if n == |init| {
      CurrentCountsResets(c, init);
    } else {
      assert init[..n] == schedule[..n] && init[n] == schedule[n];
      ReaderHolds(c, init, t, n);
      if Enabled(c, Execute(c, init), a) { HoldsOn(c, Execute(c, init), a, t, ResetsIn(c, schedule[..n])); }
      hide Apply, Enabled, Holds;
    }
  }

  /** Whether or not updates overlap, a read is served the entry of the table in use, the one the last
      put of the application made, exactly when no reset fell between the reader's Start, when it
      fetched the table, and its lookup. */
  lemma ReadServesCurrent(c: Config, schedule: seq<Action>, t: Tid, n: nat)
    requires CleanFrom(c, Init(c), schedule)
    requires StartedAt(c, schedule, t, n) && Reads(c, Execute(c, schedule), t)
    requires App(c.jobs[t]) in Execute(c, schedule).tables[Execute(c, schedule).current].entries
    ensures var w, app := Execute(c, schedule), App(c.jobs[t]);
            Apply(c, w, Inside(t)).pc[t] == Done(Some(w.tables[w.current].entries[app]))
            <==> ResetsIn(c, schedule) == ResetsIn(c, schedule[..n])
  {
    EveryoneWritesOnce(c, schedule);
    ReaderHolds(c, schedule, t, n);
    CurrentCountsResets(c, schedule);
    var w, app := Execute(c, schedule), App(c.jobs[t]);
    var i := w.pc[t].table;
    assert i == ResetsIn(c, schedule[..n]) && w.current == ResetsIn(c, schedule);
    assert app in w.tables[i].entries && i < w.current ==>
        w.tables[i].entries[app].writer != w.tables[w.current].entries[app].writer;
    hide Execute, CleanFrom, ResetsIn;
  }
}
