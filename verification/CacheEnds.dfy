/** The cache's goroutines always come to an end. */
module CacheEnds {
  import opened CacheLocks
  import opened Measures

  /** How many steps of goroutines, which Houston's changes are not, happen in a schedule. */
  ghost function Taken(c: Config, schedule: seq<Action>): nat {
    if schedule == [] then 0
    else
      var init, a := schedule[..|schedule| - 1], schedule[|schedule| - 1];
      Taken(c, init) + if !a.Change? && Enabled(c, Execute(c, init), a) then 1 else 0
  }

  /** How many steps a goroutine can still take. */
  function Left(p: Pc): nat {
    match p
    case Begin => 10
    case Lookup(_) => 9
    case LookupIn(_) => 8
    case Ask(_) => 7
    case Ensure(_, _) => 6
    case EnsureIn(_, _) => 5
    case Take(_, _) => 4
    case Taking(_, _, _) => 3
    case Write(_, _, _) => 2
    case Release(_, _, _) => 1
    case Reset => 2
    case ResetIn => 1
    case Done(_) => 0
  }

  function Lefts(w: World): map<nat, nat> {
    map t | t in w.pc :: Left(w.pc[t])
  }

  /** A crash is the last step of all. */
  function Remaining(w: World, n: nat): nat {
    Total(Lefts(w), n) + if w.crashed then 0 else 1
  }

  lemma StepMoves(c: Config, w: World, a: Action)
    requires Enabled(c, w, a) && !a.Change?
    ensures var w' := Apply(c, w, a);
            || (w'.crashed && w'.pc == w.pc)
            || (!w'.crashed && a.t in w.pc && a.t in w'.pc && w'.pc == w.pc[a.t := w'.pc[a.t]]
                && Left(w'.pc[a.t]) < Left(w.pc[a.t]))
  {
  }

  /** Every step uses up one of its goroutine's. */
  lemma StepUses(c: Config, w: World, a: Action, n: nat)
    requires Enabled(c, w, a) && !a.Change? && forall t | t in c.jobs :: t < n
    ensures Remaining(Apply(c, w, a), n) < Remaining(w, n)
  {
    StepMoves(c, w, a);
    var w' := Apply(c, w, a);
    assert !w.crashed && a.t in c.jobs;
    hide Enabled, Apply, Left, Total;
    if w'.crashed {
      assert Lefts(w') == Lefts(w);
    } else {
      TotalUpdate(Lefts(w), a.t, Left(w'.pc[a.t]), n);
      assert Lefts(w') == Lefts(w)[a.t := Left(w'.pc[a.t])];
    }
  }

  lemma {:induction false} TakenBounded(c: Config, schedule: seq<Action>, n: nat)
    requires forall t | t in c.jobs :: t < n
    ensures Taken(c, schedule) + Remaining(Execute(c, schedule), n) <= Remaining(Init(c), n)
  {
    if schedule == [] {
    } else {
      var init, a := schedule[..|schedule| - 1], schedule[|schedule| - 1];
      TakenBounded(c, init, n);
      var w := Execute(c, init);
      if Enabled(c, w, a) {
        if a.Change? {
          assert Lefts(Apply(c, w, a)) == Lefts(w);
        } else {
          StepUses(c, w, a, n);
        }
      }
      hide Enabled, Lefts, Total;
    }
  }

  ghost predicate RunsWithin(c: Config, n: nat) {
    forall schedule :: Taken(c, schedule) <= n
  }

  /** Whatever the configuration, and with resets in windows too, the steps of its runs are bounded in
      number, however often Houston changes. */
  lemma RunsEnd(c: Config) returns (n: nat)
    ensures RunsWithin(c, n)
  {
    var m := KeysBounded(c.jobs.Keys);
    n := Remaining(Init(c), m);
    forall schedule ensures Taken(c, schedule) <= n {
      TakenBounded(c, schedule, m);
    }
    hide Taken, Remaining;
  }

  /** And a clean schedule that cannot be extended cleanly has every goroutine returned. */
  lemma StuckHasReturned(c: Config, schedule: seq<Action>, t: Tid)
    requires CleanFrom(c, Init(c), schedule) && t in c.jobs && !CanStep(c, Execute(c, schedule))
    ensures Returned(Execute(c, schedule), t)
  {
    if !Returned(Execute(c, schedule), t) {
      NoDeadlock(c, schedule, t);
    }
  }
}
