/** The cache of enabled integrations: read-through, refreshed by events, emptied by a timer. */
module IntegrationCache {
  import opened Builds
  import opened Wrappers
  import opened Houston

  /** A cached answer and the time Houston was asked for it. */
  datatype Cached = Cached(routes: Routes, at: nat)
  type Table = map<string, Cached>

  /** What Houston says if it is asked. */
  datatype Reply = Error | Says(routes: Routes)

  /** What a caller of GetIntegrations gets: an error, nil, or an answer. */
  datatype Result = Failed | Nil | Answer(cached: Cached)

  function Update(t: Table, app: string, reply: Reply, now: nat): Table {
    if reply.Error? then t else t[app := Cached(reply.routes, now)]
  }

  /** On a miss the cache is filled; as typed the caller then still gets the nil that missed. */
  function Missed(b: Build, t: Table, app: string, reply: Reply, now: nat): (Result, Table) {
    if reply.Error? then (Failed, t)
    else (if b.AsTyped? then Nil else Answer(Cached(reply.routes, now)), Update(t, app, reply, now))
  }

  function Lookup(b: Build, t: Table, app: string, reply: Reply, now: nat): (Result, Table) {
    if app in t then (Answer(t[app]), t) else Missed(b, t, app, reply, now)
  }

  /** A caller whose application Houston knows gets its integrations exactly when the cache has
      them already, or the build is the repaired one. */
  lemma AnsweredExactlyOnHit(b: Build, t: Table, app: string, routes: Routes, now: nat)
    ensures Lookup(b, t, app, Says(routes), now).0.Answer? <==> app in t || b == Repaired
    ensures Lookup(b, t, app, Says(routes), now).1 == if app in t then t else t[app := Cached(routes, now)]
  {
  }

  class Client {
    const build: Build
    var integrations: Table
    var syncMap: set<string>  // the applications that have a lock

    ghost predicate Valid()
      reads this
    {
      integrations.Keys <= syncMap
    }

    constructor (build: Build)
      ensures Valid() && integrations == map[] && this.build == build
    {
      this.build, integrations, syncMap := build, map[], {};
    }

    /** Map.Get: makes sure the application has a lock. */
    method Get(app: string) returns (cached: Option<Cached>)
      requires Valid()
      modifies this`syncMap
      ensures Valid() && syncMap == old(syncMap) + {app}
      ensures cached == if app in integrations then Some(integrations[app]) else None
    {
      syncMap := syncMap + {app};
      cached := if app in integrations then Some(integrations[app]) else None;
    }

    method UpdateIntegrationsForApp(app: string, reply: Reply, now: nat) returns (ok: bool)
      requires Valid()
      modifies this
      ensures Valid() && integrations == Update(old(integrations), app, reply, now)
      ensures ok <==> reply.Says?
      ensures !ok ==> integrations == old(integrations)
      ensures ok ==> integrations == old(integrations)[app := Cached(reply.routes, now)]
    {
      if reply.Error? { return false; }
      var _ := Get(app);
      integrations := integrations[app := Cached(reply.routes, now)];
      return true;
    }

    method GetIntegrations(app: string, reply: Reply, now: nat) returns (r: Result)
      requires Valid()
      modifies this
      ensures Valid() && (r, integrations) == Lookup(build, old(integrations), app, reply, now)
      ensures app in old(integrations) ==> r == Answer(old(integrations)[app]) && integrations == old(integrations)
      ensures app !in old(integrations) && reply.Error? ==> r == Failed && integrations == old(integrations)
      ensures app !in old(integrations) && reply.Says? ==>
                && integrations == old(integrations)[app := Cached(reply.routes, now)]
                && r == if build.AsTyped? then Nil else Answer(Cached(reply.routes, now))
    {
      var cached := Get(app);
      if cached.None? {
        var ok := UpdateIntegrationsForApp(app, reply, now);
        if !ok { return Failed; }
        if build.Repaired? {
          cached := Get(app);
        }
      }
      r := if cached.None? then Nil else Answer(cached.value);
    }

    method ResetCache()
      modifies this
      ensures Valid() && integrations == map[] && syncMap == {}
    {
      integrations, syncMap := map[], {};
    }
  }
}
