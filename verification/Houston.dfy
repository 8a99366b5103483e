/** Flattening Houston's answer: the sources of an application into one map from the names of its
    enabled integrations to their topics. */
module Houston {

  /** The topics of an application's integrations, by name. */
  type Routes = map<string, string>

  datatype Integration = Integration(name: string, topic: string, enabled: bool)

  function TopicIn(m: Routes, name: string): string {
    if name in m then m[name] else ""
  }

  /** What one entry does to the map: it fills a name that is absent or has no topic yet. */
  function Take(m: Routes, e: Integration): Routes {
    if e.enabled && |TopicIn(m, e.name)| == 0 then m[e.name := e.topic] else m
  }

  function TakeAll(entries: seq<Integration>): Routes {
    if entries == [] then map[] else Take(TakeAll(entries[..|entries| - 1]), entries[|entries| - 1])
  }

  function Concat(sources: seq<seq<Integration>>): seq<Integration> {
    if sources == [] then [] else Concat(sources[..|sources| - 1]) + sources[|sources| - 1]
  }

  lemma TakeAllSnoc(entries: seq<Integration>, e: Integration)
    ensures TakeAll(entries + [e]) == Take(TakeAll(entries), e)
  {
    assert (entries + [e])[..|entries|] == entries;
  }

  method Flatten(sources: seq<seq<Integration>>) returns (m: Routes)
    ensures m == TakeAll(Concat(sources))
    ensures forall name :: name in m <==> OfferedIn(sources, name)
    ensures forall name | name in m ::
              if m[name] == "" then NoTopicIn(sources, name)
              else exists i, j :: FirstAt(sources, name, i, j) && sources[i][j].topic == m[name]
  {
    m := map[];
    ghost var seen := [];
    assert sources[..|sources|] == sources;
    for i := 0 to |sources|
      invariant seen == Concat(sources[..i]) && m == TakeAll(seen)
    {
      assert sources[..i + 1][..i] == sources[..i];
      var source := sources[i];
      assert source[..|source|] == source;
      ghost var before := seen;
      hide TakeAll;
      for j := 0 to |source|
        invariant seen == before + source[..j] && m == TakeAll(seen)
      {
        var e := source[j];
        TakeAllSnoc(seen, e);
        if e.enabled && (e.name !in m || |m[e.name]| == 0) {
          m := m[e.name := e.topic];
        }
        seen := seen + [e];
        assert source[..j + 1] == source[..j] + [e];
      }
    }
    forall name
      ensures name in m <==> OfferedIn(sources, name)
      ensures TopicOf(sources, name, TopicIn(m, name))
    {
      FlattenedSources(sources, name);
    }
  }

  predicate Offers(e: Integration, name: string) {
    e.enabled && e.name == name
  }

  /** The topic of the first enabled entry of the name that has one. */
  ghost predicate FirstTopic(entries: seq<Integration>, name: string, topic: string) {
    exists i :: 0 <= i < |entries| && Offers(entries[i], name) && entries[i].topic == topic && topic != ""
                && forall j | 0 <= j < i && Offers(entries[j], name) :: entries[j].topic == ""
  }

  ghost predicate NoTopic(entries: seq<Integration>, name: string) {
    forall i | 0 <= i < |entries| && Offers(entries[i], name) :: entries[i].topic == ""
  }

  ghost predicate Offered(entries: seq<Integration>, name: string) {
    exists i :: 0 <= i < |entries| && Offers(entries[i], name)
  }

  lemma OfferedSnoc(init: seq<Integration>, e: Integration, name: string)
    ensures Offered(init + [e], name) <==> Offered(init, name) || Offers(e, name)
  {
    var entries := init + [e];
    assert entries[|init|] == e;
    if i :| 0 <= i < |init| && Offers(init[i], name) {
      assert Offers(entries[i], name);
    }
  }

  /** A topic once found stays the first. */
  lemma FirstTopicSnoc(init: seq<Integration>, e: Integration, name: string, topic: string)
    requires FirstTopic(init, name, topic)
    ensures FirstTopic(init + [e], name, topic)
  {
    var entries := init + [e];
    var i :| 0 <= i < |init| && Offers(init[i], name) && init[i].topic == topic
             && forall j | 0 <= j < i && Offers(init[j], name) :: init[j].topic == "";
    assert entries[i] == init[i];
  }

  lemma NoTopicSnoc(init: seq<Integration>, e: Integration, name: string)
    requires NoTopic(init, name)
    ensures if Offers(e, name) && e.topic != "" then FirstTopic(init + [e], name, e.topic)
            else NoTopic(init + [e], name)
  {
    var entries := init + [e];
    assert entries[|init|] == e;
  }

  /** The map's names are exactly those of the enabled entries, and each topic is the first
      non-empty one among the enabled entries of the name, or empty if they have none. */
  lemma {:induction false} Flattened(entries: seq<Integration>, name: string)
    ensures name in TakeAll(entries) <==> Offered(entries, name)
    ensures var topic := TopicIn(TakeAll(entries), name);
            if topic == "" then NoTopic(entries, name) else FirstTopic(entries, name, topic)
  {
    if entries == [] {
    } else {
      var init, e := entries[..|entries| - 1], entries[|entries| - 1];
      assert entries == init + [e];
      Flattened(init, name);
      OfferedSnoc(init, e, name);
      var was := TopicIn(TakeAll(init), name);
      if was == "" {
        NoTopicSnoc(init, e, name);
      } else {
        FirstTopicSnoc(init, e, name, was);
      }
      hide Offered, NoTopic, FirstTopic;
    }
  }

  // ---- the sources themselves ----

  /** Some source has the name enabled. */
  ghost predicate OfferedIn(sources: seq<seq<Integration>>, name: string) {
    exists i, j :: 0 <= i < |sources| && 0 <= j < |sources[i]| && Offers(sources[i][j], name)
  }

  /** The first enabled entry of the name, source by source, that has a topic. */
  ghost predicate FirstAt(sources: seq<seq<Integration>>, name: string, i: int, j: int) {
    && 0 <= i < |sources| && 0 <= j < |sources[i]| && Offers(sources[i][j], name) && sources[i][j].topic != ""
    && (forall p, q | 0 <= p < i && 0 <= q < |sources[p]| && Offers(sources[p][q], name) :: sources[p][q].topic == "")
    && (forall q | 0 <= q < j && Offers(sources[i][q], name) :: sources[i][q].topic == "")
  }

  ghost predicate NoTopicIn(sources: seq<seq<Integration>>, name: string) {
    forall p, q | 0 <= p < |sources| && 0 <= q < |sources[p]| && Offers(sources[p][q], name) ::
      sources[p][q].topic == ""
  }

  ghost predicate TopicOf(sources: seq<seq<Integration>>, name: string, topic: string) {
    if topic == "" then NoTopicIn(sources, name)
    else exists i, j :: FirstAt(sources, name, i, j) && sources[i][j].topic == topic
  }

  /** What later entries add to a map. */
  lemma {:induction false} TakeAllAppend(a: seq<Integration>, b: seq<Integration>, name: string)
    ensures name in TakeAll(a + b) <==> name in TakeAll(a) || name in TakeAll(b)
    ensures var was := TopicIn(TakeAll(a), name);
            TopicIn(TakeAll(a + b), name) == if was != "" then was else TopicIn(TakeAll(b), name)
  {
    if b == [] {
      assert a + b == a;
    } else {
      var init := b[..|b| - 1];
      TakeAllAppend(a, init, name);
      assert (a + b)[..|a + b| - 1] == a + init;
    }
  }

  lemma OfferedInSnoc(init: seq<seq<Integration>>, last: seq<Integration>, name: string)
    ensures OfferedIn(init + [last], name) <==> OfferedIn(init, name) || Offered(last, name)
  {
    var sources := init + [last];
    assert sources[|init|] == last;
    if OfferedIn(init, name) {
      var i, j :| 0 <= i < |init| && 0 <= j < |init[i]| && Offers(init[i][j], name);
      assert sources[i] == init[i];
    }
    if Offered(last, name) {
      var j :| 0 <= j < |last| && Offers(last[j], name);
      assert Offers(sources[|init|][j], name);
    }
  }

  lemma TopicOfSnoc(init: seq<seq<Integration>>, last: seq<Integration>, name: string, was: string, topic: string)
    requires TopicOf(init, name, was)
    requires if topic == "" then NoTopic(last, name) else FirstTopic(last, name, topic)
    ensures TopicOf(init + [last], name, if was != "" then was else topic)
  {
    var sources := init + [last];
    assert sources[|init|] == last;
    if was != "" {
      var i, j :| FirstAt(init, name, i, j) && init[i][j].topic == was;
      assert forall p | 0 <= p <= i :: sources[p] == init[p];
      assert FirstAt(sources, name, i, j);
    } else {
      assert forall p | 0 <= p < |init| :: sources[p] == init[p];
      if topic != "" {
        var j :| 0 <= j < |last| && Offers(last[j], name) && last[j].topic == topic
                 && forall q | 0 <= q < j && Offers(last[q], name) :: last[q].topic == "";
        assert FirstAt(sources, name, |init|, j);
      }
    }
  }

  /** A name is in the map exactly when some source has it enabled, and its topic is that of the first such
      entry, source by source, that has one, or empty if none has. */
  lemma {:induction false} FlattenedSources(sources: seq<seq<Integration>>, name: string)
    ensures name in TakeAll(Concat(sources)) <==> OfferedIn(sources, name)
    ensures TopicOf(sources, name, TopicIn(TakeAll(Concat(sources)), name))
  {
    if sources == [] {
    } else {
      var init, last := sources[..|sources| - 1], sources[|sources| - 1];
      assert sources == init + [last];
      FlattenedSources(init, name);
      Flattened(last, name);
      TakeAllAppend(Concat(init), last, name);
      OfferedInSnoc(init, last, name);
      TopicOfSnoc(init, last, name, TopicIn(TakeAll(Concat(init)), name), TopicIn(TakeAll(last), name));
      hide TakeAll, OfferedIn, TopicOf, Offered, FirstTopic, NoTopic;
    }
  }
}
