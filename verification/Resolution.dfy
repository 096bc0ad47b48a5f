// Which source an ingestion writes to (_resolve_project_source of panda_trace/store.py).
module Resolution {
  import opened Base
  import opened Records
  import opened Ids
  import opened StoreModel
  import opened StoreInvariant
  import opened StoreSteps

  // The source is stored, of the key's org, within the key's scope, and of the requested project if one
  // is requested.
  ghost predicate MayWriteTo(s: State, key: ApiKey, projectId: Option<string>, source: Source) {
    && source.id in s.sources.at && s.sources.at[source.id] == source
    && source.orgId == key.orgId
    && (key.projectIds == [] || source.projectId in key.projectIds)
    && (key.sourceIds == [] || source.id in key.sourceIds)
    && (projectId.None? || projectId.value == "" || source.projectId == projectId.value)
  }

  lemma {:induction false} DistinctValues(order: seq<string>, at: map<string, Source>)
    requires forall id :: id in order ==> id in at && at[id].id == id
    requires forall i, j :: 0 <= i < j < |order| ==> order[i] != order[j]
    ensures var values := ValuesAt(order, at);
            |values| == |order| && forall i :: 0 <= i < |order| ==> values[i] == at[order[i]]
  {
    if order != [] {
      DistinctValues(order[..|order| - 1], at);
    }
  }

  lemma {:induction false} FilterKeepsOrder(values: seq<Source>, keep: Source -> bool)
    requires forall i, j :: 0 <= i < j < |values| ==> values[i] != values[j]
    ensures forall i, j :: 0 <= i < j < |Filter(values, keep)| ==> Filter(values, keep)[i] != Filter(values, keep)[j]
  {
    if values != [] {
      assert forall i :: 0 < i < |values| ==> values[i] != values[0];
      assert values[0] !in values[1..];
      FilterKeepsOrder(values[1..], keep);
      var rest := Filter(values[1..], keep);
      assert values[0] !in rest;
    }
  }

  // Sources stand under their identifiers, and their projects exist and are of their org.
  ghost predicate Placed(s: State) {
    && s.sources.Ok()
    && forall id :: id in s.sources.at ==>
         var x := s.sources.at[id];
         && x.id == id && x.projectId in s.projects
         && s.projects[x.projectId].orgId == x.orgId && s.projects[x.projectId].id == x.projectId
  }

  lemma InvPlaced(s: State)
    requires Inv(s)
    ensures Placed(s)
  {
    forall id | id in s.sources.at
      ensures s.sources.at[id].id == id
    {
      SourceNamed(s, id);
    }
    forall id | id in s.projects
      ensures s.projects[id].id == id
    {
      ProjectNamed(s, id);
    }
  }

  lemma CandidateIff(s: State, key: ApiKey, projectId: Option<string>, x: Source)
    requires Placed(s)
    ensures x in Values(s.sources) && IsCandidate(key, projectId, x) <==> MayWriteTo(s, key, projectId, x)
  {
    ValueMembers(s.sources.order, s.sources.at);
    hide ValuesAt;
    assert forall k :: k in s.sources.order <==> k in s.sources.at;
  }

  // The candidates are the sources the key may write to, each once.
  lemma CandidatesAre(s: State, key: ApiKey, projectId: Option<string>)
    requires Placed(s)
    ensures var candidates := Filter(Values(s.sources), (source: Source) => IsCandidate(key, projectId, source));
            && (forall x :: x in candidates <==> MayWriteTo(s, key, projectId, x))
            && forall i, j :: 0 <= i < j < |candidates| ==> candidates[i] != candidates[j]
  {
    DistinctSources(s);
    hide Filter, Values, IsCandidate, MayWriteTo, Placed;
    var keep := (source: Source) => IsCandidate(key, projectId, source);
    FilterKeepsOrder(Values(s.sources), keep);
    forall x
      ensures x in Filter(Values(s.sources), keep) <==> MayWriteTo(s, key, projectId, x)
    {
      CandidateIff(s, key, projectId, x);
      assert keep(x) == IsCandidate(key, projectId, x);
    }
  }

  lemma DistinctSources(s: State)
    requires Placed(s)
    ensures forall i, j :: 0 <= i < j < |Values(s.sources)| ==> Values(s.sources)[i] != Values(s.sources)[j]
  {
    DistinctValues(s.sources.order, s.sources.at);
    hide ValuesAt;
    var values, order := Values(s.sources), s.sources.order;
    forall i, j | 0 <= i < j < |values|
      ensures values[i] != values[j]
    {
      assert values[i].id == order[i] && values[j].id == order[j];
    }
  }

  // The only one that the key may write to.
  ghost predicate OnlyOne(s: State, key: ApiKey, projectId: Option<string>, source: Source) {
    && MayWriteTo(s, key, projectId, source)
    && forall other :: MayWriteTo(s, key, projectId, other) ==> other == source
  }

  lemma OneCandidateIff(s: State, key: ApiKey, projectId: Option<string>, candidates: seq<Source>)
    requires forall x :: x in candidates <==> MayWriteTo(s, key, projectId, x)
    requires forall i, j :: 0 <= i < j < |candidates| ==> candidates[i] != candidates[j]
    ensures forall x :: OnlyOne(s, key, projectId, x) <==> candidates == [x]
  {
    hide MayWriteTo;
    forall x
      ensures OnlyOne(s, key, projectId, x) <==> candidates == [x]
    {
      if OnlyOne(s, key, projectId, x) {
        assert x in candidates;
        assert forall i :: 0 <= i < |candidates| ==> candidates[i] in candidates;
        assert forall i :: 0 <= i < |candidates| ==> candidates[i] == x;
        assert |candidates| >= 2 ==> candidates[0] != candidates[1];
      }
      if candidates == [x] {
        assert x in candidates;
      }
    }
  }

  // A call resolves to a source exactly if the key may write to it and it is the one that the call names,
  // or, when the call names none, the only one that the key may write to.
  lemma ResolvesIff(s: State, key: ApiKey, projectId: Option<string>, sourceId: Option<string>, source: Source)
    requires Inv(s)
    ensures var r := ResolveProjectSource(s, key, projectId, sourceId);
            r.Ok? && r.value.1 == source <==>
              if sourceId.Some? && sourceId.value != ""
              then MayWriteTo(s, key, projectId, source) && sourceId.value == source.id
              else OnlyOne(s, key, projectId, source)
  {
    hide *;
    InvPlaced(s);
    SourceGivenMeans(sourceId);
    if Given(sourceId) {
      NamedResolvesIff(s, key, projectId, sourceId, source);
    } else {
      OnlyResolvesIff(s, key, projectId, sourceId);
    }
  }

  lemma SourceGivenMeans(sourceId: Option<string>)
    ensures Given(sourceId) <==> sourceId.Some? && sourceId.value != ""
  {
  }

  lemma NamedResolvesIff(s: State, key: ApiKey, projectId: Option<string>, sourceId: Option<string>, source: Source)
    requires Placed(s) && Given(sourceId)
    ensures var r := ResolveProjectSource(s, key, projectId, sourceId);
            r.Ok? && r.value.1 == source <==>
              MayWriteTo(s, key, projectId, source) && sourceId.value == source.id
  {
  }

  lemma OnlyResolvesIff(s: State, key: ApiKey, projectId: Option<string>, sourceId: Option<string>)
    requires Placed(s) && !Given(sourceId)
    ensures var r := ResolveProjectSource(s, key, projectId, sourceId);
            && (forall x :: r.Ok? && r.value.1 == x <==> OnlyOne(s, key, projectId, x))
            && (r.Err? ==> r.error == BadRequest("source_required"))
  {
    CandidatesAre(s, key, projectId);
    var candidates := Filter(Values(s.sources), (x: Source) => IsCandidate(key, projectId, x));
    OneCandidateIff(s, key, projectId, candidates);
    if |candidates| == 1 {
      assert candidates[0] in candidates;
      assert candidates == [candidates[0]];
    }
    hide OnlyOne, Values, IsCandidate, Filter, Placed;
  }
}
