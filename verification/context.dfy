/**
 * The on-demand context gather of src/context.rs. When a dialogue asks for it,
 * the gather looks at the AI-aware entities near the requester, asks every
 * registered extractor for a one-line summary of each, and stores what it found
 * as a single system message in the requester's `AiContext`.
 *
 * The Bevy world is the `GatherWorld` class. Entities are listed in query order.
 * The source's per-entity `HashMap` iterates in an unspecified order; the model
 * fixes one permitted order, first visit.
 */
module Context {
  import opened Wrappers
  import opened Text
  import opened ActionPayloads
  import opened Rag

  /** `ContextGatherConfig`. The `f32` radius is a real number here. */
  datatype GatherConfig = GatherConfig(radius: real, maxDocs: nat)

  /** `ContextGatherConfig::default`. */
  function DefaultGatherConfig(): (c: GatherConfig)
    ensures c.radius == 10.0 && c.maxDocs == 8
  {
    GatherConfig(10.0, 8)
  }

  datatype Vec3 = Vec3(x: real, y: real, z: real)

  /** `Vec3::distance_squared`, exactly (no `f32` rounding). */
  function DistanceSquared(a: Vec3, b: Vec3): real {
    (a.x - b.x) * (a.x - b.x) + (a.y - b.y) * (a.y - b.y) + (a.z - b.z) * (a.z - b.z)
  }

  /** What the gather can see of one entity: its `Transform`, the `AIAware` marker and its component types. */
  datatype EntityRecord = EntityRecord(id: Entity, transform: Option<Vec3>, aiAware: bool, components: set<nat>)

  /** A registered extractor: the component type it needs and the summary function applied to holders of it. */
  datatype Extractor = Extractor(component: nat, summarize: Entity -> Option<string>)

  /** Calling an extractor on an entity: `None` unless the entity has the component. */
  function RunExtractor(x: Extractor, e: EntityRecord): (r: Option<string>)
    ensures x.component !in e.components ==> r.None?
    ensures r.Some? ==> r == x.summarize(e.id)
  {
    if x.component in e.components then x.summarize(e.id) else None
  }

  /** `ContextExtractorRegistry`. */
  class ContextExtractorRegistry {
    var extractors: seq<Extractor>

    constructor ()
      ensures extractors == []
    {
      extractors := [];
    }

    /** `register::<T>`: exactly one extractor, for component `T`, at the end. */
    method Register(component: nat, summarize: Entity -> Option<string>)
      modifies this
      ensures extractors == old(extractors) + [Extractor(component, summarize)]
    {
      extractors := extractors + [Extractor(component, summarize)];
    }
  }

  /** The transform of the first entity that is `ent` and has one, scanning from index `from`. */
  function TransformFrom(es: seq<EntityRecord>, ent: Entity, from: nat): (r: Option<Vec3>)
    ensures r.Some? ==> exists k :: from <= k < |es| && es[k].id == ent && es[k].transform == r
    ensures r.None? ==> forall k :: from <= k < |es| && es[k].id == ent ==> es[k].transform.None?
    decreases |es| - from
  {
    if from >= |es| then None
    else if es[from].id == ent && es[from].transform.Some? then es[from].transform
    else TransformFrom(es, ent, from + 1)
  }

  /** The fixed inputs of one gather: requester, its position, the configuration and the extractors. */
  datatype Scan = Scan(ent: Entity, at: Vec3, cfg: GatherConfig, xs: seq<Extractor>)

  /** An entity the gather asks about: AI-aware, placed, not the requester, and within the radius. */
  predicate Eligible(sc: Scan, e: EntityRecord) {
    e.aiAware && e.transform.Some? && e.id != sc.ent &&
    DistanceSquared(sc.at, e.transform.value) <= sc.cfg.radius * sc.cfg.radius
  }

  /**
   * The summaries the extractors from index `from` on give for `e`, when `added`
   * were collected before: the pass stops right after the one that reaches `maxDocs`.
   */
  function SummariesFrom(sc: Scan, e: EntityRecord, from: nat, added: nat): seq<string>
    decreases |sc.xs| - from
  {
    if from >= |sc.xs| then []
    else match RunExtractor(sc.xs[from], e)
      case None => SummariesFrom(sc, e, from + 1, added)
      case Some(t) => [t] + (if added + 1 >= sc.cfg.maxDocs then [] else SummariesFrom(sc, e, from + 1, added + 1))
  }

  /** The summaries found for one entity. */
  datatype Group = Group(entity: Entity, summaries: seq<string>)

  /** The groups found from entity index `from` on; the scan stops once `maxDocs` summaries were taken. */
  function GroupsFrom(sc: Scan, es: seq<EntityRecord>, from: nat, added: nat): seq<Group>
    decreases |es| - from
  {
    if from >= |es| then []
    else if !Eligible(sc, es[from]) then GroupsFrom(sc, es, from + 1, added)
    else
      var s := SummariesFrom(sc, es[from], 0, added);
      (if s == [] then [] else [Group(es[from].id, s)])
      + (if added + |s| >= sc.cfg.maxDocs then [] else GroupsFrom(sc, es, from + 1, added + |s|))
  }

  /** The number of summaries in all groups. */
  function TotalSummaries(gs: seq<Group>): nat
    decreases |gs|
  {
    if gs == [] then 0 else |gs[0].summaries| + TotalSummaries(gs[1..])
  }

  /** The entity's summaries joined into one sentence each, in group order. */
  function Observations(gs: seq<Group>): (r: seq<string>)
    ensures |r| == |gs|
    ensures forall k :: 0 <= k < |gs| ==> r[k] == Join(gs[k].summaries, ". ")
    decreases |gs|
  {
    if gs == [] then []
    else Observations(gs[..|gs| - 1]) + [Join(gs[|gs| - 1].summaries, ". ")]
  }

  /** The text of the one context message: every entity's sentence, separated by `; `. */
  function SceneDescription(gs: seq<Group>): string {
    Join(Observations(gs), "; ")
  }

  /**
   * What a gather does, as a function of the resources it reads: `None` when it
   * stops early or finds nothing, otherwise the requester and the groups found.
   */
  function GatherOutcome(request: Option<Option<Entity>>, cfg: Option<GatherConfig>,
                         xs: Option<seq<Extractor>>, es: seq<EntityRecord>): Option<(Entity, seq<Group>)>
  {
    if request.None? || request.value.None? || cfg.None? || xs.None? then None
    else
      var ent := request.value.value;
      match TransformFrom(es, ent, 0)
      case None => None
      case Some(at) =>
        var gs := GroupsFrom(Scan(ent, at, cfg.value, xs.value), es, 0, 0);
        if gs == [] then None else Some((ent, gs))
  }

  /** The extractors the gather reads, or `None` when the registry resource is missing. */
  function RegistryContents(reg: ContextExtractorRegistry?): Option<seq<Extractor>>
    reads reg
  {
    if reg == null then None else Some(reg.extractors)
  }

  /** The part of the Bevy world the gather reads and writes. `None` / `null` is a missing resource. */
  class GatherWorld {
    var request: Option<Option<Entity>>
    var config: Option<GatherConfig>
    var registry: ContextExtractorRegistry?
    var entities: seq<EntityRecord>
    var contexts: map<Entity, AiContext>

    /** The inner extractor loop for one entity, with `added` summaries already taken. */
    static method CollectSummaries(sc: Scan, e: EntityRecord, added: nat) returns (s: seq<string>)
      ensures s == SummariesFrom(sc, e, 0, added)
    {
      s := [];
      var j := 0;
      while j < |sc.xs|
        invariant 0 <= j <= |sc.xs|
        invariant s + SummariesFrom(sc, e, j, added + |s|) == SummariesFrom(sc, e, 0, added)
      {
        var txt := RunExtractor(sc.xs[j], e);
        if txt.Some? {
          s := s + [txt.value];
          if added + |s| >= sc.cfg.maxDocs {
            break;
          }
        }
        j := j + 1;
      }
    }

    /**
     * `gather_on_request_world`. The request is taken whenever the resource exists,
     * even when the gather then stops early. A requester without a transform, a
     * missing configuration or registry, or a scan that finds nothing leaves every
     * context as it was; otherwise the requester gets a fresh context holding one
     * system message, the scene description, and no other entity's context changes.
     */
    method GatherOnRequest()
      modifies this
      ensures request == (if old(request).Some? then Some(None) else None)
      ensures config == old(config) && registry == old(registry) && entities == old(entities)
      ensures var out := GatherOutcome(old(request), config, RegistryContents(registry), entities);
        if out.None? then contexts == old(contexts)
        else
          var ent := out.value.0;
          contexts.Keys == old(contexts).Keys + {ent} &&
          fresh(contexts[ent]) && contexts[ent].Valid() &&
          contexts[ent].messages == [SystemMessage(SceneDescription(out.value.1))] &&
          forall e :: e in old(contexts) && e != ent ==> contexts[e] == old(contexts)[e]
    {
      if request.None? {
        return;
      }
      var entOpt := request.value;
      request := Some(None);
      if entOpt.None? || config.None? || registry == null {
        return;
      }
      var ent := entOpt.value;
      var cfg := config.value;
      var xs := registry.extractors;

      var at := FindTransform(entities, ent);
      if at.None? {
        return;
      }
      var groups := CollectGroups(Scan(ent, at.value, cfg, xs), entities);
      if groups != [] {
        var text := Describe(groups);
        var context := new AiContext();
        context.AddContext(text);
        contexts := contexts[ent := context];
      }
    }

    /** The requester lookup: the first entity that is `ent` and has a transform. */
    static method FindTransform(es: seq<EntityRecord>, ent: Entity) returns (at: Option<Vec3>)
      ensures at == TransformFrom(es, ent, 0)
    {
      at := None;
      var i := 0;
      while i < |es|
        invariant 0 <= i <= |es|
        invariant TransformFrom(es, ent, i) == TransformFrom(es, ent, 0)
      {
        if es[i].id == ent && es[i].transform.Some? {
          at := es[i].transform;
          return;
        }
        i := i + 1;
      }
    }

    /** The scan over the AI-aware entities, with the shared `added` counter and both early exits. */
    static method CollectGroups(sc: Scan, es: seq<EntityRecord>) returns (groups: seq<Group>)
      ensures groups == GroupsFrom(sc, es, 0, 0)
    {
      groups := [];
      var added: nat := 0;
      var i := 0;
      while i < |es|
        invariant 0 <= i <= |es|
        invariant groups + GroupsFrom(sc, es, i, added) == GroupsFrom(sc, es, 0, 0)
      {
        var e := es[i];
        if !Eligible(sc, e) {
          i := i + 1;
          continue;
        }
        var s := CollectSummaries(sc, e, added);
        if s != [] {
          groups := groups + [Group(e.id, s)];
        }
        added := added + |s|;
        if added >= sc.cfg.maxDocs {
          return;
        }
        i := i + 1;
      }
    }

    /** Joins each entity's summaries with `. `, then the entities with `; `. */
    static method Describe(groups: seq<Group>) returns (text: string)
      ensures text == SceneDescription(groups)
    {
      var observations: seq<string> := [];
      var k := 0;
      while k < |groups|
        invariant 0 <= k <= |groups|
        invariant observations == Observations(groups[..k])
      {
        assert groups[..k + 1][..k] == groups[..k];
        observations := observations + [Join(groups[k].summaries, ". ")];
        k := k + 1;
      }
      assert groups[..k] == groups;
      text := Join(observations, "; ");
    }
  }

  /** For one entity: with `added` below the cap the total stays within it, and past it one summary at most is taken. */
  lemma {:induction false} SummariesBound(sc: Scan, e: EntityRecord, from: nat, added: nat)
    ensures added < sc.cfg.maxDocs ==> added + |SummariesFrom(sc, e, from, added)| <= sc.cfg.maxDocs
    ensures added >= sc.cfg.maxDocs ==> |SummariesFrom(sc, e, from, added)| <= 1
    decreases |sc.xs| - from
  {
    if from < |sc.xs| {
      match RunExtractor(sc.xs[from], e)
      case None =>
        SummariesBound(sc, e, from + 1, added);
      case Some(t) =>
        if added + 1 < sc.cfg.maxDocs {
          SummariesBound(sc, e, from + 1, added + 1);
        }
    }
  }

  lemma {:induction false} TotalSummariesAppend(a: seq<Group>, b: seq<Group>)
    ensures TotalSummaries(a + b) == TotalSummaries(a) + TotalSummaries(b)
    decreases |a|
  {
    if a == [] {
      assert a + b == b;
    } else {
      assert (a + b)[1..] == a[1..] + b;
      TotalSummariesAppend(a[1..], b);
    }
  }

  /** The cap on documents: `maxDocs`, except that a zero cap still lets the first summary through. */
  function Cap(maxDocs: nat): nat {
    if maxDocs == 0 then 1 else maxDocs
  }

  lemma {:induction false} GroupsBound(sc: Scan, es: seq<EntityRecord>, from: nat, added: nat)
    requires added == 0 || added < sc.cfg.maxDocs
    ensures added + TotalSummaries(GroupsFrom(sc, es, from, added)) <= Cap(sc.cfg.maxDocs)
    decreases |es| - from
  {
    if from < |es| {
      if !Eligible(sc, es[from]) {
        GroupsBound(sc, es, from + 1, added);
      } else {
        var s := SummariesFrom(sc, es[from], 0, added);
        SummariesBound(sc, es[from], 0, added);
        var head := if s == [] then [] else [Group(es[from].id, s)];
        var tail := if added + |s| >= sc.cfg.maxDocs then [] else GroupsFrom(sc, es, from + 1, added + |s|);
        assert GroupsFrom(sc, es, from, added) == head + tail;
        TotalSummariesAppend(head, tail);
        assert TotalSummaries(head) == |s| by {
          if s != [] {
            assert head[1..] == [];
          }
        }
        if added + |s| < sc.cfg.maxDocs {
          GroupsBound(sc, es, from + 1, added + |s|);
        }
      }
    }
  }

  /** A gather collects at most `maxDocs` summaries over all entities and extractors (one when `maxDocs` is 0). */
  lemma GatherRespectsCap(request: Option<Option<Entity>>, cfg: Option<GatherConfig>,
                          xs: Option<seq<Extractor>>, es: seq<EntityRecord>)
    requires GatherOutcome(request, cfg, xs, es).Some?
    ensures TotalSummaries(GatherOutcome(request, cfg, xs, es).value.1) <= Cap(cfg.value.maxDocs)
  {
    var ent := request.value.value;
    var at := TransformFrom(es, ent, 0).value;
    GroupsBound(Scan(ent, at, cfg.value, xs.value), es, 0, 0);
  }

  /** Every summary of an entity is what one of the extractors said about it. */
  lemma {:induction false} SummariesComeFromExtractors(sc: Scan, e: EntityRecord, from: nat, added: nat)
    ensures forall t :: t in SummariesFrom(sc, e, from, added) ==>
      exists j :: from <= j < |sc.xs| && RunExtractor(sc.xs[j], e) == Some(t)
    decreases |sc.xs| - from
  {
    if from < |sc.xs| {
      SummariesComeFromExtractors(sc, e, from + 1, added);
      SummariesComeFromExtractors(sc, e, from + 1, added + 1);
    }
  }

  /**
   * Every group belongs to an eligible entity (AI-aware, not the requester,
   * within the radius) and holds at least one summary.
   */
  lemma {:induction false} GroupsAreEligible(sc: Scan, es: seq<EntityRecord>, from: nat, added: nat)
    ensures forall g :: g in GroupsFrom(sc, es, from, added) ==>
      g.summaries != [] && exists k :: from <= k < |es| && es[k].id == g.entity && Eligible(sc, es[k])
    decreases |es| - from
  {
    if from < |es| {
      GroupsAreEligible(sc, es, from + 1, added);
      if Eligible(sc, es[from]) {
        var s := SummariesFrom(sc, es[from], 0, added);
        GroupsAreEligible(sc, es, from + 1, added + |s|);
      }
    }
  }

  /** Neither the requester nor an entity without `AIAware` ever contributes, nor one beyond the radius. */
  lemma {:induction false} RequesterNeverDescribed(request: Option<Option<Entity>>, cfg: Option<GatherConfig>,
                                xs: Option<seq<Extractor>>, es: seq<EntityRecord>, g: Group)
    requires GatherOutcome(request, cfg, xs, es).Some?
    requires g in GatherOutcome(request, cfg, xs, es).value.1
    ensures g.entity != request.value.value
    ensures exists k :: 0 <= k < |es| && es[k].id == g.entity && es[k].aiAware && es[k].transform.Some? &&
                        DistanceSquared(TransformFrom(es, request.value.value, 0).value, es[k].transform.value)
                        <= cfg.value.radius * cfg.value.radius
  {
    var ent := request.value.value;
    var at := TransformFrom(es, ent, 0).value;
    GroupsAreEligible(Scan(ent, at, cfg.value, xs.value), es, 0, 0);
  }

  /** With no request pending, or none of the resources, a gather has nothing to store. */
  lemma NoRequestNoChange(request: Option<Option<Entity>>, cfg: Option<GatherConfig>,
                          xs: Option<seq<Extractor>>, es: seq<EntityRecord>)
    requires request.None? || request.value.None? || cfg.None? || xs.None? ||
             TransformFrom(es, request.value.value, 0).None?
    ensures GatherOutcome(request, cfg, xs, es).None?
  {
  }
}
