/** The keyed entity store: property bags, merge-patch update, conjunctive listing. */
module Entities {
  import opened Common

  /** Property names; the ones this service writes are constructors of their own. */
  datatype Prop =
    | PStatus | PFunctionName | PTriggerEvent | PTriggerPayload | PTaskId | PWorkflowRunId
    | PResult | PError | PRetryCount | PCreatedAt | PStartedAt | PCompletedAt
    | PRollbackReason | PEventId | PTopic | PSource | PPayload
    | Extra(name: string)

  /**
   * A property value. Stamp(t) is an RFC 3339 text denoting second t; an empty or
   * unparseable time is Text. Int, Int64 and Float are the three shapes in which a
   * store may hand a number back.
   */
  datatype Value =
    | Text(text: string)
    | Stamp(at: nat)
    | Int(n: int)
    | Int64(n64: int)
    | Float(x: real)
    | Other

  type Props = map<Prop, Value>

  datatype Entity = Entity(id: string, agency: string, typeId: string, props: Props)

  datatype Key = Key(agency: string, id: string)

  type Store = map<Key, Entity>

  /** Every entity is filed under its own agency and id. */
  ghost predicate WellKeyed(store: Store) {
    forall k | k in store :: store[k].agency == k.agency && store[k].id == k.id
  }

  /** A string property; absent and non-string values read as empty. */
  function TextProp(props: Props, p: Prop): string {
    if p in props && props[p].Text? then props[p].text else ""
  }

  /** A time property; absent, empty and unparseable values read as no time. */
  function TimeProp(props: Props, p: Prop): Option<nat> {
    if p in props && props[p].Stamp? then Some(props[p].at) else None
  }

  /** Conversion of a float to an integer, truncating toward zero. */
  function Truncate(x: real): int {
    if x >= 0.0 then x.Floor else -((-x).Floor)
  }

  function IntProp(props: Props, p: Prop): int {
    if p !in props then 0
    else match props[p]
      case Int(n) => n
      case Int64(n) => n
      case Float(x) => Truncate(x)
      case _ => 0
  }

  /** Truncation drops the fraction: toward zero, by less than one. */
  lemma TruncateDropsFraction(x: real)
    ensures x >= 0.0 ==> 0.0 <= Truncate(x) as real <= x < Truncate(x) as real + 1.0
    ensures x <= 0.0 ==> 0.0 >= Truncate(x) as real >= x > Truncate(x) as real - 1.0
  {}

  /** A number is read from any of its three shapes; anything else reads as zero. */
  lemma IntPropReads(props: Props, p: Prop)
    ensures p !in props ==> IntProp(props, p) == 0
    ensures p in props ==>
      && (props[p].Int? ==> IntProp(props, p) == props[p].n)
      && (props[p].Int64? ==> IntProp(props, p) == props[p].n64)
      && (props[p].Float? ==> IntProp(props, p) == Truncate(props[p].x))
      && (props[p].Text? || props[p].Stamp? || props[p].Other? ==> IntProp(props, p) == 0)
  {}

  /** The merge patch: patched keys take the new value, all others keep the old one. */
  function Patched(store: Store, k: Key, patch: Props): Store
    requires k in store
  {
    store[k := store[k].(props := store[k].props + patch)]
  }

  /** What a merge patch leaves: the same entities, only one changed, and only in what was patched. */
  lemma PatchedReads(store: Store, k: Key, patch: Props)
    requires k in store
    ensures var after := Patched(store, k, patch);
      && after.Keys == store.Keys
      && (forall other | other in store && other != k :: after[other] == store[other])
      && after[k].id == store[k].id && after[k].agency == store[k].agency && after[k].typeId == store[k].typeId
      && after[k].props.Keys == store[k].props.Keys + patch.Keys
      && forall p | p in after[k].props :: after[k].props[p] == if p in patch then patch[p] else store[k].props[p]
  {}

  /** One entity more, under an id not used before. */
  ghost predicate Added(before: Store, after: Store, e: Entity) {
    Key(e.agency, e.id) !in before && after == before[Key(e.agency, e.id) := e]
  }

  /** What a listing selects: agency, type, and every given property equal as text. */
  predicate Selects(e: Entity, agency: string, typeId: string, filter: map<Prop, string>) {
    && e.agency == agency
    && e.typeId == typeId
    && forall p | p in filter :: p in e.props && e.props[p] == Text(filter[p])
  }

  /** A listing holds each selected entity exactly once, in no particular order. */
  ghost predicate IsListing(es: seq<Entity>, store: Store, agency: string, typeId: string,
                            filter: map<Prop, string>)
  {
    && (forall i | 0 <= i < |es| ::
          var k := Key(es[i].agency, es[i].id);
          k in store && store[k] == es[i] && Selects(es[i], agency, typeId, filter))
    && (forall i, j | 0 <= i < j < |es| :: es[i].id != es[j].id)
    && (forall k | k in store && Selects(store[k], agency, typeId, filter) :: store[k] in es)
  }

  /**
   * The shared store. When it is not reliable any call may report a failure, and a
   * failed update may or may not have been applied.
   */
  class DataManager {
    var entities: Store
    const reliable: bool

    constructor (reliable: bool)
      ensures entities == map[] && this.reliable == reliable
    {
      entities := map[];
      this.reliable := reliable;
    }

    method CreateEntity(agency: string, typeId: string, props: Props) returns (r: Result<Entity>)
      requires WellKeyed(entities)
      modifies this
      ensures WellKeyed(entities)
      ensures reliable ==> r.Ok?
      ensures r.Ok? ==> r.value.id != "" && r.value == Entity(r.value.id, agency, typeId, props)
                        && Added(old(entities), entities, r.value)
      ensures r.Err? ==> r.error == StorageFailure
      ensures r.Err? && entities != old(entities) ==>
        exists id :: Added(old(entities), entities, Entity(id, agency, typeId, props))
    {
      if !reliable {
        if * { return Err(StorageFailure); }
      }
      var id := FreshId(entities, agency);
      var e := Entity(id, agency, typeId, props);
      entities := entities[Key(agency, id) := e];
      assert Added(old(entities), entities, Entity(id, agency, typeId, props));
      r := Ok(e);
      if !reliable {
        if * { return Err(StorageFailure); }
      }
    }

    method GetEntity(agency: string, id: string) returns (r: Result<Entity>)
      ensures reliable ==> r != Err(StorageFailure)
      ensures r.Ok? ==> Key(agency, id) in entities && r.value == entities[Key(agency, id)]
      ensures r.Err? ==> r.error == StorageFailure || (r.error == JobNotFound && Key(agency, id) !in entities)
    {
      if !reliable {
        if * { return Err(StorageFailure); }
      }
      if Key(agency, id) !in entities { return Err(JobNotFound); }
      r := Ok(entities[Key(agency, id)]);
    }

    method UpdateEntity(agency: string, id: string, patch: Props) returns (r: Result<Entity>)
      requires WellKeyed(entities)
      modifies this
      ensures WellKeyed(entities)
      ensures reliable ==> r != Err(StorageFailure)
      ensures r.Ok? ==>
        && Key(agency, id) in old(entities)
        && entities == Patched(old(entities), Key(agency, id), patch)
        && r.value == entities[Key(agency, id)]
      ensures r.Ok? ==>
        && (forall k | k in old(entities) && k != Key(agency, id) :: k in entities && entities[k] == old(entities)[k])
        && (forall p | p in patch :: p in r.value.props && r.value.props[p] == patch[p])
        && (forall p | p !in patch :: p in r.value.props <==> p in old(entities)[Key(agency, id)].props)
        && (forall p | p !in patch && p in r.value.props :: r.value.props[p] == old(entities)[Key(agency, id)].props[p])
      ensures r.Err? ==>
        || (r.error == JobNotFound && Key(agency, id) !in old(entities) && entities == old(entities))
        || (r.error == StorageFailure &&
            (entities == old(entities) ||
             (Key(agency, id) in old(entities) && entities == Patched(old(entities), Key(agency, id), patch))))
    {
      var k := Key(agency, id);
      if !reliable {
        if * { return Err(StorageFailure); }
      }
      if k !in entities { return Err(JobNotFound); }
      entities := Patched(entities, k, patch);
      r := Ok(entities[k]);
      if !reliable {
        if * { return Err(StorageFailure); }
      }
    }

    method ListEntities(agency: string, typeId: string, filter: map<Prop, string>)
      returns (r: Result<seq<Entity>>)
      requires WellKeyed(entities)
      ensures reliable ==> r.Ok?
      ensures r.Ok? ==> IsListing(r.value, entities, agency, typeId, filter)
      ensures r.Err? ==> r.error == StorageFailure
    {
      if !reliable {
        if * { return Err(StorageFailure); }
      }
      var rest := entities.Keys;
      var es: seq<Entity> := [];
      while rest != {}
        invariant rest <= entities.Keys
        invariant forall i | 0 <= i < |es| ::
          var k := Key(es[i].agency, es[i].id);
          k in entities && k !in rest && entities[k] == es[i] && Selects(es[i], agency, typeId, filter)
        invariant forall i, j | 0 <= i < j < |es| :: es[i].id != es[j].id
        invariant forall k | k in entities && k !in rest && Selects(entities[k], agency, typeId, filter) ::
          entities[k] in es
        decreases rest
      {
        var k :| k in rest;
        rest := rest - {k};
        if Selects(entities[k], agency, typeId, filter) {
          es := es + [entities[k]];
        }
      }
      r := Ok(es);
    }
  }

  /** Stands for the random identifier of a new entity: one no entity bears yet. */
  method FreshId(store: Store, agency: string) returns (id: string)
    ensures Key(agency, id) !in store && id != ""
  {
    var longest: nat := 0;
    var rest := store.Keys;
    while rest != {}
      invariant rest <= store.Keys
      invariant forall k | k in store && k !in rest :: |k.id| <= longest
      decreases rest
    {
      var k :| k in rest;
      rest := rest - {k};
      if |k.id| > longest { longest := |k.id|; }
    }
    id := seq(longest + 1, _ => 'x');
  }
}
