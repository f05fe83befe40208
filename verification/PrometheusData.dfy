/**
 The scraped cache: one map of rendered metrics per object type, and the two processors that
 replay changes into it.
 */
module PrometheusData {
  import opened Wrappers
  import opened DeltaFifo
  import opened MeteringTypes
  import VP = ViewPipeline

  datatype Name = Name(namespace: string, name: string)

  class PrometheusDataMap {
    const expectedType: Kind
    const generate: Generator
    var metrics: map<Name, Families>

    constructor (kind: Kind, generate: Generator)
      ensures expectedType == kind && this.generate == generate && metrics == map[]
    {
      expectedType, this.generate, metrics := kind, generate, map[];
    }

    method Add(obj: Object, defs: seq<Definition>) returns (ok: bool)
      modifies this
      ensures ok <==> obj.key.kind == expectedType
      ensures metrics == if ok then old(metrics)[NameOf(obj) := generate(obj, defs)] else old(metrics)
    {
      if obj.key.kind != expectedType {
        return false;
      }
      var families := generate(obj, defs);
      metrics := metrics[NameOf(obj) := families];
      return true;
    }

    method Remove(obj: Object)
      modifies this
      ensures metrics == old(metrics) - {NameOf(obj)}
    {
      metrics := metrics - {NameOf(obj)};
    }
  }

  function NameOf(obj: Object): Name {
    Name(obj.key.namespace, obj.key.name)
  }

  class PrometheusData {
    const maps: seq<PrometheusDataMap>
    const generate: Generator

    ghost predicate Valid()
    {
      && (forall i, j | 0 <= i < j < |maps| :: maps[i] != maps[j] && maps[i].expectedType != maps[j].expectedType)
      && (forall i | 0 <= i < |maps| :: maps[i].generate == generate)
    }

    // The object types the cache renders at all.
    ghost predicate Renders(kind: Kind) {
      exists i | 0 <= i < |maps| :: maps[i].expectedType == kind
    }

    // What the cache holds for an object, whichever map it is in.
    ghost function Slot(k: ObjKey): Option<Families>
      reads maps
    {
      if i: int :| 0 <= i < |maps| && maps[i].expectedType == k.kind then
        Lookup(maps[i].metrics, Name(k.namespace, k.name))
      else None
    }

    constructor (generate: Generator)
      ensures Valid() && fresh(maps) && this.generate == generate
      ensures forall k :: Slot(k) == None
      ensures forall kind :: Renders(kind) <==> !kind.ServiceMonitor?
    {
      var pod := new PrometheusDataMap(Pod, generate);
      var service := new PrometheusDataMap(Service, generate);
      var pvc := new PrometheusDataMap(PersistentVolumeClaim, generate);
      var meterdef := new PrometheusDataMap(MeterDefinitionKind, generate);
      maps := [pod, service, pvc, meterdef];
      this.generate := generate;
      new;
      assert maps[0].expectedType == Pod && maps[1].expectedType == Service;
      assert maps[2].expectedType == PersistentVolumeClaim && maps[3].expectedType == MeterDefinitionKind;
    }

    method Add(obj: Object, defs: seq<Definition>) returns (ok: bool)
      requires Valid()
      modifies maps
      ensures ok <==> Renders(obj.key.kind)
      ensures Slot(obj.key) == if ok then Some(generate(obj, defs)) else None
      ensures forall k | k != obj.key :: Slot(k) == old(Slot(k))
    {
      ok := false;
      for i := 0 to |maps|
        invariant ok <==> exists j | 0 <= j < i :: maps[j].expectedType == obj.key.kind
        invariant forall j | 0 <= j < |maps| ::
          maps[j].metrics == if j < i && maps[j].expectedType == obj.key.kind
                             then old(maps[j].metrics)[NameOf(obj) := generate(obj, defs)]
                             else old(maps[j].metrics)
      {
        if maps[i].expectedType == obj.key.kind {
          ok := true;
          var _ := maps[i].Add(obj, defs);
        }
      }
    }

    method Remove(obj: Object)
      requires Valid()
      modifies maps
      ensures Slot(obj.key) == None
      ensures forall k | k != obj.key :: Slot(k) == old(Slot(k))
    {
      for i := 0 to |maps|
        invariant forall j | 0 <= j < |maps| ::
          maps[j].metrics == if j < i && maps[j].expectedType == obj.key.kind
                             then old(maps[j].metrics) - {NameOf(obj)}
                             else old(maps[j].metrics)
      {
        if maps[i].expectedType == obj.key.kind {
          maps[i].Remove(obj);
        }
      }
    }
  }

  // Replays one change of an indexed object into the cache.
  class PrometheusProcessor {
    const data: PrometheusData

    constructor (data: PrometheusData)
      ensures this.data == data
    {
      this.data := data;
    }

    method Process(d: Delta<Entry>) returns (ok: bool)
      requires data.Valid()
      modifies data.maps
      ensures ok <==> IsDelete(d) || data.Renders(d.obj.obj.key.kind)
      ensures forall k | k != d.obj.obj.key :: data.Slot(k) == old(data.Slot(k))
      ensures data.Slot(d.obj.obj.key)
        == VP.Apply(EntryRendering(Rendered(data), data.generate), d, old(data.Slot(d.obj.obj.key)))
      ensures d.typ.Deleted? ==> data.Slot(d.obj.obj.key) == None
      ensures d.typ.Tombstone? ==> data.Slot(d.obj.obj.key) == old(data.Slot(d.obj.obj.key))
      ensures (d.typ.Added? || d.typ.Updated? || d.typ.Sync? || d.typ.Replaced?) && data.Renders(d.obj.obj.key.kind) ==>
        data.Slot(d.obj.obj.key) == Some(data.generate(d.obj.obj, d.obj.defs))
    {
      match d.typ
      case Deleted =>
        data.Remove(d.obj.obj);
        return true;
      case Tombstone =>
        // the object is not of the expected type; logged and dropped
        return true;
      case _ =>
        ok := data.Add(d.obj.obj, d.obj.defs);
    }
  }

  // Replays one change of a definition; every type but Added removes first and then adds.
  class PrometheusMdefProcessor {
    const data: PrometheusData

    constructor (data: PrometheusData)
      ensures this.data == data
    {
      this.data := data;
    }

    method Process(d: Delta<Definition>) returns (ok: bool)
      requires data.Valid() && data.Renders(MeterDefinitionKind)
      modifies data.maps
      ensures ok <==> !d.typ.Tombstone?
      ensures forall k | k != AsObject(d.obj).key :: data.Slot(k) == old(data.Slot(k))
      ensures data.Slot(AsObject(d.obj).key)
        == VP.Apply(DefinitionRendering(data.generate), d, old(data.Slot(AsObject(d.obj).key)))
      ensures var slot := ObjKey(MeterDefinitionKind, d.obj.key.namespace, d.obj.key.name);
        && (d.typ.Deleted? ==> data.Slot(slot) == None)
        && (d.typ.Tombstone? ==> data.Slot(slot) == old(data.Slot(slot)))
        && (d.typ.Added? || d.typ.Updated? || d.typ.Sync? || d.typ.Replaced? ==>
              data.Slot(slot) == Some(data.generate(Object(slot, d.obj.uid, d.obj.generation, d.obj.body), [])))
    {
      match d.typ
      case Deleted =>
        data.Remove(AsObject(d.obj));
        return true;
      case Tombstone =>
        return false;
      case Added =>
        ok := data.Add(AsObject(d.obj), []);
      case _ =>
        data.Remove(AsObject(d.obj));
        ok := data.Add(AsObject(d.obj), []);
    }
  }

  ghost function Rendered(data: PrometheusData): Kind -> bool {
    kind => data.Renders(kind)
  }

  // The scraped cache is meant to show exactly the matched objects of the rendered types.
  function EntryRendering(rendered: Kind -> bool, generate: Generator): VP.Rendering<ObjKey, Entry, Families> {
    VP.Rendering(
      (v: Entry) => v.obj.key,
      (v: Entry) => if rendered(v.obj.key.kind) then Some(generate(v.obj, v.defs)) else None,
      (v: Entry) => if rendered(v.obj.key.kind) && v.defs != [] then Some(generate(v.obj, v.defs)) else None)
  }

  function DefinitionRendering(generate: Generator): VP.Rendering<DefKey, Definition, Families> {
    VP.Rendering((d: Definition) => d.key, (d: Definition) => Some(generate(AsObject(d), [])),
                 (d: Definition) => Some(generate(AsObject(d), [])))
  }
}
