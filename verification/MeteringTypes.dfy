/** The values the metering stores pass around. */
module MeteringTypes {
  datatype Kind = Pod | Service | PersistentVolumeClaim | ServiceMonitor | MeterDefinitionKind

  datatype ObjKey = ObjKey(kind: Kind, namespace: string, name: string)

  // A cluster object; `body` stands for everything the rendering reads but the stores do not.
  datatype Object = Object(key: ObjKey, uid: string, generation: int, body: string)

  datatype DefKey = DefKey(namespace: string, name: string)

  datatype Definition = Definition(key: DefKey, uid: string, generation: int, body: string)

  // An indexed object with the definitions that matched it.
  datatype Entry = Entry(obj: Object, defs: seq<Definition>)

  // The rendered metric families of one object.
  type Families = seq<string>

  type Generator = (Object, seq<Definition>) -> Families

  // A definition is rendered like any other object, with no definitions attached.
  function AsObject(d: Definition): Object {
    Object(ObjKey(MeterDefinitionKind, d.key.namespace, d.key.name), d.uid, d.generation, d.body)
  }

  function DefKeys(defs: seq<Definition>): set<DefKey> {
    set d | d in defs :: d.key
  }
}
