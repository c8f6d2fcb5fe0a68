/** Resource identity, metadata and typed specs: the values the store holds. */
module Resources {

  datatype Option<+T> = None | Some(value: T)

  datatype Error =
    | NotFound(key: Key)
    | AlreadyExists(key: Key)
    | Conflict(key: Key, expected: nat, found: nat)
    | HasFinalizers(key: Key)
    | Controller(message: string)

  datatype Result<+T> = Ok(value: T) | Err(error: Error)

  /** The types that appear in the modelled controllers; `OtherType` stands for the rest. */
  datatype ResourceType =
    | AddressSpecType
    | AddressStatusType
    | OtherType(name: string)

  datatype Phase = Running | TearingDown

  datatype Key = Named(namespace: string, typ: ResourceType, id: string)

  datatype Metadata = Metadata(
    namespace: string,
    typ: ResourceType,
    id: string,
    version: nat,
    owner: Option<string>,
    finalizers: seq<string>,
    phase: Phase)

  datatype AddrCidr = AddrCidr(ip: nat, prefix: nat)

  datatype Resource =
    | AddressSpec(link: string, address: AddrCidr)
    | AddressStatus(link: string, address: AddrCidr)
    | Other(typ: ResourceType, payload: string)

  datatype Object = Object(metadata: Metadata, spec: Resource) {
    function Key(): Key {
      Named(metadata.namespace, metadata.typ, metadata.id)
    }
  }

  function TypeOf(spec: Resource): ResourceType {
    match spec
    case AddressSpec(_, _) => AddressSpecType
    case AddressStatus(_, _) => AddressStatusType
    case Other(typ, _) => typ
  }

  /** A fresh object: version 0, no owner, no finalizers; the type is taken from the spec. */
  function NewObject(namespace: string, id: string, spec: Resource): Object {
    Object(Metadata(namespace, TypeOf(spec), id, 0, None, [], Running), spec)
  }
}
