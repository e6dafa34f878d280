/** Kinds of API objects. */
module Kinds {
  datatype GroupKind = GroupKind(group: string, kind: string)

  datatype Kind = Kind(group: string, version: string, kind: string) {
    function Target(): GroupKind { GroupKind(group, kind) }
  }
}
