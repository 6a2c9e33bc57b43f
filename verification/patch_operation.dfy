/**
 One patch instruction of an image update: a kind, the attribute path it targets and an
 optional JSON value. The parser from wire text to kind is not part of this model; the
 operations that need it take it as a parameter.
 */
module PatchOperation {
  import opened Wrappers
  import opened Json

  datatype OpKind = Unrecognized | Add | Replace | Remove

  datatype PatchOperation = PatchOperation(kind: OpKind, path: string, value: Option<Json>)
}
