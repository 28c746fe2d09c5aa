/** What a verb or hook handler is, seen from the dispatch machinery: an
    opaque identity and a result (src/verb.rs, `Verb` and `VerbOutput`). */
module Handlers {
  import opened Wrappers
  import opened Errors

  /** A registered handler closure, known only by its identity. */
  type HandlerId = nat

  /** A handler's success value (`serde_json::Value`): `Null`, which the hook
      batch returns, or some other value the model does not look into. */
  datatype Value = Null | Other(id: nat)

  /** What a handler returns. */
  type VerbOutput = Result<Value, MudError>
}
