/** The shipped naming policy, middleware.example.js: the module name is the
    operation's tag, and the function name is left to the default. */
module Middleware {
  import opened Common
  import opened OpenApi
  import opened Grouping
  import opened Stubs

  /** `({operationId, description, path, method, tag}) => ({moduleName: tag, functionName: ''})`. */
  function ExamplePolicy(ctx: OperationContext): NamingOverride {
    NamingOverride(TagText(ctx.tag), "")
  }

  /** Only the tag is read. */
  lemma ExamplePolicyReadsOnlyTag(a: OperationContext, b: OperationContext)
    requires a.tag == b.tag
    ensures ExamplePolicy(a) == ExamplePolicy(b)
  {
  }

  /** With this policy the function name stays the operationId, and a tagged
      operation is grouped under its tag, whatever the path suggested. */
  lemma ExamplePolicyNames(group: string, ctx: OperationContext)
    ensures Names(group, ctx.operationId, Some(ExamplePolicy(ctx))).1 == ctx.operationId
    ensures ctx.tag.TagName? && ctx.tag.name != "" ==> Names(group, ctx.operationId, Some(ExamplePolicy(ctx))).0 == ctx.tag.name
    ensures ctx.tag.EmptyObject? ==> Names(group, ctx.operationId, Some(ExamplePolicy(ctx))).0 == "[object Object]"
  {
  }

  /** For an operation of the document: the function name is its operationId,
      an operation whose first tag is a non-empty string is grouped under that
      tag, and any other operation under `[object Object]`, whatever the path
      and the engine's captures suggested. */
  lemma ExamplePolicyOperation(c: Captures, path: string, httpMethod: string, op: Operation)
    ensures NamesOf(c, path, httpMethod, op, Some(ExamplePolicy)).1 == op.operationId
    ensures op.tags.Some? && |op.tags.value| > 0 && op.tags.value[0] != "" ==>
              NamesOf(c, path, httpMethod, op, Some(ExamplePolicy)).0 == op.tags.value[0]
    ensures !(op.tags.Some? && |op.tags.value| > 0 && op.tags.value[0] != "") ==>
              NamesOf(c, path, httpMethod, op, Some(ExamplePolicy)).0 == "[object Object]"
  {
    ExamplePolicyNames(DefaultGroup(c), ContextOf(op, path, httpMethod));
  }
}
