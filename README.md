# openapi-typescript-cli: the code generator

This project models the code generator of `openapi-typescript-cli`. The generator
takes an OpenAPI 3 document that is already parsed. It produces two TypeScript texts:

- a declaration file, `<name>.d.ts`, with one `export interface` per component
  schema, followed by the query-parameter interfaces;
- an API file, `<name>.ts`, with one axios request stub per path and method,
  grouped into `export let <group> = { … }` blocks.

The model follows `generateApi` in `bin/index.js` and the example naming policy
in `middleware.example.js`.

Modules:

- `Common`: `Option` and `Result`. `Result.TypeError` stands for a JavaScript
  `TypeError` that the generator throws.
- `Text`: the string operations the generator relies on.
  - `String.prototype.replace` with a string pattern removes only the first occurrence.
  - `replace(/\n/g, ' ')` turns every newline into a space.
- `OpenApi`: the document as values.
  - Every JSON object becomes a sequence of (key, value) pairs in document order.
  - A missing string field (`$ref`, `description`) is `""`, which is as falsy as `undefined`.
- `Resolve`: the `typeFormat` table and three separate type resolvers, kept apart as
  the source writes them: component property, parameter, and body/response. It also
  holds the content-type preference order and the combined parameter type `_pType`.
- `PathTemplate`: the global rewrite of `{name}` placeholders in the URL. It also
  gives the placeholder name that the regular-expression engine keeps as `RegExp.$1`
  afterwards.
- `Grouping`:
  - the route test `/\/(\w*)\/(\w*)\/(\w*)$/` and the default group derived from its captures;
  - the naming-policy override rule;
  - the buckets of `apiGroups`, created on first use, filled in push order and emitted
    in creation order.
- `Middleware`: the shipped example naming policy, as a pure function.
- `Stubs`: one generation run as functions of the document.
  - These cover the component interface texts, the query interfaces, the stub text, and
    the walk over paths and methods (`VisitPaths`, a fold over `GenState`).
  - They also give the two output files (`Generate`), plus lemmas that state the
    outputs in terms of the document: the query interfaces in visit order, and one
    stub per (path, method, operation) of the document, in visit order.
- `Codegen`: the generator as the source runs it, built with loops.
  - Class `Generator` keeps `interfaceCode`, `localInterface` and the engine's
    captures as fields.
  - `GenApis` and `GenInterface` build the texts with `+=` loops, each proved against
    the `Stubs` functions.
  - `GenerateApi` makes the fixed call order `genApis(); genInterface();` and is
    proved to return exactly `Stubs.Generate`.

JavaScript behaviours stated explicitly:

- Template-literal coercion: `typeFormat[kind]` for a kind outside the table is
  `undefined` and prints as `undefined`.
- `typeFormat[undefined]` finds the key `"undefined"` and gives `any`.
- `operation?.tags?.[0] || {}` makes the tag `{}` for an untagged operation. The
  example policy passes that object on as `moduleName`, which is truthy, so the
  group key becomes `[object Object]`.
- `RegExp.$1`-`$3` are process-wide state.
  - The route test at bin/index.js:129 sets them only when it matches.
  - `replace(/\n/g, ' ')` at :243 clears them when the description has a newline.
  - The placeholder rewrite at :244 leaves the last placeholder name in `$1`.
  - The model threads this state as `Captures`, starting from a value the caller gives.
- Exceptions: a missing `items` on an array property (:103) or an array parameter
  (:178), and a missing `components` (:96), throw. The `catch` at :281 only logs, so
  each file is written or not. The outputs are `Option` texts:
  - a throw in `genApis` prevents both files;
  - a throw in `genInterface` prevents only the declaration file.

Two facts about the source that a reader might not expect:

- Type resolution is not total. bin/index.js:103 and :178 throw on an array without
  `items`, and a kind outside the table prints `undefined` (:110, :183).
- Parameter locations (`in`) are never read. Every parameter becomes an entry of
  `params` (:248-251). Every parameter that has a `schema` becomes a member of the
  query interface (:165); one without a `schema` gets no member.

## Model

| member | source | states |
|---|---|---|
| Text.RemoveFirstAt | bin/index.js:107 | Removing the schema prefix cuts out exactly its first occurrence and keeps the text on both sides |
| Text.RemoveFirstAbsent | bin/index.js:168 | A `$ref` without the prefix is left unchanged by the removal |
| Text.RemovePrefix | bin/index.js:107 | A `$ref` that starts with the prefix becomes the text after it |
| Text.RemoveOnlyFirst | bin/index.js:199 | A prefix occurring twice is removed once, so one copy survives |
| Text.SpaceNewlines | bin/index.js:243 | Same length as the input; each character is kept except newlines, which become spaces; no newline is left |
| Text.SpaceNewlinesIdempotent | bin/index.js:243 | Replacing newlines twice gives the same text as once |
| OpenApi.Lookup | bin/index.js:220 | A key lookup finds nothing exactly when no pair has that key |
| OpenApi.LookupFirst | bin/index.js:220 | A found value belongs to the first pair with that key |
| Resolve.TypeFormat | bin/index.js:83-93 | An absent kind gives `any`; a present kind gives a type exactly when the table has an entry for it |
| Resolve.ComponentPropType | bin/index.js:102-111 | A component property throws exactly when it is an array without `items` |
| Resolve.ParamType | bin/index.js:166-186 | A parameter schema throws exactly when it has no `$ref`, is an array, and has no `items` |
| Resolve.FirstPresentSpec | bin/index.js:195 | The selected content is absent exactly when no preferred type is present; otherwise it is the entry of the first present one, and every earlier one is absent |
| Resolve.JsonPreferred | bin/index.js:195 | `application/json`, when present, always wins |
| Resolve.NoContentIsAny | bin/index.js:222-235 | Missing or unmatched content gives the type `any` |
| Resolve.CombineParamTypesSpec | bin/index.js:241 | The combined type is `any` when neither part is informative, the one part when one is, and `Q \| P \| any` when both are |
| Resolve.ComponentPrimitive | bin/index.js:83-93 | string→string, number/integer→number, boolean→boolean, absent/object/null/any→any; the `array` table entry is `any[]`, which an array of item type `array` turns into `any[][]` |
| Resolve.ComponentArray | bin/index.js:102-105 | A component array gives `Name[]` for an item `$ref`, the mapped type plus `[]` for a known item kind, and `any[]` when the item kind is unknown or absent (the `?? 'any'` fallback) |
| Resolve.References | bin/index.js:106-108 | A component `$ref` gives the bare name; the same ref as a parameter, body or response gives `Type.` plus the name, and also as array items |
| Resolve.ForeignRefIgnored | bin/index.js:106-110 | A component `$ref` outside `#/components/schemas/` is ignored, and the table type is used |
| Resolve.BodyAgreesWithParam | bin/index.js:196-215 | Where the parameter resolver does not throw, the body resolver gives the same type |
| Resolve.BodyArrayWithoutItems | bin/index.js:209 | A body array without `items` gives `any[]`, while the parameter resolver throws on it |
| PathTemplate.RewritePlaceholder | bin/index.js:244 | `{name}` becomes `${parms[name]}`, and `$1` is the name unless a later placeholder matches |
| PathTemplate.RewriteAppendPlain | bin/index.js:244 | Text without `{` is copied unchanged and sets no capture |
| PathTemplate.BraceFree | bin/index.js:244 | A path without `{` is unchanged, and the engine's captures are kept |
| PathTemplate.RewriteLength | bin/index.js:244 | The rewrite never shortens the path, and it lengthens the path when a placeholder matched |
| PathTemplate.RewriteUnmatched | bin/index.js:244 | With no placeholder matched, the rewrite is the identity |
| PathTemplate.RewriteChangesIffMatched | bin/index.js:244 | The path changes exactly when a placeholder matched, that is, exactly when `$1` is updated |
| PathTemplate.InterpolationClean | bin/index.js:244 | The replacement text `${parms[name]}` contains no placeholder, whatever follows it |
| PathTemplate.NoPlaceholderLeft | bin/index.js:244 | After the global rewrite, no `{\w+}` placeholder is left anywhere in the URL |
| PathTemplate.SinglePlaceholderPath | bin/index.js:244 | `/pet/{petId}/uploadImage` style paths become `/pet/${parms[petId]}/uploadImage`, and `$1` is `petId` |
| Grouping.SplitLast | bin/index.js:129 | The split is at the last `/`: absent exactly when there is none, and it reassembles the path |
| Grouping.RouteTailSound | bin/index.js:129 | A match yields three word-only segments that end the path, separated by `/` |
| Grouping.RouteTailComplete | bin/index.js:129 | Every path ending in three word-only segments matches, with those segments as captures |
| Grouping.GroupOfMatchingPath | bin/index.js:129-130 | For a path ending in `/a/b/c`, the group is b, else a, else `dftGroup`, whatever earlier matches left |
| Grouping.StoreOrderPathDoesNotMatch | bin/index.js:129-130 | `/store/order/{orderId}` does not match, so its group comes from the stale captures |
| Grouping.TagOf | bin/index.js:137 | A tag used as a name is never empty |
| Grouping.AddToGroupKeys | bin/index.js:149-151 | A push creates a bucket at the end exactly when the group is new |
| Grouping.AddToGroupLookup | bin/index.js:261 | A push appends the stub to its own bucket and leaves every other bucket unchanged |
| Grouping.BucketOrder | bin/index.js:266 | Buckets are emitted in order of each group's first appearance |
| Grouping.FirstAppearancesSameElements | bin/index.js:149-151 | Every group that receives a stub has a bucket, and every bucket belongs to such a group |
| Grouping.BucketContents | bin/index.js:261 | A group's bucket holds exactly that group's stubs in push order; a group without stubs has no bucket |
| Grouping.AddToGroupTotal | bin/index.js:261 | Each push adds exactly one stub in total |
| Grouping.BucketTotal | bin/index.js:261 | The buckets together hold exactly as many stubs as were pushed |
| Middleware.ExamplePolicyReadsOnlyTag | middleware.example.js:16-20 | The result depends on nothing but the tag |
| Middleware.ExamplePolicyNames | middleware.example.js:18-19 | Under the override rule at bin/index.js:144-145 the function name stays `operationId`; a non-empty tag name becomes the group; an untagged operation goes to `[object Object]` |
| Middleware.ExamplePolicyOperation | middleware.example.js:18 | For any operation of the document and any captures: the function name is its `operationId`; an operation whose first tag is a non-empty string is grouped under that tag, any other under `[object Object]` |
| Stubs.PropertyLinesThrow | bin/index.js:100-112 | A component interface throws exactly when one of its properties is an array without `items` |
| Stubs.QueryMembersSkipUntyped | bin/index.js:165 | A parameter without a schema adds no member to the query interface |
| Stubs.QueryMembersThrow | bin/index.js:163-188 | The query interface throws exactly when some parameter's schema throws in the parameter resolver |
| Stubs.EmptyQueryInterface | bin/index.js:158-189 | An empty `parameters` list still gives a `QueryType<operationId>` interface, with no members |
| Stubs.ParamEntriesInOrder | bin/index.js:247-252 | The `params` object has one `name: param?.name,` entry per parameter, in order |
| Stubs.NoOkResponseIsAny | bin/index.js:218-220 | Without `responses`, or without a `200` response among them, the response type is `any` |
| Stubs.UnionParamType | bin/index.js:241 | With parameters and an informative body, the parameter type is `Type.QueryType<id> \| <body> \| any` |
| Stubs.VisitOp | bin/index.js:129-261 | One operation fails exactly when its query interface throws; otherwise it appends that interface and pushes exactly one stub for this path, method and operation, with the group and function name of `NamesOf` on the captures the route test leaves |
| Stubs.VisitMethodsSummary | bin/index.js:127-263 | The methods of a path succeed exactly when no query interface throws; then their query interfaces are appended in order, one stub per method |
| Stubs.VisitPathsSummary | bin/index.js:124-264 | The whole walk succeeds exactly when no query interface throws; then `localInterface` gains every query interface in visit order, and one stub is pushed per operation |
| Stubs.VisitMethodsPushes | bin/index.js:127-263 | On success the methods of a path keep the stubs already pushed and push one stub per method, for that path and method, in order |
| Stubs.VisitPathsPushes | bin/index.js:124-264 | On success the walk keeps the stubs already pushed and pushes one stub per (path, method, operation) of the document, in visit order |
| Stubs.DeclarationsText | bin/index.js:277-278 | The `.d.ts` text is written exactly when neither generator throws; it is the component interfaces in document order, then the heading, then the query interfaces in visit order |
| Stubs.ApiText | bin/index.js:119-276 | The API file is written exactly when no query interface throws; it is the import header followed by the group blocks; the stubs pushed are those of the document's (path, method, operation) triples, one each, in visit order |
| Codegen.Generator.constructor | bin/index.js:62-63 | A fresh run starts with empty `interfaceCode` and `localInterface` and the engine's given captures |
| Codegen.Generator.AppendQueryInterface | bin/index.js:160-189 | Succeeds exactly when no parameter throws; then `localInterface` gains exactly `QueryType<id>`'s interface |
| Codegen.Generator.TestRoute | bin/index.js:129 | The captures become the route's segments on a match and stay as they were otherwise |
| Codegen.Generator.ResolveNames | bin/index.js:129-146 | Group and function name are computed from the current captures, the operation and the policy |
| Codegen.Generator.RecordStubCaptures | bin/index.js:243-244 | The captures after the two regular-expression replaces of the stub |
| Codegen.Generator.VisitOperation | bin/index.js:129-261 | One operation's step: fails exactly when the step function fails; otherwise the fields and the returned (group, stub text) are the step's |
| Codegen.Generator.VisitMethodsCode | bin/index.js:127-263 | The inner loop leaves the fields and the rendered buckets exactly as the fold over the methods says, or fails exactly when it does |
| Codegen.Generator.VisitPathsCode | bin/index.js:123-264 | The outer loop computes the whole walk: the buckets, `localInterface` and the captures |
| Codegen.Generator.GenApis | bin/index.js:119-276 | Returns the API file of the walk, or nothing when the walk throws, and leaves the fields as the walk does |
| Codegen.Generator.GenInterface | bin/index.js:95-117 | Returns the component interfaces, the heading and `localInterface`, or nothing when `components` is missing or a property throws |
| Codegen.GenerateApi | bin/index.js:277-278 | `genApis(); genInterface();` on a fresh generator returns exactly the two files of one run |
| Codegen.QueryMembersCode | bin/index.js:163-188 | The parameter loop computes the query interface's members, or the throw |
| Codegen.PropertyLinesCode | bin/index.js:100-112 | The property loop computes an interface's member lines, or the throw |
| Codegen.InterfaceCode | bin/index.js:98-113 | One component's interface text, or the throw |
| Codegen.InterfacesCode | bin/index.js:97-114 | The schema loop computes every component's interface in order, or the first throw |
| Codegen.StubCode | bin/index.js:241-259 | The stub built line by line is the stub text of the operation |
| Codegen.ParamsText | bin/index.js:247-252 | The `params` loop computes the `params` object |
| Codegen.ConcatText | bin/index.js:268-270 | A bucket's stubs are concatenated in push order |
| Codegen.EmitGroupsText | bin/index.js:266-272 | One `export let <group> = {…}` block per bucket, in bucket order |

## Left out

- CLI options, console output, the network fetch and file I/O (bin/index.js:8-60, 64-73, 75-82, 115-116, 274-275; the `let interfaceCode`/`let localInterface` at :62-63 and the `try` at :74 with its `catch` at :281 are modelled). These are plumbing. The model takes the parsed document and returns the two texts.
- Loading the naming policy with `require` (bin/index.js:141-142): the policy is a function parameter.
  - In the source, `path` at line 141 is the loop's string, not Node's `path` module, so `path.resolve` throws whenever a policy is configured. The model does not reproduce that crash. It models the override rule at :143-145 as if loading worked.
- JavaScript key order of the input: integer-like keys enumerate first, and non-method keys of a path item (`parameters`, `summary`) are visited as operations. The model takes pairs in the order given.
- Group emission order (bin/index.js:266): `apiGroups` is a plain object, so `for…in` emits integer-like group names (such as `2023` from `/api/2023/items`) before the others. `Grouping.BucketOrder` and `EmitGroups` use first-appearance order for every name, so the model differs for such names.
- Duplicate JSON keys: `JSON.parse` keeps the last value of a repeated key. `Lookup` takes the first pair, and the walks visit every pair. So the model assumes keys are distinct within each object, and differs from the source where they are not.
- Prototype keys (`constructor`, `__proto__`) as schema or group names are not modelled.
- Prototype keys as `type` values: `typeFormat['constructor']` (bin/index.js:110, :183) finds `Object`'s constructor and prints a function's source text. `TypeFormat` gives `undefined` for every kind outside the table.
- A JSON `null` media-type entry: the `||` chain at bin/index.js:195 and :222 skips it and tries the next type. `FirstPresent` selects any entry that is present, because a media type in the model cannot be `null`.
- Field types: `operationId`, parameter `name` and `type` are strings in the model.
  - In the source, a missing `operationId` or `name` would print as `undefined`.
  - A non-string `type` would take other paths through the table.
- A naming policy that uses regular expressions, and so changes `RegExp.$1`-`$3`, is not modelled. Neither are regular expressions run by other code between iterations. The captures the engine holds when the run starts are a parameter.
- Generator.AppendQueryInterface: when a parameter throws, the model does not state the partial `localInterface` text. The member loop runs on a local, and the whole output is then discarded.
- Generator.GenInterface: when a property throws, the model does not state the partial `interfaceCode`, which the source has already extended. The declaration file is not written in either case.
- Generator.VisitMethodsCode: the bucket that the source creates for an operation before its query interface throws is not modelled. The API file is not written in that case.
- `request.js`, `bin/request.js` and the generated `example/` files are not part of this model. They configure axios or are outputs.
