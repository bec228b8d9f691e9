/** The texts one generation run produces, as functions of the document:
    the component interfaces (`genInterface`, bin/index.js:95-117), the
    query interfaces and request stubs (`genApis`, :119-276) and the fixed
    call order (:277-278). The Generator module computes the same texts
    with the source's loops. */
module Stubs {
  import opened Common
  import opened Text
  import opened OpenApi
  import opened Resolve
  import opened PathTemplate
  import opened Grouping

  const QueryHeading := "\n//查询组合类型\n"

  /** Each line followed by a newline. */
  function Lines(ls: seq<string>): string {
    if ls == [] then "" else ls[0] + "\n" + Lines(ls[1..])
  }

  /** The three import lines of the API file and a blank line (line 120). */
  function ApiHeader(fileName: string): string {
    Lines(["import request from \"./request\"", "import { AxiosRequestConfig } from 'axios'",
           "import * as Type from './" + fileName + ".d'", ""])
  }

  // ---------------------------------------------------------------------
  // Component interfaces.

  function Comment(d: string): string {
    if d != "" then "//" + d else ""
  }

  /** One member line: always optional, with the description as a trailing comment. */
  function PropertyLine(name: string, p: Schema): Result<string> {
    var t := ComponentPropType(p);
    if t.TypeError? then TypeError else Ok("  " + name + "?: " + t.value + "; " + Comment(p.description) + "\n")
  }

  function PropertyLines(props: seq<(string, Schema)>): Result<string> {
    if props == [] then Ok("")
    else
      var init := PropertyLines(props[..|props| - 1]);
      var last := PropertyLine(props[|props| - 1].0, props[|props| - 1].1);
      if init.TypeError? || last.TypeError? then TypeError else Ok(init.value + last.value)
  }

  function InterfaceHeader(name: string, s: ComponentSchema): string {
    (if s.description != "" then "//" + s.description + "\n" else "") + "export interface " + name + " {\n"
  }

  function InterfaceText(name: string, s: ComponentSchema): Result<string> {
    var body := PropertyLines(s.properties);
    if body.TypeError? then TypeError else Ok(InterfaceHeader(name, s) + body.value + "}\n\n")
  }

  function InterfacesText(schemas: seq<(string, ComponentSchema)>): Result<string> {
    if schemas == [] then Ok("")
    else
      var init := InterfacesText(schemas[..|schemas| - 1]);
      var last := InterfaceText(schemas[|schemas| - 1].0, schemas[|schemas| - 1].1);
      if init.TypeError? || last.TypeError? then TypeError else Ok(init.value + last.value)
  }

  /** A component interface throws exactly when one of its array properties has no `items`. */
  lemma {:induction false} PropertyLinesThrow(props: seq<(string, Schema)>)
    ensures PropertyLines(props).TypeError? <==>
            exists i :: 0 <= i < |props| && props[i].1.kind == Some("array") && props[i].1.items.None?
  {
    if props != [] {
      var init := props[..|props| - 1];
      PropertyLinesThrow(init);
      assert forall i :: 0 <= i < |init| ==> init[i] == props[i];
    }
  }

  /** The first property that throws aborts its interface. */
  lemma {:induction false} PropertyLinesAbort(props: seq<(string, Schema)>, k: nat)
    requires k <= |props| && PropertyLines(props[..k]).TypeError?
    ensures PropertyLines(props).TypeError?
    decreases |props| - k
  {
    if k < |props| {
      assert props[..k + 1][..k] == props[..k];
      PropertyLinesAbort(props, k + 1);
    } else {
      assert props[..k] == props;
    }
  }

  /** The first component interface that throws aborts the whole file. */
  lemma {:induction false} InterfacesAbort(schemas: seq<(string, ComponentSchema)>, k: nat)
    requires k <= |schemas| && InterfacesText(schemas[..k]).TypeError?
    ensures InterfacesText(schemas).TypeError?
    decreases |schemas| - k
  {
    if k < |schemas| {
      assert schemas[..k + 1][..k] == schemas[..k];
      InterfacesAbort(schemas, k + 1);
    } else {
      assert schemas[..k] == schemas;
    }
  }

  // ---------------------------------------------------------------------
  // Query interfaces.

  function QueryMember(p: Parameter): Result<string> {
    if p.schema.None? then Ok("")
    else
      var t := ParamType(p.schema.value);
      if t.TypeError? then TypeError else Ok("  " + p.name + "?: " + t.value + ";\n")
  }

  function QueryMembers(ps: seq<Parameter>): Result<string> {
    if ps == [] then Ok("")
    else
      var init := QueryMembers(ps[..|ps| - 1]);
      var last := QueryMember(ps[|ps| - 1]);
      if init.TypeError? || last.TypeError? then TypeError else Ok(init.value + last.value)
  }

  function QueryTypeName(operationId: string): string {
    "QueryType" + operationId
  }

  function QueryInterface(operationId: string, ps: seq<Parameter>): Result<string> {
    var members := QueryMembers(ps);
    if members.TypeError? then TypeError
    else Ok("export interface " + QueryTypeName(operationId) + " {\n" + members.value + "}\n\n")
  }

  /** Only parameters with a schema get a member, in order; the others add nothing. */
  lemma {:induction false} QueryMembersSkipUntyped(ps: seq<Parameter>, p: Parameter)
    requires p.schema.None?
    ensures QueryMembers(ps + [p]) == QueryMembers(ps)
  {
    assert (ps + [p])[..|ps|] == ps;
    assert "" + "" == "";
    if QueryMembers(ps).Ok? { assert QueryMembers(ps).value + "" == QueryMembers(ps).value; }
  }

  /** An empty parameter list still gives an (empty) interface, as for `logoutUser`. */
  lemma EmptyQueryInterface(operationId: string)
    ensures QueryInterface(operationId, []) == Ok("export interface QueryType" + operationId + " {\n}\n\n")
  {
    assert QueryMembers([]) == Ok("");
    assert "export interface " + ("QueryType" + operationId) + " {\n" + "" + "}\n\n" ==
           "export interface QueryType" + operationId + " {\n}\n\n";
  }

  /** The first parameter that throws aborts the query interface. */
  lemma {:induction false} QueryMembersAbort(ps: seq<Parameter>, k: nat)
    requires k <= |ps| && QueryMembers(ps[..k]).TypeError?
    ensures QueryMembers(ps).TypeError?
    decreases |ps| - k
  {
    if k < |ps| {
      assert ps[..k + 1][..k] == ps[..k];
      QueryMembersAbort(ps, k + 1);
    } else {
      assert ps[..k] == ps;
    }
  }

  /** A parameter throws exactly when it is an array without `items` or an item reference. */
  lemma {:induction false} QueryMembersThrow(ps: seq<Parameter>)
    ensures QueryMembers(ps).TypeError? <==>
            exists i :: 0 <= i < |ps| && ps[i].schema.Some? && ParamType(ps[i].schema.value).TypeError?
  {
    if ps != [] {
      var init := ps[..|ps| - 1];
      QueryMembersThrow(init);
      assert forall i :: 0 <= i < |init| ==> init[i] == ps[i];
    }
  }

  // ---------------------------------------------------------------------
  // One request stub.

  /** `{name: param?.name,…}`: every parameter name, in order. */
  function ParamEntries(ps: seq<Parameter>): string {
    if ps == [] then ""
    else ParamEntries(ps[..|ps| - 1]) + ParamEntry(ps[|ps| - 1])
  }

  /** The entry `name: param?.name,` of one parameter in the `params` object. */
  function ParamEntry(p: Parameter): string {
    p.name + ": param?." + p.name + ","
  }

  /** The `params` object has exactly one entry per parameter, in order,
      whether or not the parameter has a schema. */
  lemma {:induction false} ParamEntriesInOrder(ps: seq<Parameter>)
    ensures ParamEntries(ps) == Concat(MapEach(ParamEntry, ps))
  {
    if ps != [] {
      var init := ps[..|ps| - 1];
      ParamEntriesInOrder(init);
      var m := MapEach(ParamEntry, ps);
      assert m[..|m| - 1] == MapEach(ParamEntry, init);
    }
  }

  function ParamsObject(ps: seq<Parameter>): string {
    "{" + ParamEntries(ps) + "}"
  }

  /** `description || summary || ''`. */
  function DescriptionOf(op: Operation): string {
    if op.description != "" then op.description else op.summary
  }

  function QueryTypeOf(op: Operation): string {
    if op.parameters.Some? then "Type." + QueryTypeName(op.operationId) else "any"
  }

  function BodyTypeOf(op: Operation): string {
    if op.requestBody.Some? then BodyType(NegotiatedSchema(op.requestBody.value.content)) else "any"
  }

  /** Only the `200` response is consulted; `responses['200'] || {}`. */
  function ResponseTypeOf(op: Operation): string {
    if op.responses.None? then "any"
    else
      var r := Lookup(op.responses.value, "200");
      BodyType(NegotiatedSchema(if r.Some? then r.value.content else None))
  }

  /** What one stub is made of: its function name, the path, the method and the operation. */
  datatype Stub = Stub(apiName: string, path: string, httpMethod: string, op: Operation)

  /** The stub text of lines 243-259. */
  function StubText(s: Stub): string {
    var Stub(apiName, path, httpMethod, op) := s;
    "\n    // " + SpaceNewlines(DescriptionOf(op)) + "\n    " + apiName + ": async (param: " +
      CombineParamTypes(BodyTypeOf(op), QueryTypeOf(op)) +
      ", opt: AxiosRequestConfig = {}): Promise<" + ResponseTypeOf(op) + "> => await request({\n" +
    "      url: '" + Rewrite(path) + "',\n" +
    "      method: '" + httpMethod + "',\n" +
    (if op.parameters.Some? then "      params: " + ParamsObject(op.parameters.value) + ",\n" else "") +
    (if op.requestBody.Some? then "      data: param,\n" else "") +
    "      ...opt,\n" +
    "    }),\n"
  }

  /** No `responses` at all, or no `200` among them, gives the response type 'any'. */
  lemma NoOkResponseIsAny(op: Operation)
    requires op.responses.None? || Lookup(op.responses.value, "200").None?
    ensures ResponseTypeOf(op) == "any"
  {
  }

  /** An operation with both parameters and a body takes the union of its
      query type, its body type and 'any' (when the body type is not 'any'). */
  lemma UnionParamType(op: Operation)
    requires op.parameters.Some? && op.requestBody.Some? && BodyTypeOf(op) != "any"
    ensures CombineParamTypes(BodyTypeOf(op), QueryTypeOf(op)) ==
            "Type." + QueryTypeName(op.operationId) + " | " + BodyTypeOf(op) + " | any"
  {
    assert |QueryTypeOf(op)| > 3;
  }

  // ---------------------------------------------------------------------
  // The walk over paths and methods.

  /** What `genApis` carries from one operation to the next: the shared
      `localInterface` text, the engine's last captures, and the
      (group, stub) pairs pushed so far, whose buckets are `BucketAll(emitted)`. */
  datatype GenState = GenState(localInterface: string, captures: Captures, emitted: seq<(string, Stub)>)

  function ContextOf(op: Operation, path: string, httpMethod: string): OperationContext {
    OperationContext(op.operationId, DescriptionOf(op), path, httpMethod, TagOf(op))
  }

  /** The group and function name of one operation (lines 129-146). */
  function NamesOf(captures: Captures, path: string, httpMethod: string, op: Operation,
                   policy: Option<NamingPolicy>): (string, string)
  {
    Names(DefaultGroup(captures), op.operationId,
          if policy.Some? then Some(policy.value(ContextOf(op, path, httpMethod))) else None)
  }

  /** The engine's captures after the two `replace` calls with regular
      expressions at lines 243-244: `/\n/g` clears them when it matches,
      `/\{(\w+)\}/g` leaves the last placeholder name in `RegExp.$1`. */
  function CapturesAfterStub(c: Captures, path: string, op: Operation): Captures {
    var afterDescription := if '\n' in DescriptionOf(op) then Captures("", "", "") else c;
    var last := LastName(path);
    if last.Some? then Captures(last.value, "", "") else afterDescription
  }

  /** The query interface an operation appends to `localInterface`: one
      exactly when `parameters` is present, even as an empty list. */
  function QueryOf(op: Operation): Result<string> {
    if op.parameters.Some? then QueryInterface(op.operationId, op.parameters.value) else Ok("")
  }

  /** The state after an operation whose query interface is `query`. */
  function NextState(st: GenState, path: string, httpMethod: string, op: Operation,
                     policy: Option<NamingPolicy>, query: string): GenState
  {
    var caps := CapturesAfterTest(path, st.captures);
    var names := NamesOf(caps, path, httpMethod, op, policy);
    GenState(st.localInterface + query, CapturesAfterStub(caps, path, op),
             st.emitted + [(names.0, Stub(names.1, path, httpMethod, op))])
  }

  /** One iteration of the inner loop (lines 129-261): it fails exactly when the
      query interface throws; otherwise it appends that interface and pushes
      one stub for this path, method and operation, named and grouped from the
      captures the route test leaves. */
  function VisitOp(st: GenState, path: string, httpMethod: string, op: Operation,
                   policy: Option<NamingPolicy>): (r: Result<GenState>)
    ensures r.Ok? <==> QueryOf(op).Ok?
    ensures r.Ok? ==> r.value.localInterface == st.localInterface + QueryOf(op).value &&
                      var names := NamesOf(CapturesAfterTest(path, st.captures), path, httpMethod, op, policy);
                      r.value.emitted == st.emitted + [(names.0, Stub(names.1, path, httpMethod, op))]
  {
    var query := QueryOf(op);
    if query.TypeError? then TypeError else Ok(NextState(st, path, httpMethod, op, policy, query.value))
  }

  function VisitMethods(st: GenState, path: string, methods: seq<(string, Operation)>,
                        policy: Option<NamingPolicy>): Result<GenState>
  {
    if methods == [] then Ok(st)
    else
      var init := VisitMethods(st, path, methods[..|methods| - 1], policy);
      var last := methods[|methods| - 1];
      if init.TypeError? then TypeError else VisitOp(init.value, path, last.0, last.1, policy)
  }

  function VisitPaths(st: GenState, paths: seq<(string, seq<(string, Operation)>)>,
                      policy: Option<NamingPolicy>): Result<GenState>
  {
    if paths == [] then Ok(st)
    else
      var init := VisitPaths(st, paths[..|paths| - 1], policy);
      var last := paths[|paths| - 1];
      if init.TypeError? then TypeError else VisitMethods(init.value, last.0, last.1, policy)
  }

  /** One more method extends the walk by one operation. */
  lemma VisitMethodsStep(st: GenState, path: string, methods: seq<(string, Operation)>, j: nat,
                         policy: Option<NamingPolicy>)
    requires j < |methods| && VisitMethods(st, path, methods[..j], policy).Ok?
    ensures VisitMethods(st, path, methods[..j + 1], policy) ==
              VisitOp(VisitMethods(st, path, methods[..j], policy).value, path, methods[j].0, methods[j].1, policy)
  {
    assert methods[..j + 1][..j] == methods[..j];
  }

  /** One more path extends the walk by that path's methods. */
  lemma VisitPathsStep(st: GenState, paths: seq<(string, seq<(string, Operation)>)>, i: nat,
                       policy: Option<NamingPolicy>)
    requires i < |paths| && VisitPaths(st, paths[..i], policy).Ok?
    ensures VisitPaths(st, paths[..i + 1], policy) ==
              VisitMethods(VisitPaths(st, paths[..i], policy).value, paths[i].0, paths[i].1, policy)
  {
    assert paths[..i + 1][..i] == paths[..i];
  }

  /** A throw ends the walk over a path's methods: later methods cannot undo it. */
  lemma {:induction false} VisitMethodsAbort(st: GenState, path: string, methods: seq<(string, Operation)>,
                                             k: nat, policy: Option<NamingPolicy>)
    requires k <= |methods| && VisitMethods(st, path, methods[..k], policy).TypeError?
    ensures VisitMethods(st, path, methods, policy).TypeError?
    decreases |methods| - k
  {
    if k < |methods| {
      assert methods[..k + 1][..k] == methods[..k];
      VisitMethodsAbort(st, path, methods, k + 1, policy);
    } else {
      assert methods[..k] == methods;
    }
  }

  /** A throw ends the walk over the paths. */
  lemma {:induction false} VisitPathsAbort(st: GenState, paths: seq<(string, seq<(string, Operation)>)>,
                                           k: nat, policy: Option<NamingPolicy>)
    requires k <= |paths| && VisitPaths(st, paths[..k], policy).TypeError?
    ensures VisitPaths(st, paths, policy).TypeError?
    decreases |paths| - k
  {
    if k < |paths| {
      assert paths[..k + 1][..k] == paths[..k];
      VisitPathsAbort(st, paths, k + 1, policy);
    } else {
      assert paths[..k] == paths;
    }
  }

  // ---------------------------------------------------------------------
  // Emission.

  function Concat(parts: seq<string>): string {
    if parts == [] then "" else Concat(parts[..|parts| - 1]) + parts[|parts| - 1]
  }

  /** One `export let <group> = {…}` block. */
  function GroupText(name: string, stubs: seq<string>): string {
    "export let " + name + " = {\n" + Concat(stubs) + "}\n\n"
  }

  function EmitGroups(groups: Groups<string>): string {
    if groups == [] then ""
    else EmitGroups(groups[..|groups| - 1]) + GroupText(groups[|groups| - 1].0, groups[|groups| - 1].1)
  }

  /** The two output files; `None` when the run threw before writing it
      (the exception is caught at line 281). */
  datatype Outputs = Outputs(api: Option<string>, declarations: Option<string>)

  /** The API file: the header, then each group's stubs in its block. */
  function ApiFile(fileName: string, apis: Result<GenState>): Option<string> {
    if apis.TypeError? then None
    else Some(ApiHeader(fileName) + EmitGroups(MapGroups(StubText, BucketAll(apis.value.emitted))))
  }

  /** The declaration file: the component interfaces, the heading, and the
      query interfaces that the walk left in the shared `localInterface`. */
  function DeclarationsFile(doc: Document, apis: Result<GenState>): Option<string> {
    if apis.TypeError? || doc.components.None? then None
    else
      var interfaces := InterfacesText(doc.components.value);
      if interfaces.TypeError? then None
      else Some(interfaces.value + QueryHeading + apis.value.localInterface)
  }

  /** The walk of a fresh run: `localInterface` starts empty and the
      engine's captures start at `engine`. */
  function Walk(doc: Document, policy: Option<NamingPolicy>, engine: Captures): Result<GenState> {
    VisitPaths(GenState("", engine, []), doc.paths, policy)
  }

  /** `genApis(); genInterface();` on a fresh run. */
  function Generate(doc: Document, policy: Option<NamingPolicy>, fileName: string, engine: Captures): Outputs {
    var apis := Walk(doc, policy, engine);
    Outputs(ApiFile(fileName, apis), DeclarationsFile(doc, apis))
  }

  // ---------------------------------------------------------------------
  // What the run produces, stated independently of the walk.

  /** The query interfaces of all operations in visit order: they do not depend
      on group names, policies or the engine's captures. */
  function QueryInterfacesOfMethods(methods: seq<(string, Operation)>): Result<string> {
    if methods == [] then Ok("")
    else
      var init := QueryInterfacesOfMethods(methods[..|methods| - 1]);
      var q := QueryOf(methods[|methods| - 1].1);
      if init.TypeError? || q.TypeError? then TypeError else Ok(init.value + q.value)
  }

  function QueryInterfacesOf(paths: seq<(string, seq<(string, Operation)>)>): Result<string> {
    if paths == [] then Ok("")
    else
      var init := QueryInterfacesOf(paths[..|paths| - 1]);
      var q := QueryInterfacesOfMethods(paths[|paths| - 1].1);
      if init.TypeError? || q.TypeError? then TypeError else Ok(init.value + q.value)
  }

  function MethodCount(paths: seq<(string, seq<(string, Operation)>)>): nat {
    if paths == [] then 0 else MethodCount(paths[..|paths| - 1]) + |paths[|paths| - 1].1|
  }

  lemma {:induction false} VisitMethodsSummary(st: GenState, path: string, methods: seq<(string, Operation)>,
                                               policy: Option<NamingPolicy>)
    ensures VisitMethods(st, path, methods, policy).Ok? <==> QueryInterfacesOfMethods(methods).Ok?
    ensures VisitMethods(st, path, methods, policy).Ok? ==>
              VisitMethods(st, path, methods, policy).value.localInterface ==
                st.localInterface + QueryInterfacesOfMethods(methods).value &&
              |VisitMethods(st, path, methods, policy).value.emitted| == |st.emitted| + |methods|
  {
    if methods != [] {
      var init := methods[..|methods| - 1];
      var last := methods[|methods| - 1];
      VisitMethodsSummary(st, path, init, policy);
      var r := VisitMethods(st, path, init, policy);
      var q := QueryOf(last.1);
      assert VisitMethods(st, path, methods, policy) == if r.TypeError? then TypeError else VisitOp(r.value, path, last.0, last.1, policy);
      var qi := QueryInterfacesOfMethods(init);
      assert QueryInterfacesOfMethods(methods) == if qi.TypeError? || q.TypeError? then TypeError else Ok(qi.value + q.value);
      if r.Ok? && q.Ok? {
        AppendAssoc(st.localInterface, qi.value, q.value);
      }
    }
  }

  /** The walk succeeds exactly when no parameter throws; then the shared
      `localInterface` has gained every operation's query interface in visit
      order, and exactly one stub has been pushed per operation. */
  lemma {:induction false} VisitPathsSummary(st: GenState, paths: seq<(string, seq<(string, Operation)>)>,
                                             policy: Option<NamingPolicy>)
    ensures VisitPaths(st, paths, policy).Ok? <==> QueryInterfacesOf(paths).Ok?
    ensures VisitPaths(st, paths, policy).Ok? ==>
              VisitPaths(st, paths, policy).value.localInterface == st.localInterface + QueryInterfacesOf(paths).value &&
              |VisitPaths(st, paths, policy).value.emitted| == |st.emitted| + MethodCount(paths)
  {
    if paths != [] {
      var init := paths[..|paths| - 1];
      var last := paths[|paths| - 1];
      VisitPathsSummary(st, init, policy);
      var r := VisitPaths(st, init, policy);
      assert VisitPaths(st, paths, policy) == if r.TypeError? then TypeError else VisitMethods(r.value, last.0, last.1, policy);
      var qi := QueryInterfacesOf(init);
      var q := QueryInterfacesOfMethods(last.1);
      assert QueryInterfacesOf(paths) == if qi.TypeError? || q.TypeError? then TypeError else Ok(qi.value + q.value);
      assert MethodCount(paths) == MethodCount(init) + |last.1|;
      if r.Ok? {
        VisitMethodsSummary(r.value, last.0, last.1, policy);
        if q.Ok? {
          AppendAssoc(st.localInterface, qi.value, q.value);
        }
      }
    }
  }

  /** Which operation a pushed stub is for: its path, method and operation. */
  function StubKey(e: (string, Stub)): (string, string, Operation) {
    (e.1.path, e.1.httpMethod, e.1.op)
  }

  /** The operations of one path in visit order. */
  function MethodTriples(path: string, methods: seq<(string, Operation)>): seq<(string, string, Operation)> {
    if methods == [] then []
    else MethodTriples(path, methods[..|methods| - 1]) + [(path, methods[|methods| - 1].0, methods[|methods| - 1].1)]
  }

  /** Every (path, method, operation) of the document, flattened in visit order. */
  function Operations(paths: seq<(string, seq<(string, Operation)>)>): seq<(string, string, Operation)> {
    if paths == [] then []
    else Operations(paths[..|paths| - 1]) + MethodTriples(paths[|paths| - 1].0, paths[|paths| - 1].1)
  }

  lemma MapEachAppend<S, T>(f: S -> T, a: seq<S>, b: seq<S>)
    ensures MapEach(f, a + b) == MapEach(f, a) + MapEach(f, b)
  {
    assert MapEach(f, a + b) == MapEach(f, a) + MapEach(f, b);
  }

  /** Pushing `x` keeps the first `k` entries and extends the rest by `x`. */
  lemma PushedSuffix<S, T>(f: S -> T, prev: seq<S>, x: S, k: nat)
    requires k <= |prev|
    ensures (prev + [x])[..k] == prev[..k]
    ensures MapEach(f, (prev + [x])[k..]) == MapEach(f, prev[k..]) + [f(x)]
  {
    assert (prev + [x])[k..] == prev[k..] + [x];
    MapEachAppend(f, prev[k..], [x]);
  }

  /** The methods of a path keep the stubs already pushed and push one stub
      per method, for that path and method, in order. */
  lemma {:induction false} VisitMethodsPushes(st: GenState, path: string, methods: seq<(string, Operation)>,
                                              policy: Option<NamingPolicy>)
    ensures VisitMethods(st, path, methods, policy).Ok? ==>
              var e := VisitMethods(st, path, methods, policy).value.emitted;
              |st.emitted| <= |e| && e[..|st.emitted|] == st.emitted &&
              MapEach(StubKey, e[|st.emitted|..]) == MethodTriples(path, methods)
  {
    var k := |st.emitted|;
    if methods == [] {
      assert st.emitted[k..] == [];
    } else if VisitMethods(st, path, methods, policy).Ok? {
      var init := methods[..|methods| - 1];
      var last := methods[|methods| - 1];
      var r := VisitMethods(st, path, init, policy);
      assert VisitMethods(st, path, methods, policy) == VisitOp(r.value, path, last.0, last.1, policy);
      VisitMethodsPushes(st, path, init, policy);
      var names := NamesOf(CapturesAfterTest(path, r.value.captures), path, last.0, last.1, policy);
      var x := (names.0, Stub(names.1, path, last.0, last.1));
      assert VisitMethods(st, path, methods, policy).value.emitted == r.value.emitted + [x];
      PushedSuffix(StubKey, r.value.emitted, x, k);
    }
  }

  /** A sequence extended twice keeps its first part and maps to the two extensions in order. */
  lemma ExtendedTwice<S, T>(f: S -> T, s0: seq<S>, r: seq<S>, e: seq<S>)
    requires |s0| <= |r| <= |e| && r[..|s0|] == s0 && e[..|r|] == r
    ensures e[..|s0|] == s0
    ensures MapEach(f, e[|s0|..]) == MapEach(f, r[|s0|..]) + MapEach(f, e[|r|..])
  {
    assert e[|s0|..] == r[|s0|..] + e[|r|..];
    MapEachAppend(f, r[|s0|..], e[|r|..]);
  }

  /** The whole walk keeps the stubs already pushed and pushes one stub per
      operation of the document, in visit order. */
  lemma {:induction false} VisitPathsPushes(st: GenState, paths: seq<(string, seq<(string, Operation)>)>,
                                            policy: Option<NamingPolicy>)
    ensures VisitPaths(st, paths, policy).Ok? ==>
              var e := VisitPaths(st, paths, policy).value.emitted;
              |st.emitted| <= |e| && e[..|st.emitted|] == st.emitted &&
              MapEach(StubKey, e[|st.emitted|..]) == Operations(paths)
  {
    if paths == [] {
      assert st.emitted[|st.emitted|..] == [];
    } else if VisitPaths(st, paths, policy).Ok? {
      var init := paths[..|paths| - 1];
      var last := paths[|paths| - 1];
      var r := VisitPaths(st, init, policy);
      assert VisitPaths(st, paths, policy) == VisitMethods(r.value, last.0, last.1, policy);
      VisitPathsPushes(st, init, policy);
      VisitMethodsPushes(r.value, last.0, last.1, policy);
      ExtendedTwice(StubKey, st.emitted, r.value.emitted, VisitPaths(st, paths, policy).value.emitted);
    }
  }

  /** The declaration file: every component interface in document order, the
      heading, then every query interface in visit order; it is written
      exactly when the walk and the component interfaces both succeed. */
  lemma DeclarationsText(doc: Document, policy: Option<NamingPolicy>, engine: Captures)
    ensures DeclarationsFile(doc, Walk(doc, policy, engine)).Some? <==>
              QueryInterfacesOf(doc.paths).Ok? && doc.components.Some? && InterfacesText(doc.components.value).Ok?
    ensures DeclarationsFile(doc, Walk(doc, policy, engine)).Some? ==>
              DeclarationsFile(doc, Walk(doc, policy, engine)).value ==
                InterfacesText(doc.components.value).value + QueryHeading + QueryInterfacesOf(doc.paths).value
  {
    VisitPathsSummary(GenState("", engine, []), doc.paths, policy);
    var apis := Walk(doc, policy, engine);
    if apis.Ok? {
      var queries := QueryInterfacesOf(doc.paths).value;
      assert apis.value.localInterface == "" + queries == queries;
    }
  }

  /** The API file is written exactly when no parameter throws, whether or
      not the declaration file is; its stubs are those of the document's
      operations, one each, in visit order, bucketed by group. */
  lemma ApiText(doc: Document, policy: Option<NamingPolicy>, fileName: string, engine: Captures)
    ensures Generate(doc, policy, fileName, engine).api.Some? <==> QueryInterfacesOf(doc.paths).Ok?
    ensures Generate(doc, policy, fileName, engine).api.Some? ==>
              var st := Walk(doc, policy, engine).value;
              Generate(doc, policy, fileName, engine).api.value ==
                ApiHeader(fileName) + EmitGroups(MapGroups(StubText, BucketAll(st.emitted))) &&
              TotalStubs(BucketAll(st.emitted)) == MethodCount(doc.paths) &&
              MapEach(StubKey, st.emitted) == Operations(doc.paths)
  {
    VisitPathsSummary(GenState("", engine, []), doc.paths, policy);
    VisitPathsPushes(GenState("", engine, []), doc.paths, policy);
    if VisitPaths(GenState("", engine, []), doc.paths, policy).Ok? {
      var e := VisitPaths(GenState("", engine, []), doc.paths, policy).value.emitted;
      BucketTotal(e);
      assert e[0..] == e;
    }
  }
}
