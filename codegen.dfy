/** The generator as the source runs it: the state that `generateApi` keeps
    across `genApis` and `genInterface` (bin/index.js:62-63, :83-278), the
    loops that build the texts with `+=`, and the fixed call order. Every
    method is proved against the functions of the Stubs module. */
module Codegen {
  import opened Common
  import opened Text
  import opened OpenApi
  import opened Resolve
  import opened PathTemplate
  import opened Grouping
  import opened Stubs

  class Generator {
    const doc: Document
    const policy: Option<NamingPolicy>
    const fileName: string
    /** The `.d.ts` text under construction (line 62). */
    var interfaceCode: string
    /** The query interfaces shared by the two generators (line 63). */
    var localInterface: string
    /** The regular-expression engine's `RegExp.$1`-`$3`. */
    var captures: Captures

    constructor (doc: Document, policy: Option<NamingPolicy>, fileName: string, engine: Captures)
      ensures this.doc == doc && this.policy == policy && this.fileName == fileName
      ensures interfaceCode == "" && localInterface == "" && captures == engine
    {
      this.doc := doc;
      this.policy := policy;
      this.fileName := fileName;
      interfaceCode := "";
      localInterface := "";
      captures := engine;
    }

    /** Lines 160-189: append `QueryType<operationId>` with one member per
        parameter that has a schema; `false` when a parameter throws. */
    method AppendQueryInterface(operationId: string, parameters: seq<Parameter>) returns (ok: bool)
      modifies this`localInterface
      ensures ok <==> QueryInterface(operationId, parameters).Ok?
      ensures ok ==> localInterface == old(localInterface) + QueryInterface(operationId, parameters).value
    {
      var members := QueryMembersCode(parameters);
      if members.TypeError? {
        return false;
      }
      localInterface := localInterface + ("export interface " + QueryTypeName(operationId) + " {\n" + members.value + "}\n\n");
      ok := true;
    }

    /** Line 129: `test` on the route pattern; a failed match leaves the
        engine's previous captures in place. */
    method TestRoute(path: string)
      modifies this`captures
      ensures captures == CapturesAfterTest(path, old(captures))
    {
      var matched := RouteTail(path);
      if matched.Some? {
        captures := matched.value;
      }
    }

    /** Lines 129-146: the default group from the captures, then the naming
        policy's non-empty overrides. */
    method ResolveNames(path: string, httpMethod: string, op: Operation) returns (apiGroup: string, apiName: string)
      ensures (apiGroup, apiName) == NamesOf(captures, path, httpMethod, op, policy)
    {
      apiGroup := DefaultGroup(captures);
      apiName := op.operationId;
      if policy.Some? {
        var res := policy.value(ContextOf(op, path, httpMethod));
        if res.moduleName != "" {
          apiGroup := res.moduleName;
        }
        if res.functionName != "" {
          apiName := res.functionName;
        }
      }
    }

    /** Lines 243-244: the two `replace` calls with regular expressions leave
        their captures behind. */
    method RecordStubCaptures(path: string, op: Operation)
      modifies this`captures
      ensures captures == CapturesAfterStub(old(captures), path, op)
    {
      if '\n' in DescriptionOf(op) {
        captures := Captures("", "", "");
      }
      var lastName := LastName(path);
      if lastName.Some? {
        captures := Captures(lastName.value, "", "");
      }
    }

    /** Lines 129-261: one operation. It fails exactly when its query
        interface throws; otherwise it returns the bucket and the stub text
        that line 261 pushes and leaves the state `VisitOp` describes. */
    method VisitOperation(ghost st: GenState, path: string, httpMethod: string, op: Operation)
      returns (r: Result<(string, string)>)
      requires st.localInterface == localInterface && st.captures == captures
      modifies this`localInterface, this`captures
      ensures var v := VisitOp(st, path, httpMethod, op, policy);
              (r.Ok? <==> v.Ok?) &&
              (v.Ok? ==> localInterface == v.value.localInterface && captures == v.value.captures &&
                         var last := v.value.emitted[|st.emitted|];
                         v.value.emitted == st.emitted + [last] && r.value == (last.0, StubText(last.1)))
    {
      TestRoute(path);
      var apiGroup, apiName := ResolveNames(path, httpMethod, op);
      if op.parameters.Some? {
        var ok := AppendQueryInterface(op.operationId, op.parameters.value);
        if !ok {
          return TypeError;
        }
      }
      var api := StubCode(apiName, path, httpMethod, op);
      RecordStubCaptures(path, op);
      r := Ok((apiGroup, api));
    }

    /** Lines 127-263: the operations of one path, in order, each pushed
        onto its bucket; `None` when one of them throws. */
    method VisitMethodsCode(ghost st: GenState, path: string, methods: seq<(string, Operation)>,
                            apiGroups: Groups<string>)
      returns (r: Option<Groups<string>>)
      requires st.localInterface == localInterface && st.captures == captures
      requires apiGroups == MapGroups(StubText, BucketAll(st.emitted))
      modifies this`localInterface, this`captures
      ensures var v := VisitMethods(st, path, methods, policy);
              (r.Some? <==> v.Ok?) &&
              (v.Ok? ==> r.value == MapGroups(StubText, BucketAll(v.value.emitted)) &&
                         localInterface == v.value.localInterface && captures == v.value.captures)
    {
      var groups := apiGroups;
      ghost var cur := st;
      var j := 0;
      while j < |methods|
        invariant 0 <= j <= |methods|
        invariant VisitMethods(st, path, methods[..j], policy) == Ok(cur)
        invariant localInterface == cur.localInterface && captures == cur.captures
        invariant groups == MapGroups(StubText, BucketAll(cur.emitted))
      {
        var (httpMethod, op) := methods[j];
        VisitMethodsStep(st, path, methods, j, policy);
        var one := VisitOperation(cur, path, httpMethod, op);
        if one.TypeError? {
          VisitMethodsAbort(st, path, methods, j + 1, policy);
          return None;
        }
        ghost var next := VisitOp(cur, path, httpMethod, op, policy).value;
        RenderPush(StubText, cur.emitted, next.emitted[|cur.emitted|]);
        groups := AddToGroup(groups, one.value.0, one.value.1);
        cur := next;
        j := j + 1;
      }
      assert methods[..j] == methods;
      r := Some(groups);
    }

    /** Lines 123-264: walk every path and every method of it, in order,
        pushing each stub onto its bucket; `None` when an operation throws. */
    method VisitPathsCode() returns (r: Option<Groups<string>>)
      modifies this`localInterface, this`captures
      ensures var v := VisitPaths(GenState(old(localInterface), old(captures), []), doc.paths, policy);
              (r.Some? <==> v.Ok?) &&
              (v.Ok? ==> r.value == MapGroups(StubText, BucketAll(v.value.emitted)) &&
                         localInterface == v.value.localInterface && captures == v.value.captures)
    {
      var apiGroups: Groups<string> := [];
      ghost var st0 := GenState(localInterface, captures, []);
      ghost var st := st0;
      var paths := doc.paths;
      var i := 0;
      while i < |paths|
        invariant 0 <= i <= |paths|
        invariant VisitPaths(st0, paths[..i], policy) == Ok(st)
        invariant localInterface == st.localInterface && captures == st.captures
        invariant apiGroups == MapGroups(StubText, BucketAll(st.emitted))
      {
        var (path, methods) := paths[i];
        VisitPathsStep(st0, paths, i, policy);
        var groups := VisitMethodsCode(st, path, methods, apiGroups);
        if groups.None? {
          VisitPathsAbort(st0, paths, i + 1, policy);
          return None;
        }
        st := VisitMethods(st, path, methods, policy).value;
        apiGroups := groups.value;
        i := i + 1;
      }
      assert paths[..i] == paths;
      r := Some(apiGroups);
    }

    /** Lines 119-276: the API file is the header followed by the buckets of
        the stubs the walk pushed; it is not written when the walk throws. */
    method GenApis() returns (apiCode: Option<string>)
      modifies this`localInterface, this`captures
      ensures var apis := VisitPaths(GenState(old(localInterface), old(captures), []), doc.paths, policy);
              apiCode == ApiFile(fileName, apis) &&
              (apis.Ok? ==> localInterface == apis.value.localInterface && captures == apis.value.captures)
    {
      var apiCode0 := ApiHeader(fileName);
      var apiGroups := VisitPathsCode();
      if apiGroups.None? {
        return None;
      }
      var body := EmitGroupsText(apiGroups.value);
      apiCode := Some(apiCode0 + body);
    }

    /** Lines 95-117: the declaration file is the component interfaces, the
        heading, and the query interfaces `genApis` left in `localInterface`;
        it is not written when `components` is absent or a property throws. */
    method GenInterface() returns (dts: Option<string>)
      modifies this`interfaceCode
      ensures dts == (if doc.components.None? || InterfacesText(doc.components.value).TypeError? then None
                      else Some(old(interfaceCode) + InterfacesText(doc.components.value).value + QueryHeading + localInterface))
      ensures dts.Some? ==> interfaceCode == old(interfaceCode) + InterfacesText(doc.components.value).value
    {
      if doc.components.None? {
        return None;
      }
      var interfaces := InterfacesCode(doc.components.value);
      if interfaces.TypeError? {
        return None;
      }
      interfaceCode := interfaceCode + interfaces.value;
      dts := Some(interfaceCode + QueryHeading + localInterface);
    }
  }

  /** Lines 62-63 and 277-278: a fresh run calls `genApis` and then
      `genInterface`; an exception in the first skips the second. Both
      files are what the specification of the run says they are. */
  method GenerateApi(doc: Document, policy: Option<NamingPolicy>, fileName: string, engine: Captures)
    returns (out: Outputs)
    ensures out == Generate(doc, policy, fileName, engine)
  {
    var g := new Generator(doc, policy, fileName, engine);
    ghost var apis := VisitPaths(GenState(g.localInterface, g.captures, []), g.doc.paths, g.policy);
    assert apis == VisitPaths(GenState("", engine, []), doc.paths, policy);
    var api := g.GenApis();
    assert api == ApiFile(fileName, apis);
    if api.None? {
      return Outputs(None, None);
    }
    assert g.interfaceCode == "";
    var dts := g.GenInterface();
    if dts.Some? {
      ghost var interfaces := InterfacesText(doc.components.value).value;
      assert "" + interfaces == interfaces;
    }
    assert dts == DeclarationsFile(doc, apis);
    out := Outputs(api, dts);
  }

  /** Lines 163-186: the members of a query interface, one per parameter
      with a schema, in order; the first parameter that throws aborts them. */
  method QueryMembersCode(parameters: seq<Parameter>) returns (r: Result<string>)
    ensures r == QueryMembers(parameters)
  {
    var code := "";
    var i := 0;
    while i < |parameters|
      invariant 0 <= i <= |parameters|
      invariant QueryMembers(parameters[..i]) == Ok(code)
    {
      var param := parameters[i];
      assert parameters[..i + 1][..i] == parameters[..i];
      assert parameters[..i + 1][i] == param;
      if param.schema.Some? {
        var t := ParamType(param.schema.value);
        if t.TypeError? {
          QueryMembersAbort(parameters, i + 1);
          return TypeError;
        }
        code := code + ("  " + param.name + "?: " + t.value + ";\n");
      } else {
        assert code + "" == code;
      }
      i := i + 1;
    }
    assert parameters[..i] == parameters;
    r := Ok(code);
  }

  /** Lines 100-112: the member lines of a component interface, in order;
      the first property that throws aborts them. */
  method PropertyLinesCode(props: seq<(string, Schema)>) returns (r: Result<string>)
    ensures r == PropertyLines(props)
  {
    var code := "";
    var k := 0;
    while k < |props|
      invariant 0 <= k <= |props|
      invariant PropertyLines(props[..k]) == Ok(code)
    {
      var (propName, prop) := props[k];
      assert props[..k + 1][..k] == props[..k];
      assert props[..k + 1][k] == (propName, prop);
      var t := ComponentPropType(prop);
      if t.TypeError? {
        PropertyLinesAbort(props, k + 1);
        return TypeError;
      }
      code := code + ("  " + propName + "?: " + t.value + "; " + Comment(prop.description) + "\n");
      k := k + 1;
    }
    assert props[..k] == props;
    r := Ok(code);
  }

  /** Lines 98-113: one component's interface. */
  method InterfaceCode(schemaName: string, schema: ComponentSchema) returns (r: Result<string>)
    ensures r == InterfaceText(schemaName, schema)
  {
    var body := PropertyLinesCode(schema.properties);
    if body.TypeError? {
      return TypeError;
    }
    r := Ok(InterfaceHeader(schemaName, schema) + body.value + "}\n\n");
  }

  /** Lines 97-114: every component's interface, in order; the first one
      that throws aborts the file. */
  method InterfacesCode(schemas: seq<(string, ComponentSchema)>) returns (r: Result<string>)
    ensures r == InterfacesText(schemas)
  {
    var code := "";
    var i := 0;
    while i < |schemas|
      invariant 0 <= i <= |schemas|
      invariant InterfacesText(schemas[..i]) == Ok(code)
    {
      var (schemaName, schema) := schemas[i];
      assert schemas[..i + 1][..i] == schemas[..i];
      assert schemas[..i + 1][i] == (schemaName, schema);
      var one := InterfaceCode(schemaName, schema);
      if one.TypeError? {
        InterfacesAbort(schemas, i + 1);
        return TypeError;
      }
      code := code + one.value;
      i := i + 1;
    }
    assert schemas[..i] == schemas;
    r := Ok(code);
  }

  /** Lines 241-259: the stub text, built line by line. */
  method StubCode(apiName: string, path: string, httpMethod: string, op: Operation) returns (api: string)
    ensures api == StubText(Stub(apiName, path, httpMethod, op))
  {
    var pType := CombineParamTypes(BodyTypeOf(op), QueryTypeOf(op));
    var responseType := ResponseTypeOf(op);
    api := "\n    // " + SpaceNewlines(DescriptionOf(op)) + "\n    " + apiName + ": async (param: " + pType +
           ", opt: AxiosRequestConfig = {}): Promise<" + responseType + "> => await request({\n";
    api := api + "      url: '" + Rewrite(path) + "',\n";
    api := api + "      method: '" + httpMethod + "',\n";
    if op.parameters.Some? {
      var p := ParamsText(op.parameters.value);
      api := api + ("      params: " + p + ",\n");
    } else {
      assert api + "" == api;
    }
    if op.requestBody.Some? {
      api := api + "      data: param,\n";
    } else {
      assert api + "" == api;
    }
    api := api + "      ...opt,\n";
    api := api + "    }),\n";
  }

  /** Lines 247-252: the `params` object lists every parameter name, in order. */
  method ParamsText(parameters: seq<Parameter>) returns (p: string)
    ensures p == ParamsObject(parameters)
  {
    p := "{";
    var i := 0;
    while i < |parameters|
      invariant 0 <= i <= |parameters|
      invariant p == "{" + ParamEntries(parameters[..i])
    {
      var param := parameters[i];
      assert parameters[..i + 1][..i] == parameters[..i];
      p := p + ParamEntry(param);
      i := i + 1;
    }
    assert parameters[..i] == parameters;
    p := p + "}";
  }

  /** Lines 268-270: a bucket's stubs, in push order. */
  method ConcatText(apis: seq<string>) returns (code: string)
    ensures code == Concat(apis)
  {
    code := "";
    var k := 0;
    while k < |apis|
      invariant 0 <= k <= |apis|
      invariant code == Concat(apis[..k])
    {
      assert apis[..k + 1][..k] == apis[..k];
      code := code + apis[k];
      k := k + 1;
    }
    assert apis[..k] == apis;
  }

  /** Lines 266-272: one `export let` block per bucket, in bucket order. */
  method EmitGroupsText(apiGroups: Groups<string>) returns (code: string)
    ensures code == EmitGroups(apiGroups)
  {
    code := "";
    var i := 0;
    while i < |apiGroups|
      invariant 0 <= i <= |apiGroups|
      invariant code == EmitGroups(apiGroups[..i])
    {
      var (apiGroup, apis) := apiGroups[i];
      var body := ConcatText(apis);
      code := code + ("export let " + apiGroup + " = {\n" + body + "}\n\n");
      assert apiGroups[..i + 1][..i] == apiGroups[..i];
      i := i + 1;
    }
    assert apiGroups[..i] == apiGroups;
  }
}
