/** Group and function names of bin/index.js:129-151 and the per-group
    buckets of :149-151, :261 and :266-272. */
module Grouping {
  import opened Common
  import opened Text
  import opened OpenApi

  /** The legacy `RegExp.$1`, `RegExp.$2`, `RegExp.$3`: the captures of the
      last successful regular-expression match anywhere in the process. */
  datatype Captures = Captures(first: string, second: string, third: string)

  const DefaultGroupName := "dftGroup"

  /** `s` cut at its last `/`: the text before it and the text after it. */
  function SplitLast(s: string): (r: Option<(string, string)>)
    ensures r.None? ==> '/' !in s
    ensures r.Some? ==> s == r.value.0 + "/" + r.value.1 && '/' !in r.value.1
  {
    if s == [] then None
    else if s[|s| - 1] == '/' then
      assert s == s[..|s| - 1] + "/" + [];
      Some((s[..|s| - 1], []))
    else
      var r := SplitLast(s[..|s| - 1]);
      assert s == s[..|s| - 1] + [s[|s| - 1]];
      if r.None? then None
      else
        assert s == r.value.0 + "/" + (r.value.1 + [s[|s| - 1]]);
        Some((r.value.0, r.value.1 + [s[|s| - 1]]))
  }

  /** `/\/(\w*)\/(\w*)\/(\w*)$/.test(path)`: as `\w` excludes `/`, only the
      last three `/`-separated segments can match, and they must be word-only. */
  function RouteTail(path: string): Option<Captures> {
    match SplitLast(path)
    case None => None
    case Some((rest, c)) =>
      match SplitLast(rest)
      case None => None
      case Some((rest2, b)) =>
        match SplitLast(rest2)
        case None => None
        case Some((_, a)) =>
          if AllWord(a) && AllWord(b) && AllWord(c) then Some(Captures(a, b, c)) else None
  }

  function Tail(c: Captures): string {
    "/" + c.first + "/" + c.second + "/" + c.third
  }

  lemma {:induction false} SplitLastAppend(x: string, w: string)
    requires '/' !in w
    ensures SplitLast(x + "/" + w) == Some((x, w))
    decreases |w|
  {
    var s := x + "/" + w;
    if w == [] {
      assert s[|s| - 1] == '/';
      assert s[..|s| - 1] == x;
    } else {
      assert w[|w| - 1] in w;
      assert s[..|s| - 1] == x + "/" + w[..|w| - 1];
      assert forall y :: y in w[..|w| - 1] ==> y in w;
      SplitLastAppend(x, w[..|w| - 1]);
      assert w[..|w| - 1] + [s[|s| - 1]] == w;
    }
  }

  lemma WordHasNoSlash(w: string)
    requires AllWord(w)
    ensures '/' !in w
  {
    forall i | 0 <= i < |w| ensures w[i] != '/' {
      assert IsWordChar(w[i]);
    }
  }

  /** A match yields the last three segments, which are word-only and end the path. */
  lemma RouteTailSound(path: string)
    requires RouteTail(path).Some?
    ensures var c := RouteTail(path).value;
            AllWord(c.first) && AllWord(c.second) && AllWord(c.third) &&
            exists prefix :: path == prefix + Tail(c)
  {
    var (rest, c3) := SplitLast(path).value;
    var (rest2, b) := SplitLast(rest).value;
    var (p0, a) := SplitLast(rest2).value;
    AppendAssoc(p0, "/", a);
    AppendAssoc(p0, "/" + a, "/");
    AppendAssoc(p0, "/" + a + "/", b);
    AppendAssoc(p0, "/" + a + "/" + b, "/");
    AppendAssoc(p0, "/" + a + "/" + b + "/", c3);
    assert path == p0 + Tail(RouteTail(path).value);
  }

  /** Every path ending in three word-only segments matches, with those segments as captures. */
  lemma RouteTailComplete(prefix: string, a: string, b: string, c: string)
    requires AllWord(a) && AllWord(b) && AllWord(c)
    ensures RouteTail(prefix + Tail(Captures(a, b, c))) == Some(Captures(a, b, c))
  {
    var path := prefix + Tail(Captures(a, b, c));
    WordHasNoSlash(a); WordHasNoSlash(b); WordHasNoSlash(c);
    assert path == (prefix + "/" + a + "/" + b) + "/" + c;
    SplitLastAppend(prefix + "/" + a + "/" + b, c);
    assert prefix + "/" + a + "/" + b == (prefix + "/" + a) + "/" + b;
    SplitLastAppend(prefix + "/" + a, b);
    SplitLastAppend(prefix, a);
  }

  /** `RegExp.$2 || RegExp.$1 || 'dftGroup'`. */
  function DefaultGroup(c: Captures): string {
    if c.second != "" then c.second else if c.first != "" then c.first else DefaultGroupName
  }

  /** The captures after the test at line 129: the new ones on a match, the stale ones otherwise. */
  function CapturesAfterTest(path: string, stale: Captures): Captures {
    RouteTail(path).GetOr(stale)
  }

  /** For a path ending in `/a/b/c` of word segments the group is b, else a,
      else 'dftGroup', whatever earlier matches left behind. */
  lemma GroupOfMatchingPath(prefix: string, a: string, b: string, c: string, stale: Captures)
    requires AllWord(a) && AllWord(b) && AllWord(c)
    ensures DefaultGroup(CapturesAfterTest(prefix + Tail(Captures(a, b, c)), stale)) ==
            if b != "" then b else if a != "" then a else "dftGroup"
  {
    RouteTailComplete(prefix, a, b, c);
  }

  /** `/store/order/{orderId}` does not match: its last segment is not word-only,
      so its group comes from the stale captures. */
  lemma StoreOrderPathDoesNotMatch(stale: Captures)
    ensures RouteTail("/store/order/{orderId}").None?
    ensures DefaultGroup(CapturesAfterTest("/store/order/{orderId}", stale)) == DefaultGroup(stale)
  {
    var p := "/store/order/{orderId}";
    assert p == "/store/order" + "/" + "{orderId}";
    SplitLastAppend("/store/order", "{orderId}");
    assert !IsWordChar("{orderId}"[0]);
  }

  // ---------------------------------------------------------------------
  // The naming policy.

  /** `operation?.tags?.[0] || {}`: a truthy first tag, or an empty object. */
  datatype Tag = TagName(name: string) | EmptyObject

  function TagOf(op: Operation): (t: Tag)
    ensures t.TagName? ==> t.name != ""
  {
    if op.tags.Some? && |op.tags.value| > 0 && op.tags.value[0] != "" then TagName(op.tags.value[0])
    else EmptyObject
  }

  /** The text a tag has when used as a property key or printed. */
  function TagText(t: Tag): string {
    match t
    case TagName(n) => n
    case EmptyObject => "[object Object]"
  }

  /** The argument of the naming policy. */
  datatype OperationContext = OperationContext(operationId: string, description: string, path: string, httpMethod: string, tag: Tag)

  /** What the naming policy returns; a falsy field is the empty string. */
  datatype NamingOverride = NamingOverride(moduleName: string, functionName: string)

  type NamingPolicy = OperationContext -> NamingOverride

  /** Lines 138-145: (group, function name) from the defaults and an optional policy. */
  function Names(group: string, operationId: string, res: Option<NamingOverride>): (string, string) {
    match res
    case None => (group, operationId)
    case Some(o) =>
      (if o.moduleName != "" then o.moduleName else group,
       if o.functionName != "" then o.functionName else operationId)
  }

  // ---------------------------------------------------------------------
  // Buckets of stubs, one per group, in order of creation.

  type Groups<T> = seq<(string, seq<T>)>

  /** `if (!apiGroups[g]) apiGroups[g] = []; apiGroups[g].push(stub)`. */
  function AddToGroup<T>(groups: Groups<T>, g: string, stub: T): Groups<T> {
    if groups == [] then [(g, [stub])]
    else if groups[0].0 == g then [(g, groups[0].1 + [stub])] + groups[1..]
    else [groups[0]] + AddToGroup(groups[1..], g, stub)
  }

  /** The buckets after pushing every (group, stub) pair in order. */
  function BucketAll<T>(emitted: seq<(string, T)>): Groups<T> {
    if emitted == [] then []
    else
      var last := emitted[|emitted| - 1];
      AddToGroup(BucketAll(emitted[..|emitted| - 1]), last.0, last.1)
  }

  function Keys<T>(groups: Groups<T>): (r: seq<string>)
    ensures |r| == |groups| && forall i :: 0 <= i < |groups| ==> r[i] == groups[i].0
  {
    if groups == [] then [] else [groups[0].0] + Keys(groups[1..])
  }

  /** The group names in order of first appearance. */
  function FirstAppearances(names: seq<string>): seq<string> {
    if names == [] then []
    else
      var earlier := FirstAppearances(names[..|names| - 1]);
      var last := names[|names| - 1];
      if last in names[..|names| - 1] then earlier else earlier + [last]
  }

  function GroupNames<T>(emitted: seq<(string, T)>): (r: seq<string>)
    ensures |r| == |emitted| && forall i :: 0 <= i < |emitted| ==> r[i] == emitted[i].0
  {
    if emitted == [] then [] else GroupNames(emitted[..|emitted| - 1]) + [emitted[|emitted| - 1].0]
  }

  /** The stubs pushed to group `g`, in push order. */
  function StubsOf<T>(emitted: seq<(string, T)>, g: string): seq<T> {
    if emitted == [] then []
    else
      var last := emitted[|emitted| - 1];
      StubsOf(emitted[..|emitted| - 1], g) + (if last.0 == g then [last.1] else [])
  }

  lemma {:induction false} AddToGroupKeys<T>(groups: Groups<T>, g: string, stub: T)
    ensures Keys(AddToGroup(groups, g, stub)) == Keys(groups) + (if g in Keys(groups) then [] else [g])
  {
    if groups != [] && groups[0].0 != g {
      AddToGroupKeys(groups[1..], g, stub);
      assert Keys(groups) == [groups[0].0] + Keys(groups[1..]);
    }
  }

  lemma {:induction false} AddToGroupLookup<T>(groups: Groups<T>, g: string, stub: T, h: string)
    ensures Lookup(AddToGroup(groups, g, stub), h) ==
            if h == g then Some(Lookup(groups, g).GetOr([]) + [stub]) else Lookup(groups, h)
  {
    if groups != [] && groups[0].0 != g {
      AddToGroupLookup(groups[1..], g, stub, h);
      assert AddToGroup(groups, g, stub)[1..] == AddToGroup(groups[1..], g, stub);
    } else if groups != [] {
      var added := [(g, groups[0].1 + [stub])] + groups[1..];
      assert AddToGroup(groups, g, stub) == added;
      assert added[0].0 == g && added[1..] == groups[1..];
      assert Lookup(groups, g) == Some(groups[0].1);
      if h == g {
        assert Lookup(added, h) == Some(groups[0].1 + [stub]);
        assert Lookup(groups, g).GetOr([]) == groups[0].1;
      } else {
        assert Lookup(added, h) == Lookup(added[1..], h);
        assert Lookup(groups, h) == Lookup(groups[1..], h);
      }
    } else {
      assert [] + [stub] == [stub];
    }
  }

  /** Groups are emitted in the order they were first used. */
  lemma {:induction false} BucketOrder<T>(emitted: seq<(string, T)>)
    ensures Keys(BucketAll(emitted)) == FirstAppearances(GroupNames(emitted))
  {
    if emitted != [] {
      var init := emitted[..|emitted| - 1];
      var last := emitted[|emitted| - 1];
      BucketOrder(init);
      AddToGroupKeys(BucketAll(init), last.0, last.1);
      assert GroupNames(emitted)[..|emitted| - 1] == GroupNames(init);
      assert (last.0 in GroupNames(init)) == (last.0 in Keys(BucketAll(init))) by {
        FirstAppearancesSameElements(GroupNames(init));
      }
    }
  }

  lemma {:induction false} FirstAppearancesSameElements(names: seq<string>)
    ensures forall x :: x in FirstAppearances(names) <==> x in names
  {
    if names != [] {
      FirstAppearancesSameElements(names[..|names| - 1]);
      assert names == names[..|names| - 1] + [names[|names| - 1]];
    }
  }

  /** Each group's bucket holds exactly the stubs pushed to it, in push order,
      and a group has a bucket exactly when something was pushed to it. */
  lemma {:induction false} BucketContents<T>(emitted: seq<(string, T)>, g: string)
    ensures Lookup(BucketAll(emitted), g) == if StubsOf(emitted, g) == [] then None else Some(StubsOf(emitted, g))
  {
    if emitted != [] {
      var init := emitted[..|emitted| - 1];
      var last := emitted[|emitted| - 1];
      BucketContents(init, g);
      AddToGroupLookup(BucketAll(init), last.0, last.1, g);
      assert BucketAll(emitted) == AddToGroup(BucketAll(init), last.0, last.1);
      assert StubsOf(emitted, g) == StubsOf(init, g) + (if last.0 == g then [last.1] else []);
      if last.0 == g {
        assert StubsOf(emitted, g) != [];
        assert Lookup(BucketAll(init), g).GetOr([]) == StubsOf(init, g);
      } else {
        assert StubsOf(emitted, g) == StubsOf(init, g);
      }
    } else {
      assert Lookup(BucketAll(emitted), g) == None;
    }
  }

  /** Every pushed stub is in exactly one bucket: the total count is preserved. */
  function TotalStubs<T>(groups: Groups<T>): nat {
    if groups == [] then 0 else |groups[0].1| + TotalStubs(groups[1..])
  }

  lemma {:induction false} AddToGroupTotal<T>(groups: Groups<T>, g: string, stub: T)
    ensures TotalStubs(AddToGroup(groups, g, stub)) == TotalStubs(groups) + 1
  {
    if groups != [] && groups[0].0 != g {
      AddToGroupTotal(groups[1..], g, stub);
      assert AddToGroup(groups, g, stub)[1..] == AddToGroup(groups[1..], g, stub);
    } else if groups != [] {
      assert AddToGroup(groups, g, stub)[1..] == groups[1..];
    }
  }

  lemma {:induction false} BucketTotal<T>(emitted: seq<(string, T)>)
    ensures TotalStubs(BucketAll(emitted)) == |emitted|
  {
    if emitted != [] {
      var init := emitted[..|emitted| - 1];
      BucketTotal(init);
      AddToGroupTotal(BucketAll(init), emitted[|emitted| - 1].0, emitted[|emitted| - 1].1);
    }
  }

  /** Each bucket's entries replaced by `f` of them: the buckets of texts
      that the generator holds when `T` describes a stub. */
  function MapEach<S, T>(f: S -> T, xs: seq<S>): (r: seq<T>)
    ensures |r| == |xs| && forall i :: 0 <= i < |xs| ==> r[i] == f(xs[i])
  {
    if xs == [] then [] else [f(xs[0])] + MapEach(f, xs[1..])
  }

  function MapGroups<S, T>(f: S -> T, groups: Groups<S>): (r: Groups<T>)
    ensures |r| == |groups| && forall i :: 0 <= i < |groups| ==> r[i] == (groups[i].0, MapEach(f, groups[i].1))
  {
    if groups == [] then [] else [(groups[0].0, MapEach(f, groups[0].1))] + MapGroups(f, groups[1..])
  }

  /** Pushing a rendered entry onto rendered buckets is rendering after pushing. */
  lemma {:induction false} AddToGroupMap<S, T>(f: S -> T, groups: Groups<S>, g: string, stub: S)
    ensures AddToGroup(MapGroups(f, groups), g, f(stub)) == MapGroups(f, AddToGroup(groups, g, stub))
  {
    if groups != [] {
      assert MapGroups(f, groups)[1..] == MapGroups(f, groups[1..]);
      if groups[0].0 == g {
        assert MapEach(f, groups[0].1) + [f(stub)] == MapEach(f, groups[0].1 + [stub]);
      } else {
        AddToGroupMap(f, groups[1..], g, stub);
        var added := AddToGroup(groups, g, stub);
        assert added == [groups[0]] + AddToGroup(groups[1..], g, stub);
        assert added[0] == groups[0] && added[1..] == AddToGroup(groups[1..], g, stub);
        assert MapGroups(f, added) == [(groups[0].0, MapEach(f, groups[0].1))] + MapGroups(f, added[1..]);
      }
    } else {
      assert MapEach(f, [stub]) == [f(stub)];
    }
  }
  /** Pushing one more pair onto the emitted list pushes its rendering onto the rendered buckets. */
  lemma RenderPush<S, T>(f: S -> T, emitted: seq<(string, S)>, x: (string, S))
    ensures MapGroups(f, BucketAll(emitted + [x])) == AddToGroup(MapGroups(f, BucketAll(emitted)), x.0, f(x.1))
  {
    assert (emitted + [x])[..|emitted|] == emitted;
    AddToGroupMap(f, BucketAll(emitted), x.0, x.1);
  }

}
