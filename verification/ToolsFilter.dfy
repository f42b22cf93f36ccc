/**
 The anonymous `tools/list` filter over a decoded JSON tree: in every response object reached
 through arrays, `result.tools` keeps only the tools whose name is public.
 */
module ToolsFilter {
  import opened Wrappers
  import opened Json
  import opened McpAcl

  /** An object whose `name` is a string that the policy makes public. */
  predicate PublicTool(p: AnonymousMCPPolicy, tool: Value) {
    && tool.Obj? && "name" in tool.fields
    && tool.fields["name"].Str? && IsPublic(p, tool.fields["name"].s)
  }

  function KeepPublic(p: AnonymousMCPPolicy, tools: seq<Value>): seq<Value>
    decreases |tools|
  {
    if |tools| == 0 then []
    else
      var front := KeepPublic(p, tools[..|tools| - 1]);
      if PublicTool(p, tools[|tools| - 1]) then front + [tools[|tools| - 1]] else front
  }

  /** A response object that carries a list of tools. */
  predicate HasTools(v: Value) {
    && v.Obj? && "result" in v.fields
    && v.fields["result"].Obj? && "tools" in v.fields["result"].fields
    && v.fields["result"].fields["tools"].Arr?
  }

  function ToolsOf(v: Value): seq<Value>
    requires HasTools(v)
  {
    v.fields["result"].fields["tools"].items
  }

  function WithTools(v: Value, tools: seq<Value>): (r: Value)
    requires HasTools(v)
    ensures HasTools(r) && ToolsOf(r) == tools
  {
    Obj(v.fields["result" := Obj(v.fields["result"].fields["tools" := Arr(tools)])])
  }

  function Filter(p: AnonymousMCPPolicy, v: Value): Value {
    match v
    case Arr(items) => Arr(seq(|items|, i requires 0 <= i < |items| => Filter(p, items[i])))
    case Obj(_) => if HasTools(v) then WithTools(v, KeepPublic(p, ToolsOf(v))) else v
    case _ => v
  }

  /** The filter as it runs: down the arrays, and a loop over each list of tools. */
  method FilterJSON(p: AnonymousMCPPolicy, value: Value) returns (r: Value)
    ensures r == Filter(p, value)
    decreases value
  {
    match value
    case Arr(items) =>
      var filtered := items;
      for i := 0 to |items|
        invariant |filtered| == |items|
        invariant forall j | 0 <= j < i :: filtered[j] == Filter(p, items[j])
        invariant forall j | i <= j < |items| :: filtered[j] == items[j]
      {
        var item := FilterJSON(p, filtered[i]);
        filtered := filtered[i := item];
      }
      assert filtered == Filter(p, value).items;
      return Arr(filtered);
    case Obj(typed) =>
      if "result" !in typed || !typed["result"].Obj? {
        return value;
      }
      var result := typed["result"].fields;
      if "tools" !in result || !result["tools"].Arr? {
        return value;
      }
      var tools := result["tools"].items;
      var filtered: seq<Value> := [];
      for i := 0 to |tools|
        invariant filtered == KeepPublic(p, tools[..i])
      {
        assert tools[..i + 1][..i] == tools[..i];
        var tool := tools[i];
        if tool.Obj? && "name" in tool.fields && tool.fields["name"].Str? {
          var isPublic := IsPublicTool(p, tool.fields["name"].s);
          if isPublic {
            filtered := filtered + [tool];
          }
        }
      }
      assert tools[..|tools|] == tools;
      return Obj(typed["result" := Obj(result["tools" := Arr(filtered)])]);
    case _ =>
      return value;
  }

  // ----- Which tools are kept -----

  /** Strictly increasing positions: `kept` is an order-preserving selection of `tools`. */
  predicate Selects(tools: seq<Value>, at: seq<nat>, kept: seq<Value>) {
    && |at| == |kept|
    && (forall j | 0 <= j < |at| :: at[j] < |tools| && tools[at[j]] == kept[j])
    && (forall j, k | 0 <= j < k < |at| :: at[j] < at[k])
  }

  lemma SelectsSnoc(front: seq<Value>, last: Value, at: seq<nat>, kept: seq<Value>)
    requires Selects(front, at, kept)
    ensures Selects(front + [last], at, kept)
    ensures Selects(front + [last], at + [|front|], kept + [last])
  {
  }

  /** The kept tools are, in their order, exactly the public ones. */
  lemma {:induction false} KeptExactly(p: AnonymousMCPPolicy, tools: seq<Value>) returns (at: seq<nat>)
    ensures Selects(tools, at, KeepPublic(p, tools))
    ensures forall i: nat | i < |tools| :: i in at <==> PublicTool(p, tools[i])
    decreases |tools|
  {
    hide PublicTool;
    if |tools| == 0 {
      at := [];
    } else {
      var front := tools[..|tools| - 1];
      var last := tools[|tools| - 1];
      assert tools == front + [last];
      at := KeptExactly(p, front);
      SelectsBelow(front, at, KeepPublic(p, front));
      SelectsSnoc(front, last, at, KeepPublic(p, front));
      forall i: nat | i < |front|
        ensures tools[i] == front[i]
      {
      }
      if PublicTool(p, last) {
        at := at + [|front|];
      }
    }
  }

  /** Which tools those are: the objects whose `name` is a string on the public list. */
  lemma KeptByName(p: AnonymousMCPPolicy, tools: seq<Value>) returns (at: seq<nat>)
    ensures Selects(tools, at, KeepPublic(p, tools))
    ensures forall i: nat | i < |tools| ::
              i in at <==>
                && tools[i].Obj? && "name" in tools[i].fields && tools[i].fields["name"].Str?
                && tools[i].fields["name"].s in p.publicTools
  {
    at := KeptExactly(p, tools);
    forall i: nat | i < |tools|
      ensures PublicTool(p, tools[i]) <==>
                && tools[i].Obj? && "name" in tools[i].fields && tools[i].fields["name"].Str?
                && tools[i].fields["name"].s in p.publicTools
    {
    }
    hide PublicTool, Selects;
  }

  lemma SelectsBelow(tools: seq<Value>, at: seq<nat>, kept: seq<Value>)
    requires Selects(tools, at, kept)
    ensures |tools| !in at
  {
    assert forall j | 0 <= j < |at| :: at[j] < |tools|;
  }

  lemma {:induction false} KeepPublicTwice(p: AnonymousMCPPolicy, q: AnonymousMCPPolicy, r: AnonymousMCPPolicy,
                                           tools: seq<Value>)
    requires forall name :: IsPublic(r, name) <==> IsPublic(p, name) && IsPublic(q, name)
    ensures KeepPublic(p, KeepPublic(q, tools)) == KeepPublic(r, tools)
    decreases |tools|
  {
    if |tools| > 0 {
      var front := tools[..|tools| - 1];
      var last := tools[|tools| - 1];
      KeepPublicTwice(p, q, r, front);
      var kept := KeepPublic(q, front);
      assert (kept + [last])[..|kept|] == kept;
    }
  }

  // ----- The whole tree -----

  /** Filtering with one policy after another is filtering with what both make public, in any tree. */
  lemma {:induction false} FilterTwice(p: AnonymousMCPPolicy, q: AnonymousMCPPolicy, r: AnonymousMCPPolicy, v: Value)
    requires forall name :: IsPublic(r, name) <==> IsPublic(p, name) && IsPublic(q, name)
    ensures Filter(p, Filter(q, v)) == Filter(r, v)
    decreases v
  {
    match v
    case Arr(items) =>
      forall i | 0 <= i < |items|
        ensures Filter(p, Filter(q, items[i])) == Filter(r, items[i])
      {
        FilterTwice(p, q, r, items[i]);
      }
      assert Filter(p, Filter(q, v)).items == Filter(r, v).items;
    case Obj(fields) =>
      if HasTools(v) {
        var tools := ToolsOf(v);
        KeepPublicTwice(p, q, r, tools);
        var once := WithTools(v, KeepPublic(q, tools));
        var twice := WithTools(once, KeepPublic(r, tools));
        assert twice.fields["result"] == Filter(r, v).fields["result"];
        assert twice.fields == Filter(r, v).fields;
      }
    case _ =>
  }

  lemma FilterIdempotent(p: AnonymousMCPPolicy, v: Value)
    ensures Filter(p, Filter(p, v)) == Filter(p, v)
  {
    FilterTwice(p, p, p, v);
  }

  /** The path goes through arrays only, to an object that carries tools, and then to its list of tools. */
  predicate ToTools(v: Value, path: seq<Step>)
    decreases |path|
  {
    || (HasTools(v) && path == [Key("result"), Key("tools")])
    || (v.Arr? && |path| > 0 && path[0].Index? && path[0].i < |v.items| && ToTools(v.items[path[0].i], path[1..]))
  }

  /** Which paths those are: array indices, then `result` and `tools`, to an array. */
  lemma {:induction false} ToToolsIff(v: Value, path: seq<Step>)
    ensures ToTools(v, path) <==>
              && |path| >= 2 && path[|path| - 2] == Key("result") && path[|path| - 1] == Key("tools")
              && (forall i | 0 <= i < |path| - 2 :: path[i].Index?)
              && At(v, path).Some? && At(v, path).value.Arr?
    decreases |path|
  {
    if |path| < 2 {
      ToToolsShort(v, path);
    } else if |path| == 2 {
      assert path == [path[0], path[1]];
      ToToolsHere(v, path);
      CarriesTools(v);
    } else if v.Arr? && path[0].Index? && path[0].i < |v.items| {
      ToToolsIff(v.items[path[0].i], path[1..]);
    }
  }

  lemma ToToolsHere(v: Value, path: seq<Step>)
    requires |path| == 2
    ensures ToTools(v, path) <==> HasTools(v) && path == [Key("result"), Key("tools")]
  {
    if v.Arr? && path[0].Index? && path[0].i < |v.items| {
      ToToolsShort(v.items[path[0].i], path[1..]);
    }
  }

  lemma CarriesTools(v: Value)
    ensures HasTools(v) <==>
              At(v, [Key("result"), Key("tools")]).Some? && At(v, [Key("result"), Key("tools")]).value.Arr?
  {
    var path := [Key("result"), Key("tools")];
    assert path[1..] == [Key("tools")] && path[1..][1..] == [];
    if v.Obj? && "result" in v.fields {
      var result := v.fields["result"];
      assert At(v, path) == At(result, [Key("tools")]);
      if result.Obj? && "tools" in result.fields {
        assert At(result, [Key("tools")]) == At(result.fields["tools"], []);
      }
    }
  }

  lemma ToToolsShort(v: Value, path: seq<Step>)
    requires |path| < 2
    ensures !ToTools(v, path)
  {
    if |path| == 1 && v.Arr? && path[0].Index? && path[0].i < |v.items| {
      assert |path[1..]| == 0;
    }
  }

  /** The path goes to a list of tools or into one. */
  predicate Inside(v: Value, path: seq<Step>) {
    exists k | 0 <= k <= |path| :: ToTools(v, path[..k])
  }

  /** At every list of tools the filter leaves exactly the public ones, in order. */
  lemma {:induction false} EveryListFiltered(p: AnonymousMCPPolicy, v: Value, path: seq<Step>)
    requires ToTools(v, path)
    ensures At(v, path).Some? && At(v, path).value.Arr?
    ensures At(Filter(p, v), path) == Some(Arr(KeepPublic(p, At(v, path).value.items)))
    decreases |path|
  {
    if HasTools(v) && path == [Key("result"), Key("tools")] {
      var w := Filter(p, v);
      assert path[1..] == [Key("tools")] && path[1..][1..] == [];
      assert At(w, path) == At(w.fields["result"], path[1..]) == At(w.fields["result"].fields["tools"], []);
      assert At(v, path) == At(v.fields["result"], path[1..]) == At(v.fields["result"].fields["tools"], []);
    } else {
      EveryListFiltered(p, v.items[path[0].i], path[1..]);
    }
  }

  /** Anywhere else the tree is what it was: the same paths exist, and lead to the same nodes. */
  lemma {:induction false} ElsewhereUnchanged(p: AnonymousMCPPolicy, v: Value, path: seq<Step>)
    requires !Inside(v, path)
    ensures At(Filter(p, v), path).Some? == At(v, path).Some?
    ensures At(v, path).Some? ==> SameNode(At(v, path).value, At(Filter(p, v), path).value)
    decreases |path|
  {
    if |path| > 0 {
      match v
      case Arr(items) =>
        if path[0].Index? && path[0].i < |items| {
          forall k | 0 <= k <= |path[1..]|
            ensures !ToTools(items[path[0].i], path[1..][..k])
          {
            assert path[..k + 1][1..] == path[1..][..k];
            assert !ToTools(v, path[..k + 1]);
          }
          ElsewhereUnchanged(p, items[path[0].i], path[1..]);
        }
      case Obj(fields) =>
        if HasTools(v) && path[0] == Key("result") {
          assert path[1..] != [] ==> path[1..][0] != Key("tools") by {
            if |path| > 1 {
              assert !ToTools(v, path[..2]);
              assert path[..2] == [path[0], path[1]];
            }
          }
          var before, after := v.fields["result"], Filter(p, v).fields["result"];
          assert before.fields.Keys == after.fields.Keys;
          if |path| > 1 {
            assert At(before, path[1..]) == At(after, path[1..]);
          }
        }
      case _ =>
    }
  }

  /** The filter neither makes nor hides lists of tools. */
  lemma {:induction false} SameLists(p: AnonymousMCPPolicy, v: Value, path: seq<Step>)
    ensures ToTools(Filter(p, v), path) <==> ToTools(v, path)
    decreases |path|
  {
    if v.Arr? && |path| > 0 && path[0].Index? && path[0].i < |v.items| {
      SameLists(p, v.items[path[0].i], path[1..]);
    }
  }

  /** What an anonymous client can see: every tool in every list of the filtered tree is public. */
  lemma NoHiddenTool(p: AnonymousMCPPolicy, v: Value, path: seq<Step>, tool: Value)
    requires ToTools(Filter(p, v), path)
    ensures var list := At(Filter(p, v), path);
            && list.Some? && list.value.Arr?
            && At(v, path).Some? && At(v, path).value.Arr?
            && (tool in list.value.items <==> tool in At(v, path).value.items && PublicTool(p, tool))
  {
    SameLists(p, v, path);
    EveryListFiltered(p, v, path);
    var tools := At(v, path).value.items;
    var at := KeptExactly(p, tools);
    if i :| 0 <= i < |tools| && tools[i] == tool && PublicTool(p, tool) {
      var j :| 0 <= j < |at| && at[j] == i;
      assert KeepPublic(p, tools)[j] == tool;
    }
    if j :| 0 <= j < |at| && KeepPublic(p, tools)[j] == tool {
      assert at[j] in at;
    }
  }
}
