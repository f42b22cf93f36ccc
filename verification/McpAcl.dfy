/**
 The anonymous MCP policy: which request bodies an unauthenticated client may send. The JSON
 decoders of the request structures are parameters; the decisions are the policy's own.
 */
module McpAcl {
  import opened Wrappers

  datatype Message = Message(method_: string, params: Bytes)

  /**
   `batch` decodes an array of raw messages (JSON null decodes as an empty one), `message` the method
   and the raw parameters, `toolName` the name of the tool called (empty when it is absent).
   */
  datatype Decoders = Decoders(
    batch: Bytes -> Option<seq<Bytes>>,
    message: Bytes -> Option<Message>,
    toolName: Bytes -> Option<string>)

  datatype Decision = Decision(allowed: bool, toolsList: bool, reason: string)

  datatype AnonymousMCPPolicy = AnonymousMCPPolicy(publicTools: seq<string>)

  predicate IsPublic(p: AnonymousMCPPolicy, name: string) {
    name in p.publicTools
  }

  method IsPublicTool(p: AnonymousMCPPolicy, name: string) returns (r: bool)
    ensures r == IsPublic(p, name)
  {
    for i := 0 to |p.publicTools|
      invariant name !in p.publicTools[..i]
    {
      if p.publicTools[i] == name {
        return true;
      }
    }
    assert p.publicTools[..|p.publicTools|] == p.publicTools;
    return false;
  }

  function MessageAllowed(p: AnonymousMCPPolicy, d: Decoders, raw: Bytes): Decision {
    var msg := d.message(raw);
    if msg.None? then Decision(false, false, "invalid_json")
    else if msg.value.method_ in ["initialize", "notifications/initialized", "ping"] then Decision(true, false, "")
    else if msg.value.method_ == "tools/list" then Decision(true, true, "")
    else if msg.value.method_ == "tools/call" then
      var name := d.toolName(msg.value.params);
      if name.None? then Decision(false, false, "invalid_tool_call_params")
      else if name.value == "" then Decision(false, false, "missing_tool_name")
      else if IsPublic(p, name.value) then Decision(true, false, "")
      else Decision(false, false, "tool_not_public")
    else Decision(false, false, "method_not_public")
  }

  /** The messages of a body: the elements of a batch, or the body itself. */
  function Messages(d: Decoders, body: Bytes): seq<Bytes> {
    match d.batch(body)
    case Some(batch) => batch
    case None => [body]
  }

  /** There is a message, and each message is admitted alone. */
  predicate Admits(p: AnonymousMCPPolicy, d: Decoders, body: Bytes) {
    var ms := Messages(d, body);
    |ms| > 0 && forall m | m in ms :: MessageAllowed(p, d, m).allowed
  }

  predicate AsksForTools(p: AnonymousMCPPolicy, d: Decoders, body: Bytes) {
    exists m | m in Messages(d, body) :: MessageAllowed(p, d, m).toolsList
  }

  /**
   A body is admitted exactly when it has a message and each of its messages is admitted alone.
   A refusal gives the reason of the first message refused; the flag says that some message asks for the tools.
   */
  method PayloadAllowed(p: AnonymousMCPPolicy, d: Decoders, body: Bytes) returns (r: Decision)
    ensures d.batch(body) == Some([]) ==> r == Decision(false, false, "empty_batch")
    ensures d.batch(body) == None ==> r == MessageAllowed(p, d, body)
    ensures var ms := Messages(d, body);
            && (r.allowed <==> Admits(p, d, body))
            && (r.toolsList <==> r.allowed && AsksForTools(p, d, body))
            && (r.allowed ==> r.reason == "")
            && (|ms| == 0 ==> r.reason == "empty_batch")
            && (!r.allowed && |ms| > 0 ==>
                  exists i | 0 <= i < |ms| ::
                    && !MessageAllowed(p, d, ms[i]).allowed && r.reason == MessageAllowed(p, d, ms[i]).reason
                    && forall m | m in ms[..i] :: MessageAllowed(p, d, m).allowed)
  {
    var batch := d.batch(body);
    if batch.Some? {
      var ms := batch.value;
      if |ms| == 0 {
        return Decision(false, false, "empty_batch");
      }
      var containsToolsList := false;
      for i := 0 to |ms|
        invariant forall m | m in ms[..i] :: MessageAllowed(p, d, m).allowed
        invariant containsToolsList <==> exists m | m in ms[..i] :: MessageAllowed(p, d, m).toolsList
      {
        var one := MessageAllowed(p, d, ms[i]);
        if !one.allowed {
          assert ms[i] in ms;
          return Decision(false, false, one.reason);
        }
        containsToolsList := containsToolsList || one.toolsList;
        assert ms[..i + 1] == ms[..i] + [ms[i]];
      }
      assert ms[..|ms|] == ms;
      return Decision(true, containsToolsList, "");
    }
    var ms := [body];
    assert ms[0] in ms;
    assert forall m | m in ms :: m == body;
    assert MessageAllowed(p, d, body).toolsList ==> MessageAllowed(p, d, body).allowed;
    return MessageAllowed(p, d, body);
  }

  /** A message is admitted exactly when it decodes and is a session message, tools/list, or a call of a public tool. */
  lemma MessageAllowedIff(p: AnonymousMCPPolicy, d: Decoders, raw: Bytes)
    ensures MessageAllowed(p, d, raw).allowed <==>
              && d.message(raw).Some?
              && var msg := d.message(raw).value;
                 || msg.method_ in {"initialize", "notifications/initialized", "ping", "tools/list"}
                 || (msg.method_ == "tools/call" &&
                     exists name | name in p.publicTools :: name != "" && d.toolName(msg.params) == Some(name))
    ensures MessageAllowed(p, d, raw).toolsList <==>
              d.message(raw).Some? && d.message(raw).value.method_ == "tools/list"
    ensures MessageAllowed(p, d, raw).allowed <==> MessageAllowed(p, d, raw).reason == ""
    ensures !MessageAllowed(p, d, raw).allowed ==>
              MessageAllowed(p, d, raw).reason ==
              if d.message(raw).None? then "invalid_json"
              else if d.message(raw).value.method_ != "tools/call" then "method_not_public"
              else
                var name := d.toolName(d.message(raw).value.params);
                if name.None? then "invalid_tool_call_params"
                else if |name.value| == 0 then "missing_tool_name" else "tool_not_public"
  {
  }

  /** Admission and the flag, spelled out over the messages of the body. */
  lemma AdmissionSpelledOut(p: AnonymousMCPPolicy, d: Decoders, body: Bytes)
    ensures d.batch(body).Some? ==> Messages(d, body) == d.batch(body).value
    ensures d.batch(body).None? ==> Messages(d, body) == [body]
    ensures Admits(p, d, body) <==>
              && d.batch(body) != Some([])
              && forall m | m in Messages(d, body) ::
                   && d.message(m).Some?
                   && var msg := d.message(m).value;
                      || msg.method_ in {"initialize", "notifications/initialized", "ping", "tools/list"}
                      || (msg.method_ == "tools/call" && d.toolName(msg.params).Some? &&
                          var name := d.toolName(msg.params).value;
                          |name| > 0 && name in p.publicTools)
    ensures AsksForTools(p, d, body) <==>
              exists m | m in Messages(d, body) :: d.message(m).Some? && d.message(m).value.method_ == "tools/list"
  {
    forall m
      ensures MessageAllowed(p, d, m).toolsList <==> d.message(m).Some? && d.message(m).value.method_ == "tools/list"
      ensures MessageAllowed(p, d, m).allowed <==>
                && d.message(m).Some?
                && var msg := d.message(m).value;
                   || msg.method_ in {"initialize", "notifications/initialized", "ping", "tools/list"}
                   || (msg.method_ == "tools/call" && d.toolName(msg.params).Some? &&
                       var name := d.toolName(msg.params).value;
                       |name| > 0 && name in p.publicTools)
    {
      MessageAllowedIff(p, d, m);
    }
    hide MessageAllowed;
  }

  /** What an admitted body can do: start a session, list tools, or call a tool by a public name, and nothing else. */
  lemma AdmittedMessages(p: AnonymousMCPPolicy, d: Decoders, body: Bytes, m: Bytes)
    requires Admits(p, d, body) && m in Messages(d, body)
    ensures d.message(m).Some?
    ensures var method_ := d.message(m).value.method_;
            && method_ in ["initialize", "notifications/initialized", "ping", "tools/list", "tools/call"]
            && (method_ == "tools/call" ==>
                  d.toolName(d.message(m).value.params).Some?
                      && d.toolName(d.message(m).value.params).value in p.publicTools)
  {
  }

  /** A larger public list admits at least as much, and never changes whether the tools are asked for. */
  lemma AdmissionMonotone(p: AnonymousMCPPolicy, other: AnonymousMCPPolicy, d: Decoders, body: Bytes)
    requires forall name | name in p.publicTools :: name in other.publicTools
    requires Admits(p, d, body)
    ensures Admits(other, d, body)
    ensures AsksForTools(other, d, body) == AsksForTools(p, d, body)
  {
    forall m
      ensures MessageAllowed(other, d, m).toolsList == MessageAllowed(p, d, m).toolsList
      ensures MessageAllowed(p, d, m).allowed ==> MessageAllowed(other, d, m).allowed
    {
    }
  }

  /** Some message of the body calls the tool `name`. */
  predicate CallsTool(d: Decoders, body: Bytes, name: string) {
    exists m | m in Messages(d, body) ::
      && d.message(m).Some? && d.message(m).value.method_ == "tools/call"
      && d.toolName(d.message(m).value.params) == Some(name)
  }

  /** All that a public list decides: of the bodies that some list admits, it admits those that call its tools only. */
  lemma AdmittedIffToolsPublic(p: AnonymousMCPPolicy, other: AnonymousMCPPolicy, d: Decoders, body: Bytes)
    requires Admits(other, d, body)
    ensures Admits(p, d, body) <==> forall name | CallsTool(d, body, name) :: IsPublic(p, name)
  {
    forall m | m in Messages(d, body)
      ensures MessageAllowed(p, d, m).allowed <==>
                (d.message(m).value.method_ == "tools/call" ==>
                   IsPublic(p, d.toolName(d.message(m).value.params).value))
      ensures d.message(m).Some?
      ensures d.message(m).value.method_ == "tools/call" ==>
                && d.toolName(d.message(m).value.params).Some?
                && CallsTool(d, body, d.toolName(d.message(m).value.params).value)
    {
      AdmittedMessages(other, d, body, m);
      MessageAllowedIff(p, d, m);
      MessageAllowedIff(other, d, m);
    }
  }

  /** Batching is no way around the policy: a batch is admitted exactly when its parts are, and only if it has some. */
  lemma BatchesCompose(p: AnonymousMCPPolicy, d: Decoders, whole: Bytes, left: Bytes, right: Bytes)
    requires d.batch(whole).Some? && d.batch(left).Some? && d.batch(right).Some?
    requires d.batch(whole).value == d.batch(left).value + d.batch(right).value
    requires |d.batch(left).value| > 0 && |d.batch(right).value| > 0
    ensures Admits(p, d, whole) <==> Admits(p, d, left) && Admits(p, d, right)
    ensures AsksForTools(p, d, whole) <==> AsksForTools(p, d, left) || AsksForTools(p, d, right)
  {
    assert forall m :: m in Messages(d, whole) <==> m in Messages(d, left) || m in Messages(d, right);
  }
}
