/** Recorded turns on the heap: deep copies of them, and why a store of copies cannot be changed
    from outside. */
module DeepCopy {
  import opened Wrappers
  import Replay

  // Storage that several holders may share: a map, the elements of a slice, or a boxed value.
  class Cell<T> {
    var it: T

    constructor (it: T)
      ensures this.it == it
    {
      this.it := it;
    }
  }

  // A dynamically typed value. A map or slice of another type than these is opaque to copying.
  datatype Any =
    | Nil
    | Atom(id: int, reflexive: bool)
    | OpaqueRef(o: Cell<int>)
    | MapRef(m: Cell?<map<string, Any>>)
    | ListRef(l: Cell?<seq<Any>>)

  datatype ToolCall = ToolCall(id: string, tool: string, args: Cell?<map<string, Any>>)
  datatype Message = Message(role: string, text: string, toolCall: Cell?<ToolCall>, toolUseID: string, value: Any, error: string)
  datatype Tool = Tool(name: string, description: string, params: Cell?<seq<string>>, needs: Cell?<seq<string>>, schema: Any)
  datatype Request = Request(
    model: string, messages: Cell?<seq<Message>>, tools: Cell?<seq<Tool>>, forceTool: string, maxTokens: int,
    temperature: Cell?<Replay.Float>, topP: Cell?<Replay.Float>, responseFormat: Any, stream: bool,
    stop: Cell?<seq<string>>, metadata: Cell?<map<string, string>>)
  datatype TurnResult = TurnResult(status: string, text: string, calls: Cell?<seq<ToolCall>>, reason: string, usage: Replay.Usage)
  datatype Record = Record(request: Request, result: TurnResult, events: Cell?<seq<Replay.StreamEvent>>, error: string)

  // ---------------------------------------------------------------------------------
  // What storage stands for: every cell is one of S, except opaque ones, which hold what P says

  type Contents = map<Cell<int>, int>

  ghost function Now(cells: set<Cell<int>>): Contents
    reads cells
  {
    map o | o in cells :: o.it
  }

  ghost predicate Stands(v: Any, t: Replay.Any, S: set<object>, P: Contents)
    reads S
    decreases t
  {
    match t
    case Nil => v == Nil
    case Atom(id, reflexive) => v == Atom(id, reflexive)
    case Opaque(content) => v.OpaqueRef? && v.o in P && P[v.o] == content
    case NilMap => v == MapRef(null)
    case MapOf(fields) =>
      && v.MapRef? && v.m != null && v.m in S && v.m.it.Keys == fields.Keys
      && forall k | k in fields :: Stands(v.m.it[k], fields[k], S, P)
    case NilList => v == ListRef(null)
    case ListOf(elements) =>
      && v.ListRef? && v.l != null && v.l in S && |v.l.it| == |elements|
      && forall i | 0 <= i < |elements| :: Stands(v.l.it[i], elements[i], S, P)
  }

  ghost predicate StandsBox<T>(c: Cell?<T>, t: Option<T>, S: set<object>)
    reads S
  {
    if t.Some? then c != null && c in S && c.it == t.value else c == null
  }

  ghost predicate StandsFlat<T>(c: Cell?<seq<T>>, t: Replay.Slice<T>, S: set<object>)
    reads S
  {
    if t.Items? then c != null && c in S && c.it == t.items else c == null
  }

  ghost predicate StandsCall(c: ToolCall, t: Replay.ToolCall, S: set<object>, P: Contents)
    reads S
  {
    && c.id == t.id && c.tool == t.tool
    && if t.args.Some? then Stands(MapRef(c.args), Replay.MapOf(t.args.value), S, P) else c.args == null
  }

  ghost predicate StandsMessage(m: Message, t: Replay.Message, S: set<object>, P: Contents)
    reads S
  {
    && m.role == t.role && m.text == t.text && m.toolUseID == t.toolUseID && m.error == t.error
    && Stands(m.value, t.value, S, P)
    && if t.toolCall.Some? then m.toolCall != null && m.toolCall in S && StandsCall(m.toolCall.it, t.toolCall.value, S, P)
       else m.toolCall == null
  }

  ghost predicate StandsTool(c: Tool, t: Replay.Tool, S: set<object>, P: Contents)
    reads S
  {
    && c.name == t.name && c.description == t.description && Stands(c.schema, t.schema, S, P)
    && StandsFlat(c.params, t.params, S) && StandsFlat(c.needs, t.needs, S)
  }

  ghost predicate StandsCalls(c: Cell?<seq<ToolCall>>, t: Replay.Slice<Replay.ToolCall>, S: set<object>, P: Contents)
    reads S
  {
    if t.NilSlice? then c == null
    else c != null && c in S && |c.it| == |t.items| && forall i | 0 <= i < |t.items| :: StandsCall(c.it[i], t.items[i], S, P)
  }

  ghost predicate StandsMessages(c: Cell?<seq<Message>>, t: Replay.Slice<Replay.Message>, S: set<object>, P: Contents)
    reads S
  {
    if t.NilSlice? then c == null
    else c != null && c in S && |c.it| == |t.items| && forall i | 0 <= i < |t.items| :: StandsMessage(c.it[i], t.items[i], S, P)
  }

  ghost predicate StandsTools(c: Cell?<seq<Tool>>, t: Replay.Slice<Replay.Tool>, S: set<object>, P: Contents)
    reads S
  {
    if t.NilSlice? then c == null
    else c != null && c in S && |c.it| == |t.items| && forall i | 0 <= i < |t.items| :: StandsTool(c.it[i], t.items[i], S, P)
  }

  ghost predicate StandsRequest(r: Request, t: Replay.Request, S: set<object>, P: Contents)
    reads S
  {
    && r.model == t.model && r.forceTool == t.forceTool && r.maxTokens == t.maxTokens && r.stream == t.stream
    && StandsMessages(r.messages, t.messages, S, P) && StandsTools(r.tools, t.tools, S, P)
    && Stands(r.responseFormat, t.responseFormat, S, P) && StandsOptions(r, t, S)
  }

  ghost predicate StandsOptions(r: Request, t: Replay.Request, S: set<object>)
    reads S
  {
    && StandsBox(r.temperature, t.temperature, S) && StandsBox(r.topP, t.topP, S)
    && StandsFlat(r.stop, t.stop, S) && StandsBox(r.metadata, t.metadata, S)
  }

  ghost predicate StandsResult(r: TurnResult, t: Replay.TurnResult, S: set<object>, P: Contents)
    reads S
  {
    r.status == t.status && r.text == t.text && r.reason == t.reason && r.usage == t.usage && StandsCalls(r.calls, t.calls, S, P)
  }

  ghost predicate StandsRecord(r: Record, t: Replay.Record, S: set<object>, P: Contents)
    reads S
  {
    && StandsRequest(r.request, t.request, S, P) && StandsResult(r.result, t.result, S, P)
    && StandsFlat(r.events, t.events, S) && r.error == t.error
  }

  // ---------------------------------------------------------------------------------
  // More storage does no harm

  lemma {:induction false} AnyMore(v: Any, t: Replay.Any, S: set<object>, S': set<object>, P: Contents)
    requires Stands(v, t, S, P) && S <= S'
    ensures Stands(v, t, S', P)
    decreases t
  {
    match t
    case MapOf(fields) =>
      forall k | k in fields
        ensures Stands(v.m.it[k], fields[k], S', P)
      {
        AnyMore(v.m.it[k], fields[k], S, S', P);
      }
    case ListOf(elements) =>
      forall i | 0 <= i < |elements|
        ensures Stands(v.l.it[i], elements[i], S', P)
      {
        AnyMore(v.l.it[i], elements[i], S, S', P);
      }
    case _ =>
  }

  lemma BoxMore<T>(c: Cell?<T>, t: Option<T>, S: set<object>, S': set<object>)
    requires StandsBox(c, t, S) && S <= S'
    ensures StandsBox(c, t, S')
  {
  }

  lemma FlatMore<T>(c: Cell?<seq<T>>, t: Replay.Slice<T>, S: set<object>, S': set<object>)
    requires StandsFlat(c, t, S) && S <= S'
    ensures StandsFlat(c, t, S')
  {
  }

  lemma OptionsMore(r: Request, t: Replay.Request, S: set<object>, S': set<object>)
    requires StandsOptions(r, t, S) && S <= S'
    ensures StandsOptions(r, t, S')
  {
  }

  lemma SameOptions(r: Request, r': Request, t: Replay.Request, t': Replay.Request, S: set<object>)
    requires StandsOptions(r, t, S)
    requires r'.temperature == r.temperature && r'.topP == r.topP && r'.stop == r.stop && r'.metadata == r.metadata
    requires t'.temperature == t.temperature && t'.topP == t.topP && t'.stop == t.stop && t'.metadata == t.metadata
    ensures StandsOptions(r', t', S)
  {
  }

  lemma CallMore(c: ToolCall, t: Replay.ToolCall, S: set<object>, S': set<object>, P: Contents)
    requires StandsCall(c, t, S, P) && S <= S'
    ensures StandsCall(c, t, S', P)
  {
    if t.args.Some? {
      AnyMore(MapRef(c.args), Replay.MapOf(t.args.value), S, S', P);
    }
  }

  lemma MessageMore(m: Message, t: Replay.Message, S: set<object>, S': set<object>, P: Contents)
    requires StandsMessage(m, t, S, P) && S <= S'
    ensures StandsMessage(m, t, S', P)
  {
    AnyMore(m.value, t.value, S, S', P);
    if t.toolCall.Some? {
      CallMore(m.toolCall.it, t.toolCall.value, S, S', P);
    }
  }

  lemma ToolMore(c: Tool, t: Replay.Tool, S: set<object>, S': set<object>, P: Contents)
    requires StandsTool(c, t, S, P) && S <= S'
    ensures StandsTool(c, t, S', P)
  {
    AnyMore(c.schema, t.schema, S, S', P);
  }

  lemma CallsMore(c: Cell?<seq<ToolCall>>, t: Replay.Slice<Replay.ToolCall>, S: set<object>, S': set<object>, P: Contents)
    requires StandsCalls(c, t, S, P) && S <= S'
    ensures StandsCalls(c, t, S', P)
  {
    if t.Items? {
      forall i | 0 <= i < |t.items|
        ensures StandsCall(c.it[i], t.items[i], S', P)
      {
        CallMore(c.it[i], t.items[i], S, S', P);
      }
    }
  }

  lemma MessagesMore(c: Cell?<seq<Message>>, t: Replay.Slice<Replay.Message>, S: set<object>, S': set<object>, P: Contents)
    requires StandsMessages(c, t, S, P) && S <= S'
    ensures StandsMessages(c, t, S', P)
  {
    if t.Items? {
      forall i | 0 <= i < |t.items|
        ensures StandsMessage(c.it[i], t.items[i], S', P)
      {
        MessageMore(c.it[i], t.items[i], S, S', P);
      }
    }
  }

  lemma ToolsMore(c: Cell?<seq<Tool>>, t: Replay.Slice<Replay.Tool>, S: set<object>, S': set<object>, P: Contents)
    requires StandsTools(c, t, S, P) && S <= S'
    ensures StandsTools(c, t, S', P)
  {
    if t.Items? {
      forall i | 0 <= i < |t.items|
        ensures StandsTool(c.it[i], t.items[i], S', P)
      {
        ToolMore(c.it[i], t.items[i], S, S', P);
      }
    }
  }

  lemma RecordMore(r: Record, t: Replay.Record, S: set<object>, S': set<object>, P: Contents)
    requires StandsRecord(r, t, S, P) && S <= S'
    ensures StandsRecord(r, t, S', P)
  {
    MessagesMore(r.request.messages, t.request.messages, S, S', P);
    ToolsMore(r.request.tools, t.request.tools, S, S', P);
    AnyMore(r.request.responseFormat, t.request.responseFormat, S, S', P);
    CallsMore(r.result.calls, t.result.calls, S, S', P);
  }

  ghost predicate Within(P: Contents, P': Contents) {
    forall o | o in P :: o in P' && P'[o] == P[o]
  }

  lemma {:induction false} AnyShares(v: Any, t: Replay.Any, S: set<object>, P: Contents, P': Contents)
    requires Stands(v, t, S, P) && Within(P, P')
    ensures Stands(v, t, S, P')
    decreases t
  {
    match t
    case MapOf(fields) =>
      forall k | k in fields
        ensures Stands(v.m.it[k], fields[k], S, P')
      {
        AnyShares(v.m.it[k], fields[k], S, P, P');
      }
    case ListOf(elements) =>
      forall i | 0 <= i < |elements|
        ensures Stands(v.l.it[i], elements[i], S, P')
      {
        AnyShares(v.l.it[i], elements[i], S, P, P');
      }
    case _ =>
  }

  lemma CallShares(c: ToolCall, t: Replay.ToolCall, S: set<object>, P: Contents, P': Contents)
    requires StandsCall(c, t, S, P) && Within(P, P')
    ensures StandsCall(c, t, S, P')
  {
    if t.args.Some? {
      AnyShares(MapRef(c.args), Replay.MapOf(t.args.value), S, P, P');
    }
  }

  lemma MessageShares(m: Message, t: Replay.Message, S: set<object>, P: Contents, P': Contents)
    requires StandsMessage(m, t, S, P) && Within(P, P')
    ensures StandsMessage(m, t, S, P')
  {
    AnyShares(m.value, t.value, S, P, P');
    if t.toolCall.Some? {
      CallShares(m.toolCall.it, t.toolCall.value, S, P, P');
    }
  }

  lemma RecordShares(r: Record, t: Replay.Record, S: set<object>, P: Contents, P': Contents)
    requires StandsRecord(r, t, S, P) && Within(P, P')
    ensures StandsRecord(r, t, S, P')
  {
    var (messages, tools, calls) := (t.request.messages, t.request.tools, t.result.calls);
    AnyShares(r.request.responseFormat, t.request.responseFormat, S, P, P');
    if messages.Items? {
      forall i | 0 <= i < |messages.items|
        ensures StandsMessage(r.request.messages.it[i], messages.items[i], S, P')
      {
        MessageShares(r.request.messages.it[i], messages.items[i], S, P, P');
      }
    }
    if tools.Items? {
      forall i | 0 <= i < |tools.items|
        ensures StandsTool(r.request.tools.it[i], tools.items[i], S, P')
      {
        AnyShares(r.request.tools.it[i].schema, tools.items[i].schema, S, P, P');
      }
    }
    if calls.Items? {
      forall i | 0 <= i < |calls.items|
        ensures StandsCall(r.result.calls.it[i], calls.items[i], S, P')
      {
        CallShares(r.result.calls.it[i], calls.items[i], S, P, P');
      }
    }
  }

  // ---------------------------------------------------------------------------------
  // Copying

  method CloneAny(v: Any, ghost t: Replay.Any, ghost S: set<object>, ghost P: Contents) returns (r: Any, ghost R: set<object>)
    requires Stands(v, t, S, P)
    ensures fresh(R) && Stands(r, Replay.CloneAny(t), R, P)
    decreases t, 2
  {
    match v
    case MapRef(m) =>
      var copy;
      copy, R := CloneMap(m, t, S, P);
      r := MapRef(copy);
    case ListRef(l) =>
      var copy;
      copy, R := CloneList(l, t, S, P);
      r := ListRef(copy);
    case _ => r, R := v, {};
  }

  method CloneMap(m: Cell?<map<string, Any>>, ghost t: Replay.Any, ghost S: set<object>, ghost P: Contents)
    returns (r: Cell<map<string, Any>>, ghost R: set<object>)
    requires Stands(MapRef(m), t, S, P)
    ensures fresh(R) && Stands(MapRef(r), Replay.CloneAny(t), R, P)
    decreases t, 1
  {
    var out: map<string, Any> := map[];
    R := {};
    if m != null {
      var todo := m.it.Keys;
      while todo != {}
        invariant todo <= m.it.Keys && out.Keys == m.it.Keys - todo
        invariant fresh(R)
        invariant forall k | k in out :: Stands(out[k], Replay.CloneAny(t.fields[k]), R, P)
        decreases todo
      {
        var k :| k in todo;
        var copy;
        ghost var C;
        copy, C := CloneAny(m.it[k], t.fields[k], S, P);
        FieldsMore(out, t.fields, R, R + C, P);
        AnyMore(copy, Replay.CloneAny(t.fields[k]), C, R + C, P);
        R := R + C;
        out := out[k := copy];
        todo := todo - {k};
      }
    }
    r := new Cell(out);
    FieldsMore(out, if t.MapOf? then t.fields else map[], R, R + {r}, P);
    R := R + {r};
  }

  lemma FieldsMore(out: map<string, Any>, fields: map<string, Replay.Any>, S: set<object>, S': set<object>, P: Contents)
    requires out.Keys <= fields.Keys && S <= S'
    requires forall k | k in out :: Stands(out[k], Replay.CloneAny(fields[k]), S, P)
    ensures forall k | k in out :: Stands(out[k], Replay.CloneAny(fields[k]), S', P)
  {
    forall k | k in out
      ensures Stands(out[k], Replay.CloneAny(fields[k]), S', P)
    {
      AnyMore(out[k], Replay.CloneAny(fields[k]), S, S', P);
    }
  }

  method CloneList(l: Cell?<seq<Any>>, ghost t: Replay.Any, ghost S: set<object>, ghost P: Contents)
    returns (r: Cell<seq<Any>>, ghost R: set<object>)
    requires Stands(ListRef(l), t, S, P)
    ensures fresh(R) && Stands(ListRef(r), Replay.CloneAny(t), R, P)
    decreases t, 1
  {
    var out: seq<Any> := [];
    R := {};
    if l != null {
      for i := 0 to |l.it|
        invariant |out| == i && fresh(R)
        invariant forall k | 0 <= k < i :: Stands(out[k], Replay.CloneAny(t.elements[k]), R, P)
      {
        var copy;
        ghost var C;
        copy, C := CloneAny(l.it[i], t.elements[i], S, P);
        ElementsMore(out, t.elements, R, R + C, P);
        AnyMore(copy, Replay.CloneAny(t.elements[i]), C, R + C, P);
        R := R + C;
        out := out + [copy];
      }
    }
    r := new Cell(out);
    ElementsMore(out, if t.ListOf? then t.elements else [], R, R + {r}, P);
    R := R + {r};
  }

  lemma ElementsMore(out: seq<Any>, elements: seq<Replay.Any>, S: set<object>, S': set<object>, P: Contents)
    requires |out| <= |elements| && S <= S'
    requires forall k | 0 <= k < |out| :: Stands(out[k], Replay.CloneAny(elements[k]), S, P)
    ensures forall k | 0 <= k < |out| :: Stands(out[k], Replay.CloneAny(elements[k]), S', P)
  {
    forall k | 0 <= k < |out|
      ensures Stands(out[k], Replay.CloneAny(elements[k]), S', P)
    {
      AnyMore(out[k], Replay.CloneAny(elements[k]), S, S', P);
    }
  }

  method CloneBox<T>(c: Cell?<T>, ghost t: Option<T>, ghost S: set<object>) returns (r: Cell?<T>, ghost R: set<object>)
    requires StandsBox(c, t, S)
    ensures fresh(R) && StandsBox(r, t, R)
  {
    r, R := null, {};
    if c != null {
      r := new Cell(c.it);
      R := {r};
    }
  }

  // append([]T(nil), s...) for elements that hold no storage of their own.
  method CloneFlat<T>(c: Cell?<seq<T>>, ghost t: Replay.Slice<T>, ghost S: set<object>) returns (r: Cell?<seq<T>>, ghost R: set<object>)
    requires StandsFlat(c, t, S)
    ensures fresh(R) && StandsFlat(r, Replay.Appended(t), R)
  {
    r, R := null, {};
    if c != null && |c.it| > 0 {
      r := new Cell(c.it);
      R := {r};
    }
  }

  method CloneCall(c: ToolCall, ghost t: Replay.ToolCall, ghost S: set<object>, ghost P: Contents)
    returns (r: ToolCall, ghost R: set<object>)
    requires StandsCall(c, t, S, P)
    ensures fresh(R) && StandsCall(r, Replay.CloneToolCall(t), R, P)
  {
    r, R := c, {};
    if c.args != null {
      var args;
      args, R := CloneMap(c.args, Replay.MapOf(t.args.value), S, P);
      r := c.(args := args);
    }
  }

  // make([]ToolCall, n): never nil.
  method CloneCalls(c: Cell?<seq<ToolCall>>, ghost t: Replay.Slice<Replay.ToolCall>, ghost S: set<object>, ghost P: Contents)
    returns (r: Cell<seq<ToolCall>>, ghost R: set<object>)
    requires StandsCalls(c, t, S, P)
    ensures fresh(R)
    ensures StandsCalls(r, if t.Items? then Replay.MapSlice(t, Replay.CloneToolCall) else Replay.Items([]), R, P)
  {
    hide Stands, StandsCall, Replay.CloneToolCall;
    var out: seq<ToolCall> := [];
    R := {};
    if c != null {
      for i := 0 to |c.it|
        invariant |out| == i && fresh(R)
        invariant forall k | 0 <= k < i :: StandsCall(out[k], Replay.CloneToolCall(t.items[k]), R, P)
      {
        var copy;
        ghost var C;
        copy, C := CloneCall(c.it[i], t.items[i], S, P);
        forall k | 0 <= k < i
          ensures StandsCall(out[k], Replay.CloneToolCall(t.items[k]), R + C, P)
        {
          CallMore(out[k], Replay.CloneToolCall(t.items[k]), R, R + C, P);
        }
        CallMore(copy, Replay.CloneToolCall(t.items[i]), C, R + C, P);
        R := R + C;
        out := out + [copy];
      }
    }
    r := new Cell(out);
    forall k | 0 <= k < |out|
      ensures StandsCall(out[k], Replay.CloneToolCall(t.items[k]), R + {r}, P)
    {
      CallMore(out[k], Replay.CloneToolCall(t.items[k]), R, R + {r}, P);
    }
    R := R + {r};
  }

  method CloneMessage(m: Message, ghost t: Replay.Message, ghost S: set<object>, ghost P: Contents)
    returns (r: Message, ghost R: set<object>)
    requires StandsMessage(m, t, S, P)
    ensures fresh(R) && StandsMessage(r, Replay.CloneMessage(t), R, P)
  {
    hide Stands, StandsCall, Replay.CloneToolCall, Replay.CloneAny;
    var value;
    value, R := CloneAny(m.value, t.value, S, P);
    r := m.(value := value);
    if m.toolCall != null {
      var call;
      ghost var C;
      call, C := CloneCall(m.toolCall.it, t.toolCall.value, S, P);
      var box := new Cell(call);
      r := r.(toolCall := box);
      AnyMore(value, Replay.CloneAny(t.value), R, R + C + {box}, P);
      CallMore(call, Replay.CloneToolCall(t.toolCall.value), C, R + C + {box}, P);
      R := R + C + {box};
    }
  }

  method CloneMessages(c: Cell?<seq<Message>>, ghost t: Replay.Slice<Replay.Message>, ghost S: set<object>, ghost P: Contents)
    returns (r: Cell?<seq<Message>>, ghost R: set<object>)
    requires StandsMessages(c, t, S, P)
    ensures fresh(R) && StandsMessages(r, Replay.MapSlice(Replay.Appended(t), Replay.CloneMessage), R, P)
  {
    hide Stands, StandsMessage, Replay.CloneMessage;
    if c == null || |c.it| == 0 {
      return null, {};
    }
    var out: seq<Message> := [];
    R := {};
    for i := 0 to |c.it|
      invariant |out| == i && fresh(R)
      invariant forall k | 0 <= k < i :: StandsMessage(out[k], Replay.CloneMessage(t.items[k]), R, P)
    {
      var copy;
      ghost var C;
      copy, C := CloneMessage(c.it[i], t.items[i], S, P);
      forall k | 0 <= k < i
        ensures StandsMessage(out[k], Replay.CloneMessage(t.items[k]), R + C, P)
      {
        MessageMore(out[k], Replay.CloneMessage(t.items[k]), R, R + C, P);
      }
      MessageMore(copy, Replay.CloneMessage(t.items[i]), C, R + C, P);
      R := R + C;
      out := out + [copy];
    }
    r := new Cell(out);
    forall k | 0 <= k < |out|
      ensures StandsMessage(out[k], Replay.CloneMessage(t.items[k]), R + {r}, P)
    {
      MessageMore(out[k], Replay.CloneMessage(t.items[k]), R, R + {r}, P);
    }
    R := R + {r};
  }

  method CloneTool(c: Tool, ghost t: Replay.Tool, ghost S: set<object>, ghost P: Contents)
    returns (r: Tool, ghost R: set<object>)
    requires StandsTool(c, t, S, P)
    ensures fresh(R) && StandsTool(r, Replay.CloneTool(t), R, P)
  {
    hide Stands, Replay.CloneAny;
    var params, needs, schema;
    ghost var A, B, C;
    params, A := CloneFlat(c.params, t.params, S);
    needs, B := CloneFlat(c.needs, t.needs, S);
    schema, C := CloneAny(c.schema, t.schema, S, P);
    R := A + B + C;
    AnyMore(schema, Replay.CloneAny(t.schema), C, R, P);
    r := c.(params := params, needs := needs, schema := schema);
  }

  method CloneTools(c: Cell?<seq<Tool>>, ghost t: Replay.Slice<Replay.Tool>, ghost S: set<object>, ghost P: Contents)
    returns (r: Cell?<seq<Tool>>, ghost R: set<object>)
    requires StandsTools(c, t, S, P)
    ensures fresh(R) && StandsTools(r, Replay.MapSlice(Replay.Appended(t), Replay.CloneTool), R, P)
  {
    hide Stands, StandsTool, Replay.CloneTool;
    if c == null || |c.it| == 0 {
      return null, {};
    }
    var out: seq<Tool> := [];
    R := {};
    for i := 0 to |c.it|
      invariant |out| == i && fresh(R)
      invariant forall k | 0 <= k < i :: StandsTool(out[k], Replay.CloneTool(t.items[k]), R, P)
    {
      var copy;
      ghost var C;
      copy, C := CloneTool(c.it[i], t.items[i], S, P);
      forall k | 0 <= k < i
        ensures StandsTool(out[k], Replay.CloneTool(t.items[k]), R + C, P)
      {
        ToolMore(out[k], Replay.CloneTool(t.items[k]), R, R + C, P);
      }
      ToolMore(copy, Replay.CloneTool(t.items[i]), C, R + C, P);
      R := R + C;
      out := out + [copy];
    }
    r := new Cell(out);
    forall k | 0 <= k < |out|
      ensures StandsTool(out[k], Replay.CloneTool(t.items[k]), R + {r}, P)
    {
      ToolMore(out[k], Replay.CloneTool(t.items[k]), R, R + {r}, P);
    }
    R := R + {r};
  }

  // The options of a request, each in storage of its own.
  method CloneOptions(req: Request, ghost t: Replay.Request, ghost S: set<object>)
    returns (r: Request, ghost R: set<object>)
    requires StandsOptions(req, t, S)
    ensures fresh(R) && r == req.(temperature := r.temperature, topP := r.topP, stop := r.stop, metadata := r.metadata)
    ensures StandsOptions(r, t.(stop := Replay.Appended(t.stop)), R)
  {
    hide StandsBox, StandsFlat, Replay.Appended;
    var temperature, topP, stop, metadata;
    ghost var A, B, C, D;
    temperature, A := CloneBox(req.temperature, t.temperature, S);
    topP, B := CloneBox(req.topP, t.topP, S);
    stop, C := CloneFlat(req.stop, t.stop, S);
    metadata, D := CloneBox(req.metadata, t.metadata, S);
    R := A + B + C + D;
    BoxMore(temperature, t.temperature, A, R);
    BoxMore(topP, t.topP, B, R);
    FlatMore(stop, Replay.Appended(t.stop), C, R);
    BoxMore(metadata, t.metadata, D, R);
    r := req.(temperature := temperature, topP := topP, stop := stop, metadata := metadata);
  }

  method CloneRequest(req: Request, ghost t: Replay.Request, ghost S: set<object>, ghost P: Contents)
    returns (r: Request, ghost R: set<object>)
    requires StandsRequest(req, t, S, P)
    ensures fresh(R) && StandsRequest(r, Replay.CloneRequest(t), R, P)
  {
    hide Stands, StandsMessages, StandsTools, StandsOptions, Replay.CloneAny, Replay.MapSlice, Replay.Appended;
    var messages, tools, format;
    ghost var A, B, C, D;
    messages, A := CloneMessages(req.messages, t.messages, S, P);
    tools, B := CloneTools(req.tools, t.tools, S, P);
    format, C := CloneAny(req.responseFormat, t.responseFormat, S, P);
    r, D := CloneOptions(req, t, S);
    R := A + B + C + D;
    MessagesMore(messages, Replay.MapSlice(Replay.Appended(t.messages), Replay.CloneMessage), A, R, P);
    ToolsMore(tools, Replay.MapSlice(Replay.Appended(t.tools), Replay.CloneTool), B, R, P);
    AnyMore(format, Replay.CloneAny(t.responseFormat), C, R, P);
    OptionsMore(r, t.(stop := Replay.Appended(t.stop)), D, R);
    ghost var options := r;
    r := r.(messages := messages, tools := tools, responseFormat := format);
    SameOptions(options, r, t.(stop := Replay.Appended(t.stop)), Replay.CloneRequest(t), R);
  }

  method CloneResult(res: TurnResult, ghost t: Replay.TurnResult, ghost S: set<object>, ghost P: Contents)
    returns (r: TurnResult, ghost R: set<object>)
    requires StandsResult(res, t, S, P)
    ensures fresh(R) && StandsResult(r, Replay.CloneResult(t), R, P)
  {
    var calls;
    calls, R := CloneCalls(res.calls, t.calls, S, P);
    r := res.(calls := calls);
  }

  method CloneRecord(rec: Record, ghost t: Replay.Record, ghost S: set<object>, ghost P: Contents)
    returns (r: Record, ghost R: set<object>)
    requires StandsRecord(rec, t, S, P)
    ensures fresh(R) && StandsRecord(r, Replay.CloneRecord(t), R, P)
  {
    hide Stands, StandsRequest, StandsCalls, Replay.CloneRequest, Replay.CloneResult, Replay.Appended;
    var request, result, events;
    ghost var A, B, C;
    request, A := CloneRequest(rec.request, t.request, S, P);
    result, B := CloneResult(rec.result, t.result, S, P);
    events, C := CloneFlat(rec.events, t.events, S);
    R := A + B + C;
    r := Record(request, result, events, rec.error);
    RequestMore(request, Replay.CloneRequest(t.request), A, R, P);
    ResultMore(result, Replay.CloneResult(t.result), B, R, P);
  }

  lemma RequestMore(r: Request, t: Replay.Request, S: set<object>, S': set<object>, P: Contents)
    requires StandsRequest(r, t, S, P) && S <= S'
    ensures StandsRequest(r, t, S', P)
  {
    MessagesMore(r.messages, t.messages, S, S', P);
    ToolsMore(r.tools, t.tools, S, S', P);
    AnyMore(r.responseFormat, t.responseFormat, S, S', P);
  }

  lemma ResultMore(r: TurnResult, t: Replay.TurnResult, S: set<object>, S': set<object>, P: Contents)
    requires StandsResult(r, t, S, P) && S <= S'
    ensures StandsResult(r, t, S', P)
  {
    CallsMore(r.calls, t.calls, S, S', P);
  }

  // ---------------------------------------------------------------------------------
  // What is opaque in a value, and where it leads

  predicate PlainAny(t: Replay.Any) {
    match t
    case Opaque(_) => false
    case MapOf(fields) => forall k | k in fields :: PlainAny(fields[k])
    case ListOf(elements) => forall i | 0 <= i < |elements| :: PlainAny(elements[i])
    case _ => true
  }

  predicate PlainCall(t: Replay.ToolCall) {
    t.args.Some? ==> PlainAny(Replay.MapOf(t.args.value))
  }

  predicate PlainMessage(t: Replay.Message) {
    PlainAny(t.value) && (t.toolCall.Some? ==> PlainCall(t.toolCall.value))
  }

  // No opaque value in the request or the result of a turn.
  predicate PlainRecord(t: Replay.Record) {
    && PlainAny(t.request.responseFormat)
    && (t.request.messages.Items? ==> forall i | 0 <= i < |t.request.messages.items| :: PlainMessage(t.request.messages.items[i]))
    && (t.request.tools.Items? ==> forall i | 0 <= i < |t.request.tools.items| :: PlainAny(t.request.tools.items[i].schema))
    && (t.result.calls.Items? ==> forall i | 0 <= i < |t.result.calls.items| :: PlainCall(t.result.calls.items[i]))
  }

  // The opaque storage that a value leads to.
  ghost predicate LeadsTo(v: Any, t: Replay.Any, S: set<object>, o: Cell<int>)
    reads S
    decreases t
  {
    match t
    case Opaque(_) => v == OpaqueRef(o)
    case MapOf(fields) =>
      v.MapRef? && v.m != null && v.m in S && exists k | k in fields && k in v.m.it :: LeadsTo(v.m.it[k], fields[k], S, o)
    case ListOf(elements) =>
      && v.ListRef? && v.l != null && v.l in S
      && exists i | 0 <= i < |elements| && i < |v.l.it| :: LeadsTo(v.l.it[i], elements[i], S, o)
    case _ => false
  }

  ghost predicate CallLeadsTo(c: ToolCall, t: Replay.ToolCall, S: set<object>, o: Cell<int>)
    reads S
  {
    t.args.Some? && LeadsTo(MapRef(c.args), Replay.MapOf(t.args.value), S, o)
  }

  ghost predicate MessageLeadsTo(m: Message, t: Replay.Message, S: set<object>, o: Cell<int>)
    reads S
  {
    || LeadsTo(m.value, t.value, S, o)
    || (t.toolCall.Some? && m.toolCall != null && m.toolCall in S && CallLeadsTo(m.toolCall.it, t.toolCall.value, S, o))
  }

  ghost predicate MessagesLeadTo(c: Cell?<seq<Message>>, t: Replay.Slice<Replay.Message>, S: set<object>, o: Cell<int>)
    reads S
  {
    t.Items? && c != null && c in S && exists i | 0 <= i < |t.items| && i < |c.it| :: MessageLeadsTo(c.it[i], t.items[i], S, o)
  }

  ghost predicate ToolsLeadTo(c: Cell?<seq<Tool>>, t: Replay.Slice<Replay.Tool>, S: set<object>, o: Cell<int>)
    reads S
  {
    t.Items? && c != null && c in S && exists i | 0 <= i < |t.items| && i < |c.it| :: LeadsTo(c.it[i].schema, t.items[i].schema, S, o)
  }

  ghost predicate CallsLeadTo(c: Cell?<seq<ToolCall>>, t: Replay.Slice<Replay.ToolCall>, S: set<object>, o: Cell<int>)
    reads S
  {
    t.Items? && c != null && c in S && exists i | 0 <= i < |t.items| && i < |c.it| :: CallLeadsTo(c.it[i], t.items[i], S, o)
  }

  ghost predicate RecordLeadsTo(r: Record, t: Replay.Record, S: set<object>, o: Cell<int>)
    reads S
  {
    || LeadsTo(r.request.responseFormat, t.request.responseFormat, S, o)
    || MessagesLeadTo(r.request.messages, t.request.messages, S, o)
    || ToolsLeadTo(r.request.tools, t.request.tools, S, o)
    || CallsLeadTo(r.result.calls, t.result.calls, S, o)
  }

  // A value leads to no opaque storage exactly if it holds no opaque value.
  lemma {:induction false} PlainExactly(v: Any, t: Replay.Any, S: set<object>, P: Contents)
    requires Stands(v, t, S, P)
    ensures PlainAny(t) <==> forall o | o in P :: !LeadsTo(v, t, S, o)
    decreases t
  {
    match t
    case MapOf(fields) =>
      forall k | k in fields
        ensures PlainAny(fields[k]) <==> forall o | o in P :: !LeadsTo(v.m.it[k], fields[k], S, o)
      {
        PlainExactly(v.m.it[k], fields[k], S, P);
      }
    case ListOf(elements) =>
      forall i | 0 <= i < |elements|
        ensures PlainAny(elements[i]) <==> forall o | o in P :: !LeadsTo(v.l.it[i], elements[i], S, o)
      {
        PlainExactly(v.l.it[i], elements[i], S, P);
      }
    case Opaque(_) =>
      assert LeadsTo(v, t, S, v.o);
    case _ =>
  }

  // With other contents in opaque storage, a value stands for the same exactly if the storage it
  // leads to holds the same.
  lemma {:induction false} KeptExactly(v: Any, t: Replay.Any, S: set<object>, P: Contents, P': Contents)
    requires Stands(v, t, S, P) && P.Keys == P'.Keys
    ensures Stands(v, t, S, P') <==> forall o | o in P && LeadsTo(v, t, S, o) :: P'[o] == P[o]
    decreases t
  {
    match t
    case MapOf(fields) =>
      forall k | k in fields
        ensures Stands(v.m.it[k], fields[k], S, P') <==> forall o | o in P && LeadsTo(v.m.it[k], fields[k], S, o) :: P'[o] == P[o]
      {
        KeptExactly(v.m.it[k], fields[k], S, P, P');
      }
    case ListOf(elements) =>
      forall i | 0 <= i < |elements|
        ensures Stands(v.l.it[i], elements[i], S, P') <==> forall o | o in P && LeadsTo(v.l.it[i], elements[i], S, o) :: P'[o] == P[o]
      {
        KeptExactly(v.l.it[i], elements[i], S, P, P');
      }
    case _ =>
  }

  lemma CallKeptExactly(c: ToolCall, t: Replay.ToolCall, S: set<object>, P: Contents, P': Contents)
    requires StandsCall(c, t, S, P) && P.Keys == P'.Keys
    ensures StandsCall(c, t, S, P') <==> forall o | o in P && CallLeadsTo(c, t, S, o) :: P'[o] == P[o]
    ensures PlainCall(t) <==> forall o | o in P :: !CallLeadsTo(c, t, S, o)
  {
    hide Stands, LeadsTo, PlainAny;
    if t.args.Some? {
      KeptExactly(MapRef(c.args), Replay.MapOf(t.args.value), S, P, P');
      PlainExactly(MapRef(c.args), Replay.MapOf(t.args.value), S, P);
    }
  }

  lemma MessageKeptExactly(m: Message, t: Replay.Message, S: set<object>, P: Contents, P': Contents)
    requires StandsMessage(m, t, S, P) && P.Keys == P'.Keys
    ensures StandsMessage(m, t, S, P') <==> forall o | o in P && MessageLeadsTo(m, t, S, o) :: P'[o] == P[o]
    ensures PlainMessage(t) <==> forall o | o in P :: !MessageLeadsTo(m, t, S, o)
  {
    hide Stands, LeadsTo, PlainAny, StandsCall, CallLeadsTo, PlainCall;
    KeptExactly(m.value, t.value, S, P, P');
    PlainExactly(m.value, t.value, S, P);
    if t.toolCall.Some? {
      CallKeptExactly(m.toolCall.it, t.toolCall.value, S, P, P');
    }
  }

  lemma MessagesKeptExactly(c: Cell?<seq<Message>>, t: Replay.Slice<Replay.Message>, S: set<object>, P: Contents, P': Contents)
    requires StandsMessages(c, t, S, P) && P.Keys == P'.Keys
    ensures StandsMessages(c, t, S, P') <==> forall o | o in P && MessagesLeadTo(c, t, S, o) :: P'[o] == P[o]
    ensures (t.Items? ==> forall i | 0 <= i < |t.items| :: PlainMessage(t.items[i])) <==> forall o | o in P :: !MessagesLeadTo(c, t, S, o)
  {
    hide StandsMessage, MessageLeadsTo, PlainMessage;
    if t.Items? {
      forall i | 0 <= i < |t.items|
        ensures StandsMessage(c.it[i], t.items[i], S, P') <==> forall o | o in P && MessageLeadsTo(c.it[i], t.items[i], S, o) :: P'[o] == P[o]
        ensures PlainMessage(t.items[i]) <==> forall o | o in P :: !MessageLeadsTo(c.it[i], t.items[i], S, o)
      {
        MessageKeptExactly(c.it[i], t.items[i], S, P, P');
      }
    }
  }

  lemma ToolsKeptExactly(c: Cell?<seq<Tool>>, t: Replay.Slice<Replay.Tool>, S: set<object>, P: Contents, P': Contents)
    requires StandsTools(c, t, S, P) && P.Keys == P'.Keys
    ensures StandsTools(c, t, S, P') <==> forall o | o in P && ToolsLeadTo(c, t, S, o) :: P'[o] == P[o]
    ensures (t.Items? ==> forall i | 0 <= i < |t.items| :: PlainAny(t.items[i].schema)) <==> forall o | o in P :: !ToolsLeadTo(c, t, S, o)
  {
    hide Stands, LeadsTo, PlainAny, StandsFlat;
    if t.Items? {
      forall i | 0 <= i < |t.items|
        ensures StandsTool(c.it[i], t.items[i], S, P') <==> forall o | o in P && LeadsTo(c.it[i].schema, t.items[i].schema, S, o) :: P'[o] == P[o]
        ensures PlainAny(t.items[i].schema) <==> forall o | o in P :: !LeadsTo(c.it[i].schema, t.items[i].schema, S, o)
      {
        KeptExactly(c.it[i].schema, t.items[i].schema, S, P, P');
        PlainExactly(c.it[i].schema, t.items[i].schema, S, P);
      }
    }
  }

  lemma CallsKeptExactly(c: Cell?<seq<ToolCall>>, t: Replay.Slice<Replay.ToolCall>, S: set<object>, P: Contents, P': Contents)
    requires StandsCalls(c, t, S, P) && P.Keys == P'.Keys
    ensures StandsCalls(c, t, S, P') <==> forall o | o in P && CallsLeadTo(c, t, S, o) :: P'[o] == P[o]
    ensures (t.Items? ==> forall i | 0 <= i < |t.items| :: PlainCall(t.items[i])) <==> forall o | o in P :: !CallsLeadTo(c, t, S, o)
  {
    hide StandsCall, CallLeadsTo, PlainCall;
    if t.Items? {
      forall i | 0 <= i < |t.items|
        ensures StandsCall(c.it[i], t.items[i], S, P') <==> forall o | o in P && CallLeadsTo(c.it[i], t.items[i], S, o) :: P'[o] == P[o]
        ensures PlainCall(t.items[i]) <==> forall o | o in P :: !CallLeadsTo(c.it[i], t.items[i], S, o)
      {
        CallKeptExactly(c.it[i], t.items[i], S, P, P');
      }
    }
  }

  // The same of whole records.
  lemma RecordKeptExactly(r: Record, t: Replay.Record, S: set<object>, P: Contents, P': Contents)
    requires StandsRecord(r, t, S, P) && P.Keys == P'.Keys
    ensures StandsRecord(r, t, S, P') <==> forall o | o in P && RecordLeadsTo(r, t, S, o) :: P'[o] == P[o]
    ensures PlainRecord(t) <==> forall o | o in P :: !RecordLeadsTo(r, t, S, o)
  {
    hide Stands, LeadsTo, PlainAny, PlainMessage, PlainCall, StandsOptions, StandsFlat;
    hide StandsMessages, MessagesLeadTo, StandsTools, ToolsLeadTo, StandsCalls, CallsLeadTo;
    KeptExactly(r.request.responseFormat, t.request.responseFormat, S, P, P');
    PlainExactly(r.request.responseFormat, t.request.responseFormat, S, P);
    MessagesKeptExactly(r.request.messages, t.request.messages, S, P, P');
    ToolsKeptExactly(r.request.tools, t.request.tools, S, P, P');
    CallsKeptExactly(r.result.calls, t.result.calls, S, P, P');
  }

  // Its own storage left alone, a record stands for what it does whatever happens to opaque
  // storage exactly if neither its request nor its result holds an opaque value.
  lemma SafeExactly(r: Record, t: Replay.Record, S: set<object>, P: Contents)
    requires StandsRecord(r, t, S, P)
    ensures (forall P': Contents | P'.Keys == P.Keys :: StandsRecord(r, t, S, P')) <==> PlainRecord(t)
  {
    hide StandsRecord, RecordLeadsTo, PlainRecord;
    RecordKeptExactly(r, t, S, P, P);
    if PlainRecord(t) {
      forall P': Contents | P'.Keys == P.Keys
        ensures StandsRecord(r, t, S, P')
      {
        RecordKeptExactly(r, t, S, P, P');
      }
    } else {
      var o :| o in P && RecordLeadsTo(r, t, S, o);
      var P' := P[o := P[o] + 1];
      RecordKeptExactly(r, t, S, P, P');
      assert P'.Keys == P.Keys && !StandsRecord(r, t, S, P');
    }
  }

  // Without opaque values, a record needs no opaque storage at all.
  lemma {:induction false} PlainNeedsNone(v: Any, t: Replay.Any, S: set<object>, P: Contents)
    requires Stands(v, t, S, P) && PlainAny(t)
    ensures Stands(v, t, S, map[])
    decreases t
  {
    match t
    case MapOf(fields) =>
      forall k | k in fields
        ensures Stands(v.m.it[k], fields[k], S, map[])
      {
        PlainNeedsNone(v.m.it[k], fields[k], S, P);
      }
    case ListOf(elements) =>
      forall i | 0 <= i < |elements|
        ensures Stands(v.l.it[i], elements[i], S, map[])
      {
        PlainNeedsNone(v.l.it[i], elements[i], S, P);
      }
    case _ =>
  }

  lemma PlainRecordNeedsNone(r: Record, t: Replay.Record, S: set<object>, P: Contents)
    requires StandsRecord(r, t, S, P) && PlainRecord(t)
    ensures StandsRecord(r, t, S, map[])
  {
    hide Stands, PlainAny, StandsOptions, StandsFlat;
    var (messages, tools, calls) := (t.request.messages, t.request.tools, t.result.calls);
    PlainNeedsNone(r.request.responseFormat, t.request.responseFormat, S, P);
    if messages.Items? {
      forall i | 0 <= i < |messages.items|
        ensures StandsMessage(r.request.messages.it[i], messages.items[i], S, map[])
      {
        assert PlainMessage(messages.items[i]);
        PlainMessageNeedsNone(r.request.messages.it[i], messages.items[i], S, P);
      }
    }
    if tools.Items? {
      forall i | 0 <= i < |tools.items|
        ensures StandsTool(r.request.tools.it[i], tools.items[i], S, map[])
      {
        PlainNeedsNone(r.request.tools.it[i].schema, tools.items[i].schema, S, P);
      }
    }
    if calls.Items? {
      forall i | 0 <= i < |calls.items|
        ensures StandsCall(r.result.calls.it[i], calls.items[i], S, map[])
      {
        assert PlainCall(calls.items[i]);
        PlainCallNeedsNone(r.result.calls.it[i], calls.items[i], S, P);
      }
    }
  }

  lemma PlainCallNeedsNone(c: ToolCall, t: Replay.ToolCall, S: set<object>, P: Contents)
    requires StandsCall(c, t, S, P) && PlainCall(t)
    ensures StandsCall(c, t, S, map[])
  {
    if t.args.Some? {
      PlainNeedsNone(MapRef(c.args), Replay.MapOf(t.args.value), S, P);
    }
  }

  lemma PlainMessageNeedsNone(m: Message, t: Replay.Message, S: set<object>, P: Contents)
    requires StandsMessage(m, t, S, P) && PlainMessage(t)
    ensures StandsMessage(m, t, S, map[])
  {
    PlainNeedsNone(m.value, t.value, S, P);
    if t.toolCall.Some? {
      PlainCallNeedsNone(m.toolCall.it, t.toolCall.value, S, P);
    }
  }

  // ---------------------------------------------------------------------------------
  // A store that copies on the way in and on the way out

  class Store {
    var records: seq<Record>
    ghost var values: seq<Replay.Record>   // what the records stand for
    ghost var owned: set<object>           // all their storage
    ghost var shared: set<Cell<int>>       // opaque storage that others hold too

    ghost predicate Valid()
      reads this, owned, shared
    {
      && this !in owned && |values| == |records|
      && forall i | 0 <= i < |records| :: StandsRecord(records[i], values[i], owned, Now(shared))
    }

    // One record stands for what it did, when opaque storage holds P.
    ghost predicate Keeps(i: nat, P: Contents)
      reads this, owned
    {
      this !in owned && i < |records| && |values| == |records| && StandsRecord(records[i], values[i], owned, P)
    }

    constructor ()
      ensures Valid() && values == [] && owned == {} && shared == {}
    {
      records, values, owned, shared := [], [], {}, {};
    }

    // The caller keeps all storage of rec; the store keeps none of it but what is opaque.
    method Record(rec: Record, ghost t: Replay.Record, ghost S: set<object>, ghost cells: set<Cell<int>>)
      requires Valid() && StandsRecord(rec, t, S, Now(cells))
      modifies this
      ensures Valid() && fresh(owned - old(owned)) && old(owned) <= owned && shared == old(shared) + cells
      ensures values == old(values) + [Replay.CloneRecord(t)]
    {
      hide StandsRecord, Replay.CloneRecord;
      var copy;
      ghost var C;
      ghost var P, P0, P' := Now(cells), Now(shared), Now(shared + cells);
      copy, C := CloneRecord(rec, t, S, P);
      forall i | 0 <= i < |records|
        ensures StandsRecord(records[i], values[i], owned + C, P')
      {
        RecordMore(records[i], values[i], owned, owned + C, P0);
        RecordShares(records[i], values[i], owned + C, P0, P');
      }
      RecordMore(copy, Replay.CloneRecord(t), C, owned + C, P);
      RecordShares(copy, Replay.CloneRecord(t), owned + C, P, P');
      records, values, owned, shared := records + [copy], values + [Replay.CloneRecord(t)], owned + C, shared + cells;
    }

    // What is handed out is the caller's own: none of its storage is the store's.
    method Get(i: nat, ghost P: Contents) returns (r: Record, ghost R: set<object>)
      requires Keeps(i, P)
      ensures fresh(R) && R !! owned && StandsRecord(r, Replay.CloneRecord(values[i]), R, P)
    {
      r, R := CloneRecord(records[i], values[i], owned, P);
    }

    // The answer a replay gives for a recorded turn.
    method Reply(i: nat, ghost P: Contents) returns (r: TurnResult, ghost R: set<object>)
      requires Keeps(i, P)
      ensures fresh(R) && R !! owned && StandsResult(r, Replay.CloneResult(values[i].result), R, P)
    {
      Replay.CloneResultTwice(values[i].result);
      var rec;
      ghost var C;
      rec, C := Get(i, P);
      r, R := CloneResult(rec.result, Replay.CloneResult(values[i].result), C, P);
    }
  }

  // ---------------------------------------------------------------------------------
  // What others can change

  // In any later heap in which the store's own storage is as it was, a turn that holds no opaque
  // value is what it was, whatever has become of all other storage, opaque storage included.
  twostate lemma PlainTurnsKept(store: Store, i: nat)
    requires old(store.Valid()) && unchanged(store) && unchanged(store.owned)
    requires i < |store.values| && PlainRecord(store.values[i])
    ensures store.Keeps(i, map[])
  {
    PlainRecordNeedsNone(store.records[i], store.values[i], store.owned, old(Now(store.shared)));
  }

  datatype Write =
    | Fields(m: Cell<map<string, Any>>, fields: map<string, Any>)
    | Elements(l: Cell<seq<Any>>, elements: seq<Any>)
    | Messages(c: Cell<seq<Message>>, messages: seq<Message>)
    | Tools(t: Cell<seq<Tool>>, tools: seq<Tool>)
    | Calls(k: Cell<seq<ToolCall>>, calls: seq<ToolCall>)
    | OneCall(b: Cell<ToolCall>, call: ToolCall)
    | Strings(s: Cell<seq<string>>, strings: seq<string>)
    | Metadata(d: Cell<map<string, string>>, metadata: map<string, string>)
    | Number(f: Cell<Replay.Float>, number: Replay.Float)
    | Content(o: Cell<int>, content: int)
  {
    ghost predicate Into(T: set<object>) {
      match this
      case Fields(m, _) => m in T
      case Elements(l, _) => l in T
      case Messages(c, _) => c in T
      case Tools(t, _) => t in T
      case Calls(k, _) => k in T
      case OneCall(b, _) => b in T
      case Strings(s, _) => s in T
      case Metadata(d, _) => d in T
      case Number(f, _) => f in T
      case Content(o, _) => o in T
    }
  }

  // Whatever writes a caller makes to its own storage, to a recorded turn, to a copy that was
  // handed out or to opaque storage, the next copy of a turn that holds no opaque value is still
  // of what was recorded.
  method UpdatesDoNotLeak(store: Store, writes: seq<Write>, ghost T: set<object>, i: nat) returns (later: Record, ghost R: set<object>)
    requires store.Valid() && i < |store.records| && PlainRecord(store.values[i])
    requires T !! store.owned && store !in T && forall k | 0 <= k < |writes| :: writes[k].Into(T)
    modifies T
    ensures unchanged(store) && store.Keeps(i, map[])
    ensures fresh(R) && StandsRecord(later, Replay.CloneRecord(store.values[i]), R, map[])
  {
    hide StandsRecord, PlainRecord;
    PlainRecordNeedsNone(store.records[i], store.values[i], store.owned, Now(store.shared));
    for k := 0 to |writes|
      invariant unchanged(store) && store.Keeps(i, map[])
    {
      assert writes[k].Into(T);
      match writes[k]
      case Fields(m, fields) => m.it := fields;
      case Elements(l, elements) => l.it := elements;
      case Messages(c, messages) => c.it := messages;
      case Tools(t, tools) => t.it := tools;
      case Calls(c, calls) => c.it := calls;
      case OneCall(b, call) => b.it := call;
      case Strings(s, strings) => s.it := strings;
      case Metadata(d, metadata) => d.it := metadata;
      case Number(f, number) => f.it := number;
      case Content(o, content) => o.it := content;
    }
    later, R := store.Get(i, map[]);
  }

  // A caller that changes any opaque storage a stored turn leads to, such as a []string in a
  // schema, changes the turn.
  method OpaqueStorageLeaks(store: Store, i: nat, o: Cell<int>, content: int)
    requires store.Valid() && i < |store.records|
    requires o in store.shared && o !in store.owned && RecordLeadsTo(store.records[i], store.values[i], store.owned, o) && content != o.it
    modifies o
    ensures unchanged(store) && !store.Keeps(i, Now(store.shared))
  {
    hide StandsRecord, RecordLeadsTo;
    ghost var P := Now(store.shared);
    o.it := content;
    RecordKeptExactly(store.records[i], store.values[i], store.owned, P, Now(store.shared));
    assert RecordLeadsTo(store.records[i], store.values[i], store.owned, o);
  }

  // There is such storage for every stored turn that holds an opaque value, and for no other.
  lemma LeakableExactly(store: Store, i: nat)
    requires store.Valid() && i < |store.records|
    ensures PlainRecord(store.values[i]) <==>
            forall o | o in store.shared :: !RecordLeadsTo(store.records[i], store.values[i], store.owned, o)
  {
    hide StandsRecord, RecordLeadsTo, PlainRecord;
    RecordKeptExactly(store.records[i], store.values[i], store.owned, Now(store.shared), Now(store.shared));
  }
}
