/** Recording turns of a language model and replaying them against the same requests. */
module Replay {
  import opened Wrappers

  // Go tells a nil slice from an empty one, and so does the comparison of requests.
  datatype Slice<T> = NilSlice | Items(items: seq<T>)

  // A NaN does not equal itself.
  datatype Float = Number(value: real) | NotANumber

  // A dynamically typed value; maps and lists held in it may be nil too. An atom that does not
  // equal itself is a NaN or a function. A map or slice of another type is opaque: a copy
  // shares it, and it equals itself.
  datatype Any =
    | Nil
    | Atom(id: int, reflexive: bool)
    | Opaque(content: int)
    | NilMap
    | MapOf(fields: map<string, Any>)
    | NilList
    | ListOf(elements: seq<Any>)

  datatype ToolCall = ToolCall(id: string, tool: string, args: Option<map<string, Any>>)
  datatype Message = Message(role: string, text: string, toolCall: Option<ToolCall>, toolUseID: string, value: Any, error: string)
  datatype Tool = Tool(name: string, description: string, params: Slice<string>, needs: Slice<string>, schema: Any)
  datatype Request = Request(
    model: string, messages: Slice<Message>, tools: Slice<Tool>, forceTool: string, maxTokens: int,
    temperature: Option<Float>, topP: Option<Float>, responseFormat: Any, stream: bool, stop: Slice<string>,
    metadata: Option<map<string, string>>)
  datatype Usage = Usage(inputTokens: int, outputTokens: int, cost: Float, latencyMS: int)
  datatype TurnResult = TurnResult(status: string, text: string, calls: Slice<ToolCall>, reason: string, usage: Usage)
  datatype StreamEvent = StreamEvent(kind: string, token: string, text: string, status: string, reason: string, usage: Usage)
  datatype Record = Record(request: Request, result: TurnResult, events: Slice<StreamEvent>, error: string)

  // ---------------------------------------------------------------------------------
  // Copying

  function CloneAny(v: Any): Any {
    match v
    case NilMap => MapOf(map[])
    case MapOf(fields) => MapOf(map k | k in fields :: CloneAny(fields[k]))
    case NilList => ListOf([])
    case ListOf(elements) => ListOf(seq(|elements|, i requires 0 <= i < |elements| => CloneAny(elements[i])))
    case _ => v
  }

  function CloneFields(fields: map<string, Any>): map<string, Any> {
    map k | k in fields :: CloneAny(fields[k])
  }

  function CloneToolCall(call: ToolCall): ToolCall {
    call.(args := if call.args.None? then None else Some(CloneFields(call.args.value)))
  }

  function CloneMessage(m: Message): Message {
    m.(toolCall := if m.toolCall.None? then None else Some(CloneToolCall(m.toolCall.value)), value := CloneAny(m.value))
  }

  // append([]T(nil), s...): nil when there is nothing to append.
  function Appended<T>(s: Slice<T>): Slice<T> {
    if s.Items? && s.items != [] then s else NilSlice
  }

  function CloneTool(t: Tool): Tool {
    t.(params := Appended(t.params), needs := Appended(t.needs), schema := CloneAny(t.schema))
  }

  function MapSlice<T>(s: Slice<T>, f: T -> T): Slice<T> {
    match s
    case NilSlice => NilSlice
    case Items(items) => Items(seq(|items|, i requires 0 <= i < |items| => f(items[i])))
  }

  function CloneRequest(r: Request): Request {
    r.(messages := MapSlice(Appended(r.messages), CloneMessage),
       tools := MapSlice(Appended(r.tools), CloneTool),
       responseFormat := CloneAny(r.responseFormat),
       stop := Appended(r.stop))
  }

  // make([]ToolCall, n): never nil.
  function CloneResult(r: TurnResult): TurnResult {
    r.(calls := match r.calls { case NilSlice => Items([]) case Items(_) => MapSlice(r.calls, CloneToolCall) })
  }

  function CloneRecord(r: Record): Record {
    Record(CloneRequest(r.request), CloneResult(r.result), Appended(r.events), r.error)
  }

  // ---------------------------------------------------------------------------------
  // Comparing

  predicate EqualAny(v: Any, w: Any) {
    match v
    case Atom(_, reflexive) => reflexive && v == w
    case MapOf(fields) =>
      w.MapOf? && fields.Keys == w.fields.Keys && forall k | k in fields :: EqualAny(fields[k], w.fields[k])
    case ListOf(elements) =>
      w.ListOf? && |elements| == |w.elements| && forall i | 0 <= i < |elements| :: EqualAny(elements[i], w.elements[i])
    case _ => v == w
  }

  predicate EqualFloats(a: Option<Float>, b: Option<Float>) {
    if a.Some? then a.value.Number? && a == b else b.None?
  }

  predicate EqualCalls(a: ToolCall, b: ToolCall) {
    && a.id == b.id && a.tool == b.tool
    && if a.args.Some? then b.args.Some? && EqualAny(MapOf(a.args.value), MapOf(b.args.value)) else b.args.None?
  }

  predicate EqualMessages(a: Message, b: Message) {
    && a.role == b.role && a.text == b.text && a.toolUseID == b.toolUseID && a.error == b.error
    && (if a.toolCall.Some? then b.toolCall.Some? && EqualCalls(a.toolCall.value, b.toolCall.value) else b.toolCall.None?)
    && EqualAny(a.value, b.value)
  }

  predicate EqualTools(a: Tool, b: Tool) {
    && a.name == b.name && a.description == b.description && a.params == b.params && a.needs == b.needs
    && EqualAny(a.schema, b.schema)
  }

  predicate EqualSlices<T(!new)>(a: Slice<T>, b: Slice<T>, eq: (T, T) -> bool) {
    if a.Items? then b.Items? && |a.items| == |b.items| && forall i | 0 <= i < |a.items| :: eq(a.items[i], b.items[i])
    else b.NilSlice?
  }

  predicate RequestsEqual(a: Request, b: Request) {
    && a.model == b.model && a.forceTool == b.forceTool && a.maxTokens == b.maxTokens
    && EqualFloats(a.temperature, b.temperature) && EqualFloats(a.topP, b.topP)
    && EqualAny(a.responseFormat, b.responseFormat) && a.stream == b.stream && a.stop == b.stop && a.metadata == b.metadata
    && EqualSlices(a.messages, b.messages, EqualMessages) && EqualSlices(a.tools, b.tools, EqualTools)
  }

  // Nothing in it fails to equal itself.
  predicate SelfEqualAny(v: Any) {
    match v
    case Atom(_, reflexive) => reflexive
    case MapOf(fields) => forall k | k in fields :: SelfEqualAny(fields[k])
    case ListOf(elements) => forall i | 0 <= i < |elements| :: SelfEqualAny(elements[i])
    case _ => true
  }

  predicate SelfEqualFloat(a: Option<Float>) {
    a.Some? ==> a.value.Number?
  }

  predicate SelfEqualCall(call: ToolCall) {
    call.args.Some? ==> SelfEqualAny(MapOf(call.args.value))
  }

  predicate SelfEqualMessage(m: Message) {
    SelfEqualAny(m.value) && (m.toolCall.Some? ==> SelfEqualCall(m.toolCall.value))
  }

  predicate SelfEqualRequest(r: Request) {
    && SelfEqualFloat(r.temperature) && SelfEqualFloat(r.topP) && SelfEqualAny(r.responseFormat)
    && (r.messages.Items? ==> forall i | 0 <= i < |r.messages.items| :: SelfEqualMessage(r.messages.items[i]))
    && (r.tools.Items? ==> forall i | 0 <= i < |r.tools.items| :: SelfEqualTool(r.tools.items[i]))
  }

  lemma {:induction false} EqualAnyExact(v: Any, w: Any)
    ensures EqualAny(v, w) <==> v == w && SelfEqualAny(v)
    decreases v
  {
    match v
    case MapOf(fields) =>
      if w.MapOf? && fields.Keys == w.fields.Keys {
        forall k | k in fields
          ensures EqualAny(fields[k], w.fields[k]) <==> fields[k] == w.fields[k] && SelfEqualAny(fields[k])
        {
          EqualAnyExact(fields[k], w.fields[k]);
        }
        assert v == w <==> forall k | k in fields :: fields[k] == w.fields[k];
      }
    case ListOf(elements) =>
      if w.ListOf? && |elements| == |w.elements| {
        forall i | 0 <= i < |elements|
          ensures EqualAny(elements[i], w.elements[i]) <==> elements[i] == w.elements[i] && SelfEqualAny(elements[i])
        {
          EqualAnyExact(elements[i], w.elements[i]);
        }
        assert v == w <==> forall i | 0 <= i < |elements| :: elements[i] == w.elements[i];
      }
    case _ =>
  }

  lemma EqualMessagesExact(a: Message, b: Message)
    ensures EqualMessages(a, b) <==> a == b && SelfEqualMessage(a)
  {
    hide EqualAny, SelfEqualAny;
    EqualAnyExact(a.value, b.value);
    if a.toolCall.Some? && b.toolCall.Some? && a.toolCall.value.args.Some? && b.toolCall.value.args.Some? {
      EqualAnyExact(MapOf(a.toolCall.value.args.value), MapOf(b.toolCall.value.args.value));
    }
  }

  lemma EqualSlicesExact<T(!new)>(a: Slice<T>, b: Slice<T>, eq: (T, T) -> bool, self: T -> bool)
    requires forall x, y :: eq(x, y) <==> x == y && self(x)
    ensures EqualSlices(a, b, eq) <==> a == b && (a.Items? ==> forall i | 0 <= i < |a.items| :: self(a.items[i]))
  {
    if a.Items? && b.Items? && |a.items| == |b.items| {
      assert a == b <==> forall i | 0 <= i < |a.items| :: a.items[i] == b.items[i];
    }
  }

  // Two requests compare equal exactly if they are the same and nothing in them fails to equal
  // itself.
  lemma RequestsEqualExactly(a: Request, b: Request)
    ensures RequestsEqual(a, b) <==> a == b && SelfEqualRequest(a)
  {
    hide EqualAny, SelfEqualAny, EqualMessages, SelfEqualMessage, EqualTools;
    EqualAnyExact(a.responseFormat, b.responseFormat);
    forall x, y
      ensures EqualMessages(x, y) <==> x == y && SelfEqualMessage(x)
    {
      EqualMessagesExact(x, y);
    }
    forall x, y
      ensures EqualTools(x, y) <==> x == y && SelfEqualTool(x)
    {
      EqualToolsExact(x, y);
    }
    EqualSlicesExact(a.messages, b.messages, EqualMessages, SelfEqualMessage);
    EqualSlicesExact(a.tools, b.tools, EqualTools, SelfEqualTool);
  }

  predicate SelfEqualTool(t: Tool) {
    SelfEqualAny(t.schema)
  }

  lemma EqualToolsExact(a: Tool, b: Tool)
    ensures EqualTools(a, b) <==> a == b && SelfEqualTool(a)
  {
    EqualAnyExact(a.schema, b.schema);
  }

  // ---------------------------------------------------------------------------------
  // What copying preserves

  // No nil map or list inside a dynamic value.
  predicate FixedAny(v: Any) {
    match v
    case NilMap => false
    case MapOf(fields) => forall k | k in fields :: FixedAny(fields[k])
    case NilList => false
    case ListOf(elements) => forall i | 0 <= i < |elements| :: FixedAny(elements[i])
    case _ => true
  }

  predicate FixedCall(call: ToolCall) {
    call.args.Some? ==> forall k | k in call.args.value :: FixedAny(call.args.value[k])
  }

  predicate FixedMessage(m: Message) {
    FixedAny(m.value) && (m.toolCall.Some? ==> FixedCall(m.toolCall.value))
  }

  predicate NotEmpty<T(==)>(s: Slice<T>) {
    s.Items? ==> s.items != []
  }

  predicate FixedTool(t: Tool) {
    NotEmpty(t.params) && NotEmpty(t.needs) && FixedAny(t.schema)
  }

  // No empty slice that is not nil, and no nil map or list inside a dynamic value.
  predicate FixedRequest(r: Request) {
    && NotEmpty(r.messages) && NotEmpty(r.tools) && NotEmpty(r.stop) && FixedAny(r.responseFormat)
    && (r.messages.Items? ==> forall i | 0 <= i < |r.messages.items| :: FixedMessage(r.messages.items[i]))
    && (r.tools.Items? ==> forall i | 0 <= i < |r.tools.items| :: FixedTool(r.tools.items[i]))
  }

  // A request that its recording matches.
  predicate StableRequest(r: Request) {
    FixedRequest(r) && SelfEqualRequest(r)
  }

  lemma {:induction false} CloneAnyExact(v: Any)
    ensures CloneAny(v) == v <==> FixedAny(v)
    ensures FixedAny(CloneAny(v))
  {
    match v
    case MapOf(fields) =>
      forall k | k in fields
        ensures (CloneAny(fields[k]) == fields[k] <==> FixedAny(fields[k])) && FixedAny(CloneAny(fields[k]))
      {
        CloneAnyExact(fields[k]);
      }
      if CloneAny(v) == v {
        assert forall k | k in fields :: CloneAny(v).fields[k] == CloneAny(fields[k]);
      }
    case ListOf(elements) =>
      forall i | 0 <= i < |elements|
        ensures (CloneAny(elements[i]) == elements[i] <==> FixedAny(elements[i])) && FixedAny(CloneAny(elements[i]))
      {
        CloneAnyExact(elements[i]);
      }
      if CloneAny(v) == v {
        assert forall i | 0 <= i < |elements| :: CloneAny(v).elements[i] == CloneAny(elements[i]);
      }
    case _ =>
  }

  lemma CloneCallExact(call: ToolCall)
    ensures CloneToolCall(call) == call <==> FixedCall(call)
    ensures FixedCall(CloneToolCall(call))
  {
    if call.args.Some? {
      var fields := call.args.value;
      forall k | k in fields
        ensures (CloneAny(fields[k]) == fields[k] <==> FixedAny(fields[k])) && FixedAny(CloneAny(fields[k]))
      {
        CloneAnyExact(fields[k]);
      }
      assert CloneFields(fields) == fields <==> forall k | k in fields :: CloneFields(fields)[k] == fields[k];
    }
  }

  lemma CloneMessageExact(m: Message)
    ensures CloneMessage(m) == m <==> FixedMessage(m)
    ensures FixedMessage(CloneMessage(m))
  {
    CloneAnyExact(m.value);
    if m.toolCall.Some? {
      CloneCallExact(m.toolCall.value);
    }
  }

  lemma CloneToolExact(t: Tool)
    ensures CloneTool(t) == t <==> FixedTool(t)
    ensures FixedTool(CloneTool(t))
  {
    CloneAnyExact(t.schema);
  }

  lemma MapSliceExact<T>(s: Slice<T>, f: T -> T)
    ensures MapSlice(Appended(s), f) == s <==> NotEmpty(s) && (s.Items? ==> forall i | 0 <= i < |s.items| :: f(s.items[i]) == s.items[i])
  {
    if s.Items? && s.items != [] && MapSlice(Appended(s), f) == s {
      assert forall i | 0 <= i < |s.items| :: MapSlice(s, f).items[i] == f(s.items[i]);
    }
  }

  // Copying leaves a request as it is exactly if it is of that form, and a copy always is.
  lemma CloneRequestExact(r: Request)
    ensures CloneRequest(r) == r <==> FixedRequest(r)
    ensures FixedRequest(CloneRequest(r))
  {
    hide CloneAny, FixedAny, CloneMessage, FixedMessage, CloneTool, FixedTool, MapSlice;
    MapSliceExact(r.messages, CloneMessage);
    MapSliceExact(r.tools, CloneTool);
    CloneAnyExact(r.responseFormat);
    if r.messages.Items? {
      forall i | 0 <= i < |r.messages.items|
        ensures CloneMessage(r.messages.items[i]) == r.messages.items[i] <==> FixedMessage(r.messages.items[i])
      {
        CloneMessageExact(r.messages.items[i]);
      }
    }
    if r.tools.Items? {
      forall i | 0 <= i < |r.tools.items|
        ensures CloneTool(r.tools.items[i]) == r.tools.items[i] <==> FixedTool(r.tools.items[i])
      {
        CloneToolExact(r.tools.items[i]);
      }
    }
    CloneIsFixed(r);
  }

  lemma CloneIsFixed(r: Request)
    ensures FixedRequest(CloneRequest(r))
  {
    hide CloneAny, FixedAny, CloneMessage, FixedMessage, CloneTool, FixedTool;
    CloneAnyExact(r.responseFormat);
    var messages, tools := Appended(r.messages), Appended(r.tools);
    if messages.Items? {
      forall i | 0 <= i < |messages.items|
        ensures FixedMessage(CloneMessage(messages.items[i]))
      {
        CloneMessageExact(messages.items[i]);
      }
    }
    if tools.Items? {
      forall i | 0 <= i < |tools.items|
        ensures FixedTool(CloneTool(tools.items[i]))
      {
        CloneToolExact(tools.items[i]);
      }
    }
  }

  // ---------------------------------------------------------------------------------
  // What a copy is, without its definition: the same, but for what is nil and what is empty

  predicate AlikeAny(v: Any, w: Any) {
    match v
    case NilMap => w == NilMap || w == MapOf(map[])
    case MapOf(fields) =>
      || (w.NilMap? && fields == map[])
      || (w.MapOf? && fields.Keys == w.fields.Keys && forall k | k in fields :: AlikeAny(fields[k], w.fields[k]))
    case NilList => w == NilList || w == ListOf([])
    case ListOf(elements) =>
      || (w.NilList? && elements == [])
      || (w.ListOf? && |elements| == |w.elements| && forall i | 0 <= i < |elements| :: AlikeAny(elements[i], w.elements[i]))
    case _ => v == w
  }

  function Elements<T>(s: Slice<T>): seq<T> {
    if s.Items? then s.items else []
  }

  predicate AlikeCalls(a: ToolCall, b: ToolCall) {
    && a.id == b.id && a.tool == b.tool
    && match a.args
       case None => b.args.None?
       case Some(fields) => b.args.Some? && fields.Keys == b.args.value.Keys && forall k | k in fields :: AlikeAny(fields[k], b.args.value[k])
  }

  predicate AlikeMessages(a: Message, b: Message) {
    && a.role == b.role && a.text == b.text && a.toolUseID == b.toolUseID && a.error == b.error && AlikeAny(a.value, b.value)
    && if a.toolCall.Some? then b.toolCall.Some? && AlikeCalls(a.toolCall.value, b.toolCall.value) else b.toolCall.None?
  }

  predicate AlikeTools(a: Tool, b: Tool) {
    && a.name == b.name && a.description == b.description && AlikeAny(a.schema, b.schema)
    && Elements(a.params) == Elements(b.params) && Elements(a.needs) == Elements(b.needs)
  }

  predicate AlikeRequests(a: Request, b: Request) {
    && a.model == b.model && a.forceTool == b.forceTool && a.maxTokens == b.maxTokens && a.temperature == b.temperature
    && a.topP == b.topP && a.stream == b.stream && a.metadata == b.metadata
    && AlikeAny(a.responseFormat, b.responseFormat) && Elements(a.stop) == Elements(b.stop)
    && |Elements(a.messages)| == |Elements(b.messages)| && |Elements(a.tools)| == |Elements(b.tools)|
    && (forall i | 0 <= i < |Elements(a.messages)| :: AlikeMessages(Elements(a.messages)[i], Elements(b.messages)[i]))
    && (forall i | 0 <= i < |Elements(a.tools)| :: AlikeTools(Elements(a.tools)[i], Elements(b.tools)[i]))
  }

  predicate AlikeResults(a: TurnResult, b: TurnResult) {
    && a.status == b.status && a.text == b.text && a.reason == b.reason && a.usage == b.usage
    && |Elements(a.calls)| == |Elements(b.calls)|
    && forall i | 0 <= i < |Elements(a.calls)| :: AlikeCalls(Elements(a.calls)[i], Elements(b.calls)[i])
  }

  predicate AlikeRecords(a: Record, b: Record) {
    && AlikeRequests(a.request, b.request) && AlikeResults(a.result, b.result)
    && Elements(a.events) == Elements(b.events) && a.error == b.error
  }

  lemma {:induction false} CloneAnyAlike(v: Any)
    ensures AlikeAny(v, CloneAny(v))
  {
    match v
    case MapOf(fields) =>
      forall k | k in fields
        ensures AlikeAny(fields[k], CloneAny(fields[k]))
      {
        CloneAnyAlike(fields[k]);
      }
    case ListOf(elements) =>
      forall i | 0 <= i < |elements|
        ensures AlikeAny(elements[i], CloneAny(elements[i]))
      {
        CloneAnyAlike(elements[i]);
      }
    case _ =>
  }

  lemma CloneCallAlike(call: ToolCall)
    ensures AlikeCalls(call, CloneToolCall(call))
  {
    hide CloneAny, AlikeAny;
    if call.args.Some? {
      forall k | k in call.args.value
        ensures AlikeAny(call.args.value[k], CloneAny(call.args.value[k]))
      {
        CloneAnyAlike(call.args.value[k]);
      }
    }
  }

  // A copied result keeps status, text, reason, usage and every call, up to what is nil.
  lemma CloneResultAlike(r: TurnResult)
    ensures AlikeResults(r, CloneResult(r)) && CloneResult(r).calls.Items?
  {
    hide CloneToolCall, AlikeCalls;
    if r.calls.Items? {
      forall i | 0 <= i < |r.calls.items|
        ensures AlikeCalls(r.calls.items[i], CloneToolCall(r.calls.items[i]))
      {
        CloneCallAlike(r.calls.items[i]);
      }
    }
  }

  // It is the result itself exactly if its calls are not nil and hold no nil map or list.
  lemma CloneResultExact(r: TurnResult)
    ensures CloneResult(r) == r <==> r.calls.Items? && forall i | 0 <= i < |r.calls.items| :: FixedCall(r.calls.items[i])
  {
    hide CloneToolCall, FixedCall;
    if r.calls.Items? {
      forall i | 0 <= i < |r.calls.items|
        ensures CloneToolCall(r.calls.items[i]) == r.calls.items[i] <==> FixedCall(r.calls.items[i])
      {
        CloneCallExact(r.calls.items[i]);
      }
      assert CloneResult(r) == r <==> CloneResult(r).calls.items == r.calls.items;
      if CloneResult(r).calls.items == r.calls.items {
        assert forall i | 0 <= i < |r.calls.items| :: CloneToolCall(r.calls.items[i]) == CloneResult(r).calls.items[i];
      }
    }
  }

  lemma CloneMessageAlike(m: Message)
    ensures AlikeMessages(m, CloneMessage(m))
  {
    hide CloneAny, AlikeAny, CloneToolCall, AlikeCalls;
    CloneAnyAlike(m.value);
    if m.toolCall.Some? {
      CloneCallAlike(m.toolCall.value);
    }
  }

  lemma CloneToolAlike(t: Tool)
    ensures AlikeTools(t, CloneTool(t))
  {
    hide CloneAny, AlikeAny;
    CloneAnyAlike(t.schema);
  }

  // A copied request is the same request, up to what is nil and what is empty.
  lemma CloneRequestAlike(r: Request)
    ensures AlikeRequests(r, CloneRequest(r))
  {
    hide CloneAny, AlikeAny, CloneMessage, AlikeMessages, CloneTool, AlikeTools;
    CloneAnyAlike(r.responseFormat);
    forall m
      ensures AlikeMessages(m, CloneMessage(m))
    {
      CloneMessageAlike(m);
    }
    forall t
      ensures AlikeTools(t, CloneTool(t))
    {
      CloneToolAlike(t);
    }
  }

  lemma CloneRecordAlike(r: Record)
    ensures AlikeRecords(r, CloneRecord(r))
  {
    hide CloneRequest, AlikeRequests, CloneResult, AlikeResults;
    CloneRequestAlike(r.request);
    CloneResultAlike(r.result);
  }

  // Copying a copy changes nothing more.
  lemma CloneResultTwice(r: TurnResult)
    ensures CloneResult(CloneResult(r)) == CloneResult(r)
  {
    var once := CloneResult(r);
    forall i | 0 <= i < |once.calls.items|
      ensures CloneToolCall(once.calls.items[i]) == once.calls.items[i]
    {
      CloneCallExact(r.calls.items[i]);
      CloneCallExact(once.calls.items[i]);
    }
    assert CloneResult(once).calls.items == once.calls.items;
  }

  lemma CloneRecordTwice(r: Record)
    ensures CloneRecord(CloneRecord(r)) == CloneRecord(r)
  {
    CloneRequestExact(r.request);
    CloneRequestExact(CloneRequest(r.request));
    CloneResultTwice(r.result);
  }

  function CloneRecords(rs: seq<Record>): seq<Record> {
    seq(|rs|, i requires 0 <= i < |rs| => CloneRecord(rs[i]))
  }

  // ---------------------------------------------------------------------------------
  // The recorder and the replay provider

  class Recorder {
    var records: seq<Record>

    constructor (initial: seq<Record>)
      ensures records == CloneRecords(initial)
    {
      var rs: seq<Record> := [];
      for i := 0 to |initial|
        invariant rs == CloneRecords(initial[..i])
      {
        rs := rs + [CloneRecord(initial[i])];
        assert initial[..i + 1] == initial[..i] + [initial[i]];
      }
      assert initial[..|initial|] == initial;
      records := rs;
    }

    method Record(record: Record)
      modifies this
      ensures records == old(records) + [CloneRecord(record)]
    {
      records := records + [CloneRecord(record)];
    }

    method Records() returns (out: seq<Record>)
      ensures out == CloneRecords(records)
    {
      out := CopyRecords(records);
    }

    method Reset()
      modifies this
      ensures records == []
    {
      records := [];
    }
  }

  method CopyRecords(records: seq<Record>) returns (out: seq<Record>)
    ensures out == CloneRecords(records)
  {
    var copies := new Record[|records|](i requires 0 <= i < |records| => records[i]);
    for i := 0 to |records|
      invariant forall k | 0 <= k < i :: copies[k] == CloneRecord(records[k])
    {
      copies[i] := CloneRecord(records[i]);
    }
    out := copies[..];
  }

  datatype Reply =
    | Answer(result: TurnResult)
    | Failed(error: string)
    | Mismatch(turn: nat)
    | Exhausted(turn: nat)

  // What the provider replies at a turn, and the turn it goes on to.
  function ReplyAt(records: seq<Record>, next: nat, req: Request): (Reply, nat) {
    if next >= |records| then (Exhausted(next), next)
    else
      var r := records[next];
        (if !RequestsEqual(req, r.request) then Mismatch(next)
       else if r.error != "" then Failed(r.error)
       else Answer(CloneResult(r.result)), next + 1)
  }

  class ReplayProvider {
    var records: seq<Record>
    var next: nat
    var lastMatch: Option<nat>

    predicate Valid()
      reads this
    {
      next <= |records| && (lastMatch.Some? ==> next > 0 && lastMatch == Some(next - 1))
    }

    constructor (records: seq<Record>)
      ensures Valid() && this.records == CloneRecords(records) && next == 0
    {
      var copies := CopyRecords(records);
      this.records, next, lastMatch := copies, 0, None;
    }

    method Turn(req: Request) returns (reply: Reply)
      requires Valid()
      modifies this
      ensures Valid() && records == old(records)
      ensures (reply, next) == ReplyAt(records, old(next), req)
      ensures lastMatch == if reply.Answer? || reply.Failed? then Some(old(next)) else None
    {
      if next >= |records| {
        lastMatch := None;
        return Exhausted(next);
      }
      var record := records[next];
      var turn := next;
      next := next + 1;
      if !RequestsEqual(req, record.request) {
        lastMatch := None;
        return Mismatch(turn);
      }
      lastMatch := Some(turn);
      CloneRecordResult(record);
      var copy := CloneRecord(record);
      if copy.error != "" {
        return Failed(copy.error);
      }
      return Answer(CloneResult(copy.result));
    }

    // Nothing is lost or replayed twice: what is consumed and what remains is the recording.
    method Progress() returns (consumed: nat, remaining: nat)
      requires Valid()
      ensures consumed == next && consumed + remaining == |records|
    {
      consumed, remaining := next, |records| - next;
    }

    method Reset()
      requires Valid()
      modifies this`next, this`lastMatch
      ensures Valid() && next == 0 && lastMatch == None
    {
      next, lastMatch := 0, None;
    }
  }

  lemma CloneRecordResult(r: Record)
    ensures CloneResult(CloneRecord(r).result) == CloneResult(r.result) && CloneRecord(r).error == r.error
  {
    CloneResultTwice(r.result);
  }

  // ---------------------------------------------------------------------------------
  // Record, then replay

  // The replies to a list of requests, from a turn on.
  function Replies(records: seq<Record>, next: nat, reqs: seq<Request>): seq<Reply>
    decreases |reqs|
  {
    if reqs == [] then []
    else
      var (reply, after) := ReplyAt(records, next, reqs[0]);
      [reply] + Replies(records, after, reqs[1..])
  }

  function Requests(run: seq<Record>): seq<Request> {
    seq(|run|, i requires 0 <= i < |run| => run[i].request)
  }

  // What the run itself gave: a result, with calls that are never nil, or an error.
  function Given(r: Record): Reply {
    if r.error != "" then Failed(r.error) else Answer(CloneResult(r.result))
  }

  function GivenAll(run: seq<Record>): seq<Reply> {
    seq(|run|, i requires 0 <= i < |run| => Given(run[i]))
  }

  // What a provider built from a recording of the run holds.
  function Recorded(run: seq<Record>): seq<Record> {
    CloneRecords(CloneRecords(CloneRecords(run)))
  }

  lemma RecordedOnce(run: seq<Record>)
    ensures Recorded(run) == CloneRecords(run)
  {
    forall i | 0 <= i < |run|
      ensures Recorded(run)[i] == CloneRecord(run[i])
    {
      CloneRecordTwice(run[i]);
    }
  }

  lemma ReplyExact(run: seq<Record>, n: nat)
    requires n < |run|
    ensures ReplyAt(Recorded(run), n, run[n].request) ==
            (if StableRequest(run[n].request) then Given(run[n]) else Mismatch(n), n + 1)
  {
    hide RequestsEqual, SelfEqualRequest, FixedRequest, CloneRequest, CloneResult;
    RecordedOnce(run);
    CloneRequestExact(run[n].request);
    RequestsEqualExactly(run[n].request, CloneRequest(run[n].request));
    CloneResultTwice(run[n].result);
  }

  lemma {:induction false} RepliesFrom(run: seq<Record>, n: nat)
    requires n <= |run| && forall i | 0 <= i < |run| :: StableRequest(run[i].request)
    ensures Replies(Recorded(run), n, Requests(run)[n..]) == GivenAll(run)[n..]
    decreases |run| - n
  {
    hide Recorded, Given, ReplyAt, StableRequest;
    if n < |run| {
      assert StableRequest(run[n].request);
      ReplyExact(run, n);
      assert ReplyAt(Recorded(run), n, Requests(run)[n..][0]) == (Given(run[n]), n + 1);
      RepliesFrom(run, n + 1);
      assert Requests(run)[n..][1..] == Requests(run)[n + 1..];
      assert GivenAll(run)[n..] == [Given(run[n])] + GivenAll(run)[n + 1..];
    }
  }

  // What a turn of the run gave, as far as a reply can tell: its error, or its result up to what
  // is nil and what is empty.
  predicate Gives(reply: Reply, r: Record) {
    if r.error != "" then reply == Failed(r.error) else reply.Answer? && AlikeResults(r.result, reply.result)
  }

  // Replaying the recorded requests gives back every result and error, in order, and then
  // reports exhaustion, whatever is asked next.
  lemma RecordThenReplay(run: seq<Record>, more: Request)
    requires forall i | 0 <= i < |run| :: StableRequest(run[i].request)
    ensures var replies := Replies(Recorded(run), 0, Requests(run));
            && |replies| == |run|
            && (forall i | 0 <= i < |run| :: Gives(replies[i], run[i]))
            && (forall i | 0 <= i < |run| && run[i].error == "" && CloneResult(run[i].result) == run[i].result ::
                  replies[i] == Answer(run[i].result))
    ensures ReplyAt(Recorded(run), |run|, more) == (Exhausted(|run|), |run|)
  {
    hide Recorded, CloneResult, AlikeResults, StableRequest;
    RecordedSize(run);
    RepliesFrom(run, 0);
    assert Requests(run)[0..] == Requests(run) && GivenAll(run)[0..] == GivenAll(run);
    forall i | 0 <= i < |run|
      ensures Gives(GivenAll(run)[i], run[i])
    {
      CloneResultAlike(run[i].result);
    }
  }

  lemma RecordedSize(run: seq<Record>)
    ensures |Recorded(run)| == |run|
  {
  }

  // The turn after a list of requests, whatever they are and however they are answered.
  function NextAfter(records: seq<Record>, next: nat, reqs: seq<Request>): nat
    decreases |reqs|
  {
    if reqs == [] then next else NextAfter(records, ReplyAt(records, next, reqs[0]).1, reqs[1..])
  }

  // Every request consumes one record, answered or not, until none is left.
  lemma {:induction false} EachRequestConsumesOne(records: seq<Record>, next: nat, reqs: seq<Request>)
    requires next <= |records|
    ensures NextAfter(records, next, reqs) == if next + |reqs| <= |records| then next + |reqs| else |records|
    decreases |reqs|
  {
    if reqs != [] {
      EachRequestConsumesOne(records, ReplyAt(records, next, reqs[0]).1, reqs[1..]);
    }
  }

  // Stability is what it takes: a request is met with a mismatch exactly if it is not stable.
  lemma MismatchExactly(run: seq<Record>, n: nat)
    requires n < |run|
    ensures ReplyAt(Recorded(run), n, run[n].request).0 == Mismatch(n) <==> !StableRequest(run[n].request)
  {
    hide StableRequest;
    ReplyExact(run, n);
  }

  // An empty stop list that is not nil is the least of them, or a NaN.
  lemma EmptyOrNaNMismatches(run: seq<Record>, n: nat)
    requires n < |run|
    requires run[n].request.stop == Items([]) || run[n].request.temperature == Some(NotANumber)
    ensures ReplyAt(Recorded(run), n, run[n].request).0 == Mismatch(n)
  {
    MismatchExactly(run, n);
  }
}
