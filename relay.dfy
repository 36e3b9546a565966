/** The decision logic of `generate(messages, model_type)` and its inner generator
    `stream()`: pick the latest user message, route it, build the outbound message
    list, answer out-of-scope questions with a fixed notice, and otherwise relay the
    upstream completion's text deltas until it reports that it is done. The upstream
    completion is an input: the sequence of events it would deliver. */
module Relay {
  import opened Common
  import opened Text
  import opened Router

  // ---------------------------------------------------------------------------
  // Requests

  /** A JSON value of the request body: a string, or a value of another Python type,
      named as `type(v).__name__` names it ("list", "NoneType", "int", ...). */
  datatype Json = Str(s: string) | NonStr(typeName: string)

  /** One caller message: a JSON object whose "role" and "content" keys may be absent. */
  datatype Message = Message(role: Option<Json>, content: Option<Json>)

  /** `m["role"] == "user"`, for a message that has a role. */
  predicate IsUser(m: Message) {
    m.role == Some(Str("user"))
  }

  /** Scanning backwards from the end, the scan passes over every message from index
      `n` on: each has a role, and the role is not "user". */
  predicate PassedOver(ms: seq<Message>, n: int) {
    forall j :: 0 <= n <= j < |ms| ==> ms[j].role.Some? && !IsUser(ms[j])
  }

  /** The exceptions the request itself can raise before anything is streamed. */
  datatype Fault =
    | KeyMissing(key: string)      // KeyError from `m["role"]` or `m["content"]`
    | NoLower(typeName: string)    // AttributeError: the user content is not a string

  /** `str(e)` for the exception. */
  function Describe(f: Fault): (r: string)
    ensures f.KeyMissing? ==>
      |r| == |f.key| + 2 && r[0] == '\'' == r[|r| - 1] && r[1..|r| - 1] == f.key
    ensures f.NoLower? ==>
      && |r| == |f.typeName| + 34
      && r[0] == '\'' && r[1..|f.typeName| + 1] == f.typeName
      && r[|f.typeName| + 1..] == "' object has no attribute 'lower'"
  {
    match f
    case KeyMissing(key) => "'" + key + "'"
    case NoLower(typeName) => "'" + typeName + "' object has no attribute 'lower'"
  }

  /** The fragment the `except` clause yields: `f"\n[Error]: {str(e)}"`. */
  function ErrorFragment(detail: string): (r: string)
    ensures |r| == 10 + |detail| && r[..10] == "\n[Error]: " && r[10..] == detail
  {
    "\n[Error]: " + detail
  }

  /** `next((m["content"] for m in reversed(messages) if m["role"] == "user"), "")`.
      The scan is lazy: it looks at messages from the last one backwards and stops at
      the first user message, so messages before that one are never inspected. */
  function LatestUserContent(ms: seq<Message>): (r: Result<Json, Fault>)
    ensures r.Err? ==> r.error == KeyMissing("role") || r.error == KeyMissing("content")
    decreases |ms|
  {
    if |ms| == 0 then Ok(Str(""))
    else
      var m := ms[|ms| - 1];
      if m.role.None? then Err(KeyMissing("role"))
      else if !IsUser(m) then LatestUserContent(ms[..|ms| - 1])
      else if m.content.None? then Err(KeyMissing("content"))
      else Ok(m.content.value)
  }

  /** The backward scan as a loop. */
  method FindUserContent(ms: seq<Message>) returns (r: Result<Json, Fault>)
    ensures r == LatestUserContent(ms)
  {
    var i := |ms|;
    assert ms[..i] == ms;
    while i > 0
      invariant 0 <= i <= |ms|
      invariant LatestUserContent(ms) == LatestUserContent(ms[..i])
    {
      var m := ms[i - 1];
      if m.role.None? {
        return Err(KeyMissing("role"));
      }
      if IsUser(m) {
        if m.content.None? {
          return Err(KeyMissing("content"));
        }
        return Ok(m.content.value);
      }
      assert ms[..i][..i - 1] == ms[..i - 1];
      i := i - 1;
    }
    return Ok(Str(""));
  }

  /** Messages the scan passes over make no difference to its outcome. */
  lemma {:induction false} ScanSkips(ms: seq<Message>, n: int)
    requires 0 <= n <= |ms|
    requires PassedOver(ms, n)
    ensures LatestUserContent(ms) == LatestUserContent(ms[..n])
    decreases |ms|
  {
    if n < |ms| {
      var front := ms[..|ms| - 1];
      assert PassedOver(front, n);
      ScanSkips(front, n);
      assert front[..n] == ms[..n];
    } else {
      assert ms[..n] == ms;
    }
  }

  /** The content of the last user message is the one chosen, provided every later
      message has a role; nothing before it matters. */
  lemma UserContentIsLatest(ms: seq<Message>, i: int)
    requires 0 <= i < |ms| && IsUser(ms[i]) && ms[i].content.Some?
    requires PassedOver(ms, i + 1)
    ensures LatestUserContent(ms) == Ok(ms[i].content.value)
  {
    ScanSkips(ms, i + 1);
    assert ms[..i + 1][i] == ms[i];
  }

  /** When every message has a role and none is "user", the question is the empty
      string. */
  lemma NoUserMeansEmpty(ms: seq<Message>)
    requires PassedOver(ms, 0)
    ensures LatestUserContent(ms) == Ok(Str(""))
  {
    ScanSkips(ms, 0);
  }

  /** A message without "role" that the scan reaches raises KeyError('role'). */
  lemma MissingRoleFails(ms: seq<Message>, i: int)
    requires 0 <= i < |ms| && ms[i].role.None?
    requires PassedOver(ms, i + 1)
    ensures LatestUserContent(ms) == Err(KeyMissing("role"))
  {
    ScanSkips(ms, i + 1);
    assert ms[..i + 1][i] == ms[i];
  }

  /** The last user message, when every later message has a role, raises
      KeyError('content') if it has no "content". */
  lemma MissingContentFails(ms: seq<Message>, i: int)
    requires 0 <= i < |ms| && IsUser(ms[i]) && ms[i].content.None?
    requires PassedOver(ms, i + 1)
    ensures LatestUserContent(ms) == Err(KeyMissing("content"))
  {
    ScanSkips(ms, i + 1);
    assert ms[..i + 1][i] == ms[i];
  }

  /** The question text handed to `detect_agent`; content that is not a string fails
      there, at `user_input.lower()`. */
  function UserText(ms: seq<Message>): (r: Result<string, Fault>)
    ensures r.Ok? <==> LatestUserContent(ms).Ok? && LatestUserContent(ms).value.Str?
    ensures r.Ok? ==> LatestUserContent(ms) == Ok(Str(r.value))
    ensures LatestUserContent(ms).Err? ==> r == Err(LatestUserContent(ms).error)
    ensures LatestUserContent(ms).Ok? && LatestUserContent(ms).value.NonStr? ==>
      r == Err(NoLower(LatestUserContent(ms).value.typeName))
  {
    match LatestUserContent(ms)
    case Err(f) => Err(f)
    case Ok(Str(s)) => Ok(s)
    case Ok(NonStr(t)) => Err(NoLower(t))
  }

  // ---------------------------------------------------------------------------
  // The outbound message list

  /** One entry of `all_messages`: the persona's system prompt, or a caller message. */
  datatype Wire = SystemPrompt(persona: Agent) | Forwarded(message: Message)

  /** `[{"role": "system", "content": agent["system"]}] + messages`. */
  function Assemble(a: Agent, ms: seq<Message>): (r: seq<Wire>)
    ensures |r| == |ms| + 1 && r[0] == SystemPrompt(a)
    ensures forall i :: 1 <= i < |r| ==> r[i] == Forwarded(ms[i - 1])
  {
    [SystemPrompt(a)] + seq(|ms|, i requires 0 <= i < |ms| => Forwarded(ms[i]))
  }

  /** The caller messages carried by an outbound list, in order. */
  function Callers(ws: seq<Wire>): (r: seq<Message>)
    ensures |r| <= |ws|
  {
    if ws == [] then []
    else (if ws[0].Forwarded? then [ws[0].message] else []) + Callers(ws[1..])
  }

  /** The outbound list carries exactly one system prompt, the chosen persona's, in
      front of the caller's messages, which pass unchanged and in order. */
  lemma AssembleRoundTrip(a: Agent, ms: seq<Message>)
    ensures Callers(Assemble(a, ms)) == ms
    ensures Assemble(a, ms)[0].persona == a
    ensures forall i :: 1 <= i < |Assemble(a, ms)| ==> Assemble(a, ms)[i].Forwarded?
  {
    CallersOfForwarded(Assemble(a, ms)[1..], ms);
  }

  lemma {:induction false} CallersOfForwarded(ws: seq<Wire>, ms: seq<Message>)
    requires |ws| == |ms|
    requires forall i :: 0 <= i < |ws| ==> ws[i] == Forwarded(ms[i])
    ensures Callers(ws) == ms
    decreases |ws|
  {
    if ws != [] {
      CallersOfForwarded(ws[1..], ms[1..]);
    }
  }

  // ---------------------------------------------------------------------------
  // The upstream completion stream

  /** What iterating the upstream completion produces: a `content.delta` event with
      its text, a `content.done` event, an event of any other type, or an exception
      raised by the client (while opening the stream or while reading it), with its
      `str(e)`. */
  datatype Event = ContentDelta(delta: string) | ContentDone | OtherEvent | Raised(detail: string)

  /** The event ends the relay loop. */
  predicate Stops(e: Event) {
    e.ContentDone? || e.Raised?
  }

  /** The fragments the relay loop yields for the given events: every non-empty delta
      in order, nothing from the first `content.done` on, and one error fragment for
      an exception. */
  function Relayed(events: seq<Event>): (r: seq<string>)
    ensures forall i :: 0 <= i < |r| ==> r[i] != []
    ensures |r| <= |events|
  {
    if events == [] then []
    else match events[0]
      case ContentDelta(d) => (if d != [] then [d] else []) + Relayed(events[1..])
      case ContentDone => []
      case OtherEvent => Relayed(events[1..])
      case Raised(detail) => [ErrorFragment(detail)]
  }

  /** Index of the first event that ends the loop, or the length when none does. */
  function Cut(events: seq<Event>): (n: nat)
    ensures n <= |events|
    ensures forall i :: 0 <= i < n ==> !Stops(events[i])
    ensures n < |events| ==> Stops(events[n])
  {
    if events == [] || Stops(events[0]) then 0 else 1 + Cut(events[1..])
  }

  /** The non-empty deltas among the events, ignoring every other event. */
  function Payloads(events: seq<Event>): (r: seq<string>)
    ensures forall i :: 0 <= i < |r| ==> r[i] != []
  {
    if events == [] then []
    else
      var last := events[|events| - 1];
      var tail := if last.ContentDelta? && last.delta != [] then [last.delta] else [];
      Payloads(events[..|events| - 1]) + tail
  }

  lemma {:induction false} PayloadsPrepend(e: Event, events: seq<Event>)
    ensures Payloads([e] + events) ==
      (if e.ContentDelta? && e.delta != [] then [e.delta] else []) + Payloads(events)
    decreases |events|
  {
    var all := [e] + events;
    if events == [] {
      assert all[..0] == [];
    } else {
      assert all[..|all| - 1] == [e] + events[..|events| - 1];
      PayloadsPrepend(e, events[..|events| - 1]);
    }
  }

  /** Past an event that does not end the loop, the cut moves one place along. */
  lemma CutStep(events: seq<Event>)
    requires events != [] && !Stops(events[0])
    ensures Cut(events) == 1 + Cut(events[1..])
  {
  }

  /** ... so the events before it are that event followed by the rest's. */
  lemma CutStepPrefix(events: seq<Event>)
    requires events != [] && !Stops(events[0])
    ensures events[..Cut(events)] == [events[0]] + events[1..][..Cut(events[1..])]
  {
    CutStep(events);
  }

  /** ... and the event it stops at is the one the rest stops at. */
  lemma CutStepAt(events: seq<Event>)
    requires events != [] && !Stops(events[0])
    ensures Cut(events) < |events| ==> events[Cut(events)] == events[1..][Cut(events[1..])]
  {
    CutStep(events);
  }

  /** An event that does not end the loop yields at most its own delta. */
  lemma RelayedStep(events: seq<Event>)
    requires events != [] && !Stops(events[0])
    ensures Relayed(events) ==
      (if events[0].ContentDelta? && events[0].delta != [] then [events[0].delta] else []) +
      Relayed(events[1..])
  {
  }

  /** The relay yields exactly the non-empty deltas before the first event that ends
      the loop, followed by one error fragment when that event is an exception. */
  lemma {:induction false} RelayedIsPayloadsBeforeCut(events: seq<Event>)
    ensures Relayed(events) == Payloads(events[..Cut(events)]) +
      (if Cut(events) < |events| && events[Cut(events)].Raised?
       then [ErrorFragment(events[Cut(events)].detail)] else [])
    decreases |events|
  {
    if events != [] && !Stops(events[0]) {
      var rest := events[1..];
      RelayedIsPayloadsBeforeCut(rest);
      CutStepPrefix(events);
      CutStepAt(events);
      RelayedStep(events);
      PayloadsPrepend(events[0], rest[..Cut(rest)]);
    } else {
      assert events[..0] == [];
    }
  }

  /** Nothing after `content.done` is ever relayed. */
  lemma {:induction false} RelayedStopsAtDone(pre: seq<Event>, post: seq<Event>)
    requires forall i :: 0 <= i < |pre| ==> !Stops(pre[i])
    ensures Relayed(pre + [ContentDone] + post) == Relayed(pre)
    decreases |pre|
  {
    if pre == [] {
      assert pre + [ContentDone] + post == [ContentDone] + post;
    } else {
      assert (pre + [ContentDone] + post)[1..] == pre[1..] + [ContentDone] + post;
      RelayedStopsAtDone(pre[1..], post);
    }
  }

  /** Relaying keeps arrival order: a stretch without `content.done` or an exception
      is relayed in full before whatever follows it. */
  lemma {:induction false} RelayedAppend(pre: seq<Event>, post: seq<Event>)
    requires forall i :: 0 <= i < |pre| ==> !Stops(pre[i])
    ensures Relayed(pre + post) == Relayed(pre) + Relayed(post)
    decreases |pre|
  {
    if pre == [] {
      assert pre + post == post;
    } else {
      assert (pre + post)[1..] == pre[1..] + post;
      RelayedAppend(pre[1..], post);
    }
  }

  // ---------------------------------------------------------------------------
  // The response

  /** The text yielded for an out-of-scope question. */
  const GuardianNotice: string :=
    "\U{1F44B} This suite specializes in leadership, communication, and emotional mastery.\n" +
    "Your question seems outside this focus — would you like to explore one of these areas instead?"

  /** What one request produces: the fragments yielded, in order, and the message list
      sent upstream, if the upstream completion was requested at all. */
  datatype Reply = Reply(fragments: seq<string>, upstream: Option<seq<Wire>>)

  /** The response `stream()` gives to the caller messages `ms` when the upstream
      completion would deliver `events`. */
  function Respond(ms: seq<Message>, events: seq<Event>): (r: Reply)
    ensures |r.fragments| >= 1 || r.upstream.Some?
    ensures r.upstream.Some? ==> UserText(ms).Ok? && r.fragments == Relayed(events)
  {
    match UserText(ms)
    case Err(f) => Reply([ErrorFragment(Describe(f))], None)
    case Ok(text) =>
      var agent := DetectAgent(text);
      if agent == Guardian then Reply([GuardianNotice], None)
      else Reply(Relayed(events), Some(Assemble(agent, ms)))
  }

  /** `generate(messages, model_type)` drained: the generator `stream()` run to the end. */
  method Stream(ms: seq<Message>, events: seq<Event>) returns (fragments: seq<string>, upstream: Option<seq<Wire>>)
    ensures Reply(fragments, upstream) == Respond(ms, events)
  {
    fragments := [];
    upstream := None;
    var found := FindUserContent(ms);
    if found.Err? {
      fragments := [ErrorFragment(Describe(found.error))];
      return;
    }
    if found.value.NonStr? {
      fragments := [ErrorFragment(Describe(NoLower(found.value.typeName)))];
      return;
    }
    var agent := DetectAgent(found.value.s);
    var outbound := Assemble(agent, ms);
    if agent == Guardian {
      fragments := [GuardianNotice];
      return;
    }
    upstream := Some(outbound);
    fragments := RelayEvents(events);
  }

  /** `for event in response: ...`: yield each non-empty delta, stop at `content.done`;
      an exception ends the loop and the `except` clause yields its error fragment. */
  method RelayEvents(events: seq<Event>) returns (fragments: seq<string>)
    ensures fragments == Relayed(events)
  {
    fragments := [];
    var i := 0;
    while i < |events|
      invariant 0 <= i <= |events|
      invariant fragments + Relayed(events[i..]) == Relayed(events)
    {
      assert events[i..][1..] == events[i + 1..];
      match events[i] {
        case ContentDelta(d) =>
          if d != [] {
            fragments := fragments + [d];
          }
        case ContentDone =>
          assert fragments == Relayed(events);
          break;
        case OtherEvent =>
        case Raised(detail) =>
          fragments := fragments + [ErrorFragment(detail)];
          break;
      }
      i := i + 1;
    }
  }

  // ---------------------------------------------------------------------------
  // Properties of the response

  /** An out-of-scope question gets the notice alone, whatever upstream would have
      sent, and the upstream completion is never requested. */
  lemma GuardianShortCircuits(ms: seq<Message>, events: seq<Event>, others: seq<Event>)
    requires UserText(ms).Ok? && DetectAgent(UserText(ms).value) == Guardian
    ensures Respond(ms, events) == Respond(ms, others)
    ensures Respond(ms, events).fragments == [GuardianNotice]
    ensures Respond(ms, events).upstream.None?
  {
  }

  /** A conversation in which every message has a role and none is "user" is out of
      scope: empty input is routed to the guardian. */
  lemma NoUserMessageGetsNotice(ms: seq<Message>, events: seq<Event>)
    requires PassedOver(ms, 0)
    ensures Respond(ms, events) == Reply([GuardianNotice], None)
  {
    NoUserMeansEmpty(ms);
    BlankInputIsGuardian([]);
  }

  /** A blank question in the last user message, when every later message has a
      role, is out of scope too. */
  lemma BlankQuestionGetsNotice(ms: seq<Message>, i: int, events: seq<Event>)
    requires 0 <= i < |ms| && IsUser(ms[i]) && ms[i].content.Some?
    requires PassedOver(ms, i + 1)
    requires ms[i].content.value.Str? && AllSpace(ms[i].content.value.s)
    ensures Respond(ms, events) == Reply([GuardianNotice], None)
  {
    UserContentIsLatest(ms, i);
    BlankInputIsGuardian(ms[i].content.value.s);
  }

  /** An in-scope question is answered by relaying the upstream completion, which is
      asked with the chosen persona's prompt followed by the caller's messages. */
  lemma InScopeIsRelayed(ms: seq<Message>, events: seq<Event>)
    requires UserText(ms).Ok? && DetectAgent(UserText(ms).value) != Guardian
    ensures Respond(ms, events).fragments == Relayed(events)
    ensures Respond(ms, events).upstream.Some?
    ensures Callers(Respond(ms, events).upstream.value) == ms
    ensures Respond(ms, events).upstream.value[0] == SystemPrompt(DetectAgent(UserText(ms).value))
  {
    AssembleRoundTrip(DetectAgent(UserText(ms).value), ms);
  }

  /** A message without a role, reached by the scan, ends the response with the
      KeyError text and no upstream call. */
  lemma MissingRoleReported(ms: seq<Message>, i: int, events: seq<Event>)
    requires 0 <= i < |ms| && ms[i].role.None?
    requires PassedOver(ms, i + 1)
    ensures Respond(ms, events) == Reply(["\n[Error]: 'role'"], None)
  {
    MissingRoleFails(ms, i);
    assert ErrorFragment(Describe(KeyMissing("role"))) == "\n[Error]: 'role'";
  }

  /** The last user message without content, when every later message has a role,
      ends the response with the KeyError text and no upstream call. */
  lemma MissingContentReported(ms: seq<Message>, i: int, events: seq<Event>)
    requires 0 <= i < |ms| && IsUser(ms[i]) && ms[i].content.None?
    requires PassedOver(ms, i + 1)
    ensures Respond(ms, events) == Reply(["\n[Error]: 'content'"], None)
  {
    MissingContentFails(ms, i);
    assert ErrorFragment(Describe(KeyMissing("content"))) == "\n[Error]: 'content'";
  }

  /** Content that is not a string (a list of parts, say) in the last user message,
      when every later message has a role, fails at `lower()`. */
  lemma NonStringContentReported(ms: seq<Message>, i: int, typeName: string, events: seq<Event>)
    requires 0 <= i < |ms| && IsUser(ms[i]) && ms[i].content == Some(NonStr(typeName))
    requires PassedOver(ms, i + 1)
    ensures Respond(ms, events) ==
      Reply(["\n[Error]: " + ("'" + typeName + "' object has no attribute 'lower'")], None)
  {
    UserContentIsLatest(ms, i);
  }
}
