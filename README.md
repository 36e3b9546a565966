# GravitasGPT persona router and response relay, in Dafny

GravitasGPT is a small Flask server that answers leadership and communication
questions through one of several coaching personas. Two pieces of its `app.py` hold
the logic that this project models:

- **The persona router** `detect_agent`. It lower-cases and strips the user's text.
  Text with none of 19 domain terms goes to the guardian, which handles out-of-scope
  questions. Other text goes through a first-match-wins chain of ten keyword groups:
  Eidos, Kinesis, Gravis, Virtus, Ethos, Praxis, Anima, Persona, Impressa and Sentio.
  After the chain come a `senate`/`consult` test and an inline default persona, for
  13 possible outcomes in all.
- **The response generator** `generate(...).stream()`:
  1. It scans the messages from the last one backwards and takes the content of the
     first whose role is `"user"`, or `""` if there is none. A message the scan
     reaches without a "role" raises KeyError('role'), and a chosen user message
     without "content" raises KeyError('content').
  2. It routes that content.
  3. It builds the outbound list: the persona's system prompt followed by the
     caller's messages.
  4. For the guardian it yields one fixed notice and stops.
  5. Otherwise it relays the non-empty `content.delta` texts of the upstream
     completion until `content.done`. An exception turns into one
     `"\n[Error]: ..."` fragment.

Files:

- `common.dfy` holds `Option` and `Result`.
- `text.dfy` (module `Text`) models Python's `str.lower()`, `str.strip()` and the
  substring test `kw in text`, with their algebra.
- `router.dfy` (module `Router`) holds the router. It adds a table-driven restatement
  of the chain and the ordering, overlap and iff properties.
- `router_examples.dfy` (module `RouterExamples`) holds concrete routings, one
  witness per outcome, and the proof that every outcome is reachable.
- `relay.dfy` (module `Relay`) models message selection, assembly, the guardian
  short-circuit and the relay loop. `Relay.Stream` and its loops are methods proved
  equal to the function `Relay.Respond`.
- `relay_examples.dfy` (module `RelayExamples`) holds concrete conversations.

The upstream completion is not called. It is a parameter: the sequence of events it
would deliver, where an event is a delta, `content.done`, any other event, or an
exception raised by the client.

Three things `app.py` does not do, stated here because they are easy to assume:

- There is no greeting persona. "hello" has no domain term and goes to the guardian
  (`RouterExamples.HelloGoesToGuardian`).
- There is no image attachment and no rebuilt final user turn.
- The outbound list starts with exactly one system prompt, the persona's. The
  caller's messages follow unchanged, so a system message the caller sent is
  forwarded too (`RelayExamples.EmotionsConversation`).

## Model

| member | source | states |
|---|---|---|
| Text.LowerChar | app.py:121 | a capital `A`-`Z` becomes its own lower-case letter; every other character is unchanged |
| Text.Lower | app.py:121 | `lower()` keeps the length, leaves no upper-case letter and maps each character on its own, as `LowerChar` does |
| Text.Strip | app.py:121 | `strip()` returns `s` with whitespace-only runs cut from both ends, and the result neither starts nor ends with whitespace |
| Text.Normalize | app.py:121 | the router's text has no capitals, no surrounding whitespace and is no longer than the input |
| Text.StripIgnoresPadding | app.py:121 | whitespace added on either side does not change `strip()` |
| Text.StripOfBlank | app.py:121 | a blank string strips to the empty string |
| Text.NormalizeIdempotent | app.py:121 | normalizing twice equals normalizing once |
| Text.NormalizeIgnoresPadding | app.py:121 | `(w1 + s + w2).lower().strip() == s.lower().strip()` for whitespace `w1`, `w2` |
| Text.NormalizeIgnoresCase | app.py:121 | lower-casing the input first does not change the normal form |
| Text.NormalOfNormal | app.py:121 | text with no capitals and no surrounding whitespace is its own normal form |
| Text.Contains | app.py:129 | `kw in text`: the empty keyword is in every text, and a keyword that is in the text is no longer than it |
| Text.AnyIn | app.py:129 | `any(w in text for w in words)` is false over no words and is the single `in` test over one word |
| Text.AnyInByMembership | app.py:129 | `any(...)` holds exactly when some member of the word list is `in` the text |
| Text.AbsentChar | app.py:129 | a keyword is not `in` a text that lacks one of its characters |
| Text.SplitAtSeparator | app.py:129 | a keyword without the separator character lies wholly on one side of it |
| Router.Route | app.py:129-162 | the normalized text goes to the guardian exactly when it has no domain term, and to Eidos exactly when it is in scope and has an Eidos keyword |
| Router.DetectAgent | app.py:120-130 | `detect_agent` returns the guardian exactly when the lower-cased, stripped input has no domain term |
| Router.RouteByRules | app.py:129-162 | the rule-list router gives the guardian exactly for out-of-scope text, and a routed persona only when that persona's group has a hit |
| Router.FirstHit | app.py:133-152 | the index found is the first group with a hit at or after `from`; `None` means no group from `from` on has one |
| Router.RouteFollowsRules | app.py:120-162 | the if-chain equals a first-match search over the ten-group table, followed by the senate test and the default |
| Router.GuardianIffOutOfScope | app.py:121-130 | `detect_agent` returns the guardian exactly when the normalized text contains no domain term |
| Router.BlankInputIsGuardian | app.py:121-130 | empty or all-whitespace input goes to the guardian |
| Router.DetectAgentOfNormalized | app.py:121 | `detect_agent(s) == detect_agent(normalize(s))` |
| Router.DetectAgentIgnoresCase | app.py:121 | letter case makes no difference to the route |
| Router.DetectAgentIgnoresPadding | app.py:121 | surrounding whitespace makes no difference to the route |
| Router.RuleChosenIff | app.py:133-152 | for in-scope text, group `k` wins exactly when it has a hit and no earlier group has one |
| Router.EarlierGroupWins | app.py:133-152 | a group never wins when an earlier group has a hit |
| Router.EmpathyGoesToEidos | app.py:124-134 | any text containing "empathy" goes to Eidos, whatever else it contains ("posture" included) |
| Router.AuthorityNeverPraxis | app.py:124-144 | text containing "authority" goes to Eidos, Kinesis or Gravis, never to Praxis |
| Router.PraxisOnlyThrough | app.py:133-144 | Praxis is reached only through "leadership", "team" or "meeting", and only by text without "authority" |
| Router.SenateIff | app.py:129-154 | the Senate is chosen exactly for in-scope text that no group matches and that contains "senate" or "consult" |
| Router.DefaultIff | app.py:129-162 | the default persona is chosen exactly when the text is in scope and no later test fires |
| RouterExamples.HelloGoesToGuardian | app.py:121-130 | `detect_agent("hello")` is the guardian: there is no greeting route |
| RouterExamples.WeatherGoesToGuardian | app.py:124-130 | "what's the weather" is out of scope |
| RouterExamples.EmotionsGoToEidos | app.py:133-134 | "how do i manage my emotions in conflict" goes to Eidos |
| RouterExamples.EmotionsQuestionDetected | app.py:120-134 | `detect_agent` sends the emotions question to Eidos |
| RouterExamples.CapitalisedQuestionDetected | app.py:120-134 | "How do I manage my emotions in conflict", with capitals, also goes to Eidos |
| RouterExamples.PaddedQuestionDetected | app.py:120-134 | the capitalised question with two leading spaces and a trailing newline also goes to Eidos |
| RouterExamples.RoutingWordsThatAreNotTerms | app.py:124-133 | "feeling" and "conflict" are Eidos keywords but not domain terms |
| RouterExamples.FeelingConflictGoesToGuardian | app.py:124-134 | any text whose characters all occur in "feeling conflict" (those two words in any order, repeated or run together) never reaches Eidos: it goes to the guardian |
| RouterExamples.BodyGoesToKinesis | app.py:135-136 | "communication body" goes to Kinesis |
| RouterExamples.GravitasGoesToGravis | app.py:137-138 | "communication gravitas" goes to Gravis |
| RouterExamples.ValuesGoToVirtus | app.py:139-140 | "confidence values" goes to Virtus |
| RouterExamples.PersuadeGoesToEthos | app.py:141-142 | "persuasion persuade" goes to Ethos |
| RouterExamples.LeadershipGoesToPraxis | app.py:143-144 | "leadership" goes to Praxis |
| RouterExamples.InnerGoesToAnima | app.py:145-146 | "confidence inner" goes to Anima |
| RouterExamples.GroomingGoesToPersona | app.py:147-148 | "communication grooming" goes to Persona |
| RouterExamples.IntroductionGoesToImpressa | app.py:149-150 | "communication introduction" goes to Impressa |
| RouterExamples.CompassionGoesToSentio | app.py:151-152 | "communication compassion" goes to Sentio |
| RouterExamples.ConsultGoesToSenate | app.py:153-154 | "consult communication" goes to the Senate |
| RouterExamples.CommunicationGoesToDefault | app.py:155-162 | "communication" alone gets the default persona |
| RouterExamples.EveryOutcomeReachable | app.py:120-162 | each of the 13 outcomes is returned for some input: no branch is dead |
| Relay.Describe | app.py:195 | `str(e)` of a KeyError is the key in single quotes; of the failed `lower()` it is the quoted type name followed by `object has no attribute 'lower'` |
| Relay.ErrorFragment | app.py:195 | the error fragment is the ten-character prefix `"\n[Error]: "` followed by the exception text |
| Relay.LatestUserContent | app.py:168-169 | the scan fails only with KeyError('role') or KeyError('content') |
| Relay.FindUserContent | app.py:168-169 | the backward loop returns exactly what the scan specifies |
| Relay.ScanSkips | app.py:168-169 | messages after the one the scan stops at, all with a non-user role, do not change the outcome |
| Relay.UserContentIsLatest | app.py:168-169 | when every message after the last user message has a role, that user message's content is chosen; earlier messages are never inspected |
| Relay.NoUserMeansEmpty | app.py:168-169 | when every message has a role and none is "user", the question is `""` |
| Relay.MissingRoleFails | app.py:168-169 | a message without "role" that the scan reaches raises KeyError('role') |
| Relay.MissingContentFails | app.py:168-169 | the last user message, when every later message has a role, raises KeyError('content') if it has no "content" |
| Relay.UserText | app.py:168-170 | routing gets the chosen content exactly when it is a string; a KeyError of the scan is passed on, and non-string content fails at `lower()` with its type name |
| Relay.Assemble | app.py:172-174 | the outbound list is the persona's system prompt followed by each caller message in order |
| Relay.AssembleRoundTrip | app.py:172-174 | the caller messages are recovered unchanged from the outbound list, behind exactly one system prompt, the persona's |
| Relay.Relayed | app.py:188-195 | every relayed fragment is non-empty, and there are no more fragments than events |
| Relay.RelayedIsPayloadsBeforeCut | app.py:188-195 | the relay yields exactly the non-empty deltas before the first `content.done` or exception, then one error fragment if it was an exception |
| Relay.RelayedStopsAtDone | app.py:188-192 | nothing after `content.done` is ever relayed |
| Relay.RelayedAppend | app.py:188-190 | deltas are relayed in arrival order: a stretch without `content.done` or an exception is relayed in full before what follows |
| Relay.RelayEvents | app.py:188-195 | the `for event in response` loop yields exactly what the relay specifies |
| Relay.Respond | app.py:166-195 | any reply has a fragment or an upstream call; an upstream call happens only when the question text was found, and then the fragments are the relayed events |
| Relay.Stream | app.py:166-195 | the generator's fragments and its upstream request are exactly those of the response specification |
| Relay.GuardianShortCircuits | app.py:177-182 | an out-of-scope question gets the notice alone and no upstream call, whatever upstream would have sent |
| Relay.NoUserMessageGetsNotice | app.py:168-182 | a conversation in which every message has a role and none is "user" gets the guardian notice |
| Relay.BlankQuestionGetsNotice | app.py:168-182 | a blank question in the last user message, when every later message has a role, gets the guardian notice |
| Relay.InScopeIsRelayed | app.py:170-192 | an in-scope question is answered by relaying upstream, which gets the chosen persona's prompt and then the caller's messages |
| Relay.MissingRoleReported | app.py:166-195 | a message without a role, reached by the scan, yields only `"\n[Error]: 'role'"` and no upstream call |
| Relay.MissingContentReported | app.py:166-195 | the last user message, when every later message has a role, yields only `"\n[Error]: 'content'"` and no upstream call if it has no content |
| Relay.NonStringContentReported | app.py:166-195 | non-string content in the last user message, when every later message has a role, yields only the AttributeError text and no upstream call |
| RelayExamples.CompletionRelayed | app.py:188-192 | empty deltas and other events are dropped, and a delta after `content.done` is not relayed |
| RelayExamples.EmotionsConversation | app.py:166-192 | an emotions question goes to Eidos; upstream gets Eidos' prompt and both caller messages, including the caller's own system message |
| RelayExamples.FailureMidStream | app.py:188-195 | a client failure after the first delta keeps that delta and appends the error fragment |

## Left out

- Strings are sequences of Unicode scalar values. Python's `str` can also hold lone
  surrogates, for instance from a JSON escape, which a Dafny `char` cannot. This
  never changes a route: no keyword and no whitespace character is a surrogate.
- Text.LowerChar: maps only the capitals `A`-`Z`, for the reason given in the next line.
- Text.Lower: lower-cases ASCII letters only. Python's `str.lower()` also folds other
  Unicode letters (and can change the length for a few). Routing keywords are ASCII,
  so the difference matters only for non-ASCII capitals in the input.
- A caller message is modelled by its "role" and "content" keys only, and a JSON value
  that is not a string by its Python type name. app.py:172-174 forwards every key and
  the full contents of lists and objects upstream; `Relay.AssembleRoundTrip`'s
  "caller messages unchanged" is stated of this abstraction.
- The Flask app, the `/gpt4` route, `request.get_json()` and the `Response` wrapper
  (app.py:1-14, 200-210) are HTTP plumbing.
- The OpenAI client, `load_dotenv`, the model name and the temperature
  (app.py:4-9, 183-187) belong to a foreign network API. The completion is an event
  sequence parameter instead, and an exception it raises is an event.
- Persona prompt texts and display names (app.py:17-117, 156-162) are left out. Agents
  are constructors. The test `selected_agent["name"].startswith("Guardian")`
  (app.py:177) becomes `agent == Guardian`: only the guardian's name starts that way.
- `model_type` is accepted and never used (app.py:165).
- Exceptions the model does not name are not modelled separately. A message that is
  not a JSON object (TypeError) is one example. An exception from the upstream client
  is covered by the `Raised` event.
- `GeneratorExit` and the client closing the connection early are not modelled.
- static/main.js is not part of this model. It is UI code: DOM updates, `fetch` and
  rendering.
- Concurrency between requests is not modelled. No state is shared besides the
  read-only client.
