/** The persona router `detect_agent` of app.py: it normalizes the latest user
    message, sends text outside the service's subject area to the guardian
    persona, and otherwise picks the first persona whose keyword group has a
    substring hit, falling back to the Senate or to a default persona. */
module Router {
  import opened Common
  import opened Text

  /** The outcomes of `detect_agent`: the eleven entries of `AGENTS` (ten routed
      personas and the guardian), `SENATE`, and the persona built inline when
      nothing else fires. Display names and prompt texts are not modelled. */
  datatype Agent =
    | Eidos | Kinesis | Gravis | Virtus | Ethos | Praxis | Anima | Persona | Impressa | Sentio
    | Guardian
    | Senate
    | Default

  /** Text containing none of these is out of scope (`leadership_terms`). */
  const LeadershipTerms: seq<string> := [
    "leadership", "team", "emotion", "empathy", "speech", "presence", "communication",
    "influence", "virtue", "authority", "values", "mindfulness", "presentation", "confidence",
    "persuasion", "integrity", "motivation", "body language", "posture"
  ]

  // The keyword groups, in the order the router tests them.
  const EidosWords: seq<string> := ["emotion", "empathy", "feeling", "conflict", "sensitive"]
  const KinesisWords: seq<string> := ["body", "gesture", "posture", "tone", "eye contact", "nonverbal"]
  const GravisWords: seq<string> := ["gravitas", "presence", "authority", "composure", "calm"]
  const VirtusWords: seq<string> := ["virtue", "integrity", "values", "duty", "ethics", "honor"]
  const EthosWords: seq<string> := ["persuade", "influence", "story", "speech", "pitch", "proposal"]
  const PraxisWords: seq<string> := ["leadership", "team", "meeting", "authority"]
  const AnimaWords: seq<string> := ["inner", "mindfulness", "alignment", "purpose", "anxiety"]
  const PersonaWords: seq<string> := ["appearance", "attire", "style", "grooming", "energy", "brand"]
  const ImpressaWords: seq<string> := ["first impression", "introduce", "introduction", "elevator", "rapport"]
  const SentioWords: seq<string> := ["empathic", "listen", "understand", "compassion", "care"]

  /** Either of these sends in-scope text that no group matched to the Senate. */
  const SenateWords: seq<string> := ["senate", "consult"]

  /** The router applied to text that is already lower-cased and stripped. */
  function Route(text: string): (r: Agent)
    ensures r == Guardian <==> !InScope(text)
    ensures r == Eidos <==> InScope(text) && AnyIn(text, EidosWords)
  {
    if !AnyIn(text, LeadershipTerms) then Guardian
    else if AnyIn(text, EidosWords) then Eidos
    else if AnyIn(text, KinesisWords) then Kinesis
    else if AnyIn(text, GravisWords) then Gravis
    else if AnyIn(text, VirtusWords) then Virtus
    else if AnyIn(text, EthosWords) then Ethos
    else if AnyIn(text, PraxisWords) then Praxis
    else if AnyIn(text, AnimaWords) then Anima
    else if AnyIn(text, PersonaWords) then Persona
    else if AnyIn(text, ImpressaWords) then Impressa
    else if AnyIn(text, SentioWords) then Sentio
    else if Contains(text, "senate") || Contains(text, "consult") then Senate
    else Default
  }

  /** `detect_agent(user_input)`. */
  function DetectAgent(userInput: string): (r: Agent)
    ensures r == Guardian <==> !InScope(Normalize(userInput))
  {
    Route(Normalize(userInput))
  }

  // ---------------------------------------------------------------------------
  // The same policy as data: an ordered list of (keyword group, persona) rules.

  datatype Rule = Rule(words: seq<string>, agent: Agent)

  const Rules: seq<Rule> := [
    Rule(EidosWords, Eidos), Rule(KinesisWords, Kinesis), Rule(GravisWords, Gravis),
    Rule(VirtusWords, Virtus), Rule(EthosWords, Ethos), Rule(PraxisWords, Praxis),
    Rule(AnimaWords, Anima), Rule(PersonaWords, Persona), Rule(ImpressaWords, Impressa),
    Rule(SentioWords, Sentio)
  ]

  /** The index of the first rule at or after `from` whose group has a hit in `text`. */
  function FirstHit(text: string, rules: seq<Rule>, from: nat): (r: Option<nat>)
    requires from <= |rules|
    ensures r.Some? ==> from <= r.value < |rules| && AnyIn(text, rules[r.value].words)
    ensures r.Some? ==> forall j :: from <= j < r.value ==> !AnyIn(text, rules[j].words)
    ensures r.None? ==> forall j :: from <= j < |rules| ==> !AnyIn(text, rules[j].words)
    decreases |rules| - from
  {
    if from == |rules| then None
    else if AnyIn(text, rules[from].words) then Some(from)
    else FirstHit(text, rules, from + 1)
  }

  /** Routing by the rule list: out of scope goes to the guardian, then the first
      rule with a hit wins, then the Senate words, then the default persona. */
  function RouteByRules(text: string): (r: Agent)
    ensures r == Guardian <==> !InScope(text)
    ensures r !in {Guardian, Senate, Default} ==>
      exists k :: 0 <= k < |Rules| && Rules[k].agent == r && AnyIn(text, Rules[k].words)
  {
    if !AnyIn(text, LeadershipTerms) then Guardian
    else match FirstHit(text, Rules, 0)
      case Some(k) => Rules[k].agent
      case None => if AnyIn(text, SenateWords) then Senate else Default
  }

  /** The if-chain of `detect_agent` and the rule list agree on every text. */
  lemma RouteFollowsRules(text: string)
    ensures Route(text) == RouteByRules(text)
  {
    assert AnyIn(text, SenateWords) == (Contains(text, "senate") || Contains(text, "consult")) by {
      assert SenateWords[0] == "senate" && SenateWords[1] == "consult";
    }
    var hit := FirstHit(text, Rules, 0);
    var stop := if hit.Some? then hit.value else |Rules|;
    // every rule before `stop` misses; walk the chain one rule at a time
    if stop > 0 { assert !AnyIn(text, Rules[0].words); }
    if stop > 1 { assert !AnyIn(text, Rules[1].words); }
    if stop > 2 { assert !AnyIn(text, Rules[2].words); }
    if stop > 3 { assert !AnyIn(text, Rules[3].words); }
    if stop > 4 { assert !AnyIn(text, Rules[4].words); }
    if stop > 5 { assert !AnyIn(text, Rules[5].words); }
    if stop > 6 { assert !AnyIn(text, Rules[6].words); }
    if stop > 7 { assert !AnyIn(text, Rules[7].words); }
    if stop > 8 { assert !AnyIn(text, Rules[8].words); }
    if stop > 9 { assert !AnyIn(text, Rules[9].words); }
  }

  // ---------------------------------------------------------------------------
  // Properties of the router

  /** In scope: the normalized text contains a leadership term. */
  predicate InScope(text: string) {
    AnyIn(text, LeadershipTerms)
  }

  /** The guardian is chosen exactly for out-of-scope text. */
  lemma GuardianIffOutOfScope(s: string)
    ensures DetectAgent(s) == Guardian <==> !InScope(Normalize(s))
  {
  }

  /** Empty or all-whitespace input is out of scope. */
  lemma BlankInputIsGuardian(s: string)
    requires AllSpace(s)
    ensures DetectAgent(s) == Guardian
  {
    LowerKeepsSpace(s);
    StripOfBlank(s);
    EmptyContainsNothing(LeadershipTerms);
  }

  /** Routing looks only at the normalized text. */
  lemma DetectAgentOfNormalized(s: string)
    ensures DetectAgent(Normalize(s)) == DetectAgent(s)
  {
    NormalizeIdempotent(s);
  }

  /** Letter case makes no difference. */
  lemma DetectAgentIgnoresCase(s: string)
    ensures DetectAgent(Lower(s)) == DetectAgent(s)
  {
    NormalizeIgnoresCase(s);
  }

  /** Surrounding whitespace makes no difference. */
  lemma DetectAgentIgnoresPadding(w1: string, s: string, w2: string)
    requires AllSpace(w1) && AllSpace(w2)
    ensures DetectAgent(w1 + s + w2) == DetectAgent(s)
  {
    NormalizeIgnoresPadding(w1, s, w2);
  }

  /** First match wins: rule `k` is chosen for in-scope text exactly when its
      group has a hit and no earlier group has one. */
  lemma RuleChosenIff(text: string, k: nat)
    requires k < |Rules|
    requires InScope(text)
    ensures Route(text) == Rules[k].agent <==>
      AnyIn(text, Rules[k].words) && forall j :: 0 <= j < k ==> !AnyIn(text, Rules[j].words)
  {
    RouteFollowsRules(text);
    var hit := FirstHit(text, Rules, 0);
    if hit.Some? && hit.value != k {
      assert Rules[hit.value].agent != Rules[k].agent;
    }
  }

  /** Of two groups with a hit, the later one never wins. */
  lemma EarlierGroupWins(text: string, j: nat, k: nat)
    requires j < k < |Rules|
    requires AnyIn(text, Rules[j].words)
    ensures Route(text) != Rules[k].agent
  {
    if InScope(text) {
      RuleChosenIff(text, k);
    }
  }

  /** "empathy" is both a leadership term and an Eidos keyword, so text that mentions
      it goes to Eidos whatever else it contains ("posture" included). */
  lemma EmpathyGoesToEidos(text: string)
    requires Contains(text, "empathy")
    ensures Route(text) == Eidos
  {
    assert Contains(text, LeadershipTerms[3]);
    assert Contains(text, EidosWords[1]);
  }

  /** "authority" is a leadership term and a Gravis keyword, so its entry in the
      Praxis group is dead: such text goes to Eidos, Kinesis or Gravis, never Praxis. */
  lemma AuthorityNeverPraxis(text: string)
    requires Contains(text, "authority")
    ensures Route(text) in {Eidos, Kinesis, Gravis}
  {
    assert Contains(text, LeadershipTerms[9]);
    assert Contains(text, GravisWords[2]);
  }

  /** Praxis is reached only through "leadership", "team" or "meeting", and only
      by text without "authority". */
  lemma PraxisOnlyThrough(text: string)
    requires Route(text) == Praxis
    ensures AnyIn(text, ["leadership", "team", "meeting"])
    ensures !Contains(text, "authority")
  {
    assert !Contains(text, GravisWords[2]);
    var k :| 0 <= k < |PraxisWords| && Contains(text, PraxisWords[k]);
    assert k != 3;
    assert ["leadership", "team", "meeting"][k] == PraxisWords[k];
  }

  /** The Senate is chosen exactly for in-scope text that no group matches and that
      mentions "senate" or "consult". */
  lemma SenateIff(text: string)
    ensures Route(text) == Senate <==>
      && InScope(text)
      && (forall k :: 0 <= k < |Rules| ==> !AnyIn(text, Rules[k].words))
      && (Contains(text, "senate") || Contains(text, "consult"))
  {
    RouteFollowsRules(text);
  }

  /** The default persona is chosen exactly when none of the tests fires. */
  lemma DefaultIff(text: string)
    ensures Route(text) == Default <==>
      && InScope(text)
      && (forall k :: 0 <= k < |Rules| ==> !AnyIn(text, Rules[k].words))
      && !Contains(text, "senate") && !Contains(text, "consult")
  {
    RouteFollowsRules(text);
  }
}
