/** Concrete routings of `detect_agent`: off-topic and greeting texts, one witness
    text for every outcome, the two Eidos keywords that are not leadership terms,
    and capitalised and padded input. Most texts are already lower-case and
    stripped, so `Route` sees them unchanged. */
module RouterExamples {
  import opened Text
  import opened Router

  const WeatherQuestion: string := "what's the weather"
  const Hello: string := "hello"
  const EmotionsQuestion: string := "how do i manage my emotions in conflict"
  const FeelingConflict: string := "feeling conflict"
  const CommunicationBody: string := "communication body"
  const CommunicationGravitas: string := "communication gravitas"
  const ConfidenceValues: string := "confidence values"
  const PersuasionPersuade: string := "persuasion persuade"
  const LeadershipOnly: string := "leadership"
  const ConfidenceInner: string := "confidence inner"
  const CommunicationGrooming: string := "communication grooming"
  const CommunicationIntroduction: string := "communication introduction"
  const CommunicationCompassion: string := "communication compassion"
  const ConsultCommunication: string := "consult communication"
  const CommunicationOnly: string := "communication"

  // Character k of each string passed to NoneOccur below is a letter of
  // keyword k of the group that the text lacks.
  lemma WeatherMissesTerms()
    ensures !AnyIn(WeatherQuestion, LeadershipTerms)
  {
    NoneOccur(WeatherQuestion, LeadershipTerms, "lmmmppcivuvmpcpimbp");
  }

  /** An off-topic question is answered by the guardian. */
  lemma WeatherGoesToGuardian()
    ensures Route(WeatherQuestion) == Guardian
  {
    WeatherMissesTerms();
  }

  lemma EmotionsHits()
    ensures Contains(EmotionsQuestion, LeadershipTerms[2]) && Contains(EmotionsQuestion, EidosWords[0])
  {
    var t := EmotionsQuestion;
    assert Contains(t, LeadershipTerms[2]) && Contains(t, EidosWords[0]) by {
      assert OccursAt(t, "emotion", 19);
    }
  }

  // Character k of each string passed to NoneOccur below is a letter of
  // keyword k of the group that the text lacks.
  lemma HelloMissesTerms()
    ensures !AnyIn(Hello, LeadershipTerms)
  {
    NoneOccur(Hello, LeadershipTerms, "atmmspcivavmpcpimbp");
  }

  /** A bare greeting has no domain term either: there is no greeting persona, and
      "hello" is answered by the guardian. */
  lemma HelloGoesToGuardian()
    ensures DetectAgent(Hello) == Guardian
  {
    HelloIsNormal();
    HelloMissesTerms();
  }

  /** A question about managing emotions goes to the emotional-intelligence coach. */
  lemma EmotionsGoToEidos()
    ensures Route(EmotionsQuestion) == Eidos
  {
    var t := EmotionsQuestion;
    EmotionsHits();
  }

  /** "feeling" and "conflict" are Eidos keywords but not leadership terms. */
  lemma RoutingWordsThatAreNotTerms()
    ensures "feeling" in EidosWords && "conflict" in EidosWords
    ensures "feeling" !in LeadershipTerms && "conflict" !in LeadershipTerms
  {
    assert EidosWords[2] == "feeling" && EidosWords[3] == "conflict";
  }

  /** So text made only of them never reaches Eidos: any text whose characters all
      occur in "feeling conflict" ("conflict feeling", "conflictfeeling", ...) is
      out of scope. */
  lemma FeelingConflictGoesToGuardian(t: string)
    requires forall i :: 0 <= i < |t| ==> t[i] in FeelingConflict
    ensures Route(t) == Guardian
  {
    // character k of the string is a letter of term k that "feeling conflict" lacks
    NoneOccur(t, LeadershipTerms, "aammspmuvavmpdprmbp");
  }


  lemma BodyHits()
    ensures Contains(CommunicationBody, LeadershipTerms[6]) && Contains(CommunicationBody, KinesisWords[0])
  {
    var t := CommunicationBody;
    assert Contains(t, LeadershipTerms[6]) && Contains(t, KinesisWords[0]) by {
      assert OccursAt(t, "communication", 0) && OccursAt(t, "body", 14);
    }
  }

  lemma BodyGoesToKinesis()
    ensures Route(CommunicationBody) == Kinesis
  {
    var t := CommunicationBody;
    BodyHits();
    // character k of "eeffs" is a letter of Eidos keyword k that the text lacks
    assert !AnyIn(t, EidosWords) by { NoneOccur(t, EidosWords, "eeffs"); }
  }

  // Character k of each string passed to NoneOccur below is a letter of
  // keyword k of the group that the text lacks.
  lemma GravitasMissesEidos()
    ensures !AnyIn(CommunicationGravitas, EidosWords)
  {
    var t := CommunicationGravitas;
    NoneOccur(t, EidosWords, "eeffe");
  }

  lemma GravitasMissesKinesis()
    ensures !AnyIn(CommunicationGravitas, KinesisWords)
  {
    var t := CommunicationGravitas;
    NoneOccur(t, KinesisWords, "bepeee");
  }

  lemma GravitasHits()
    ensures Contains(CommunicationGravitas, LeadershipTerms[6]) && Contains(CommunicationGravitas, GravisWords[0])
  {
    var t := CommunicationGravitas;
    assert Contains(t, LeadershipTerms[6]) && Contains(t, GravisWords[0]) by {
      assert OccursAt(t, "communication", 0) && OccursAt(t, "gravitas", 14);
    }
  }

  lemma GravitasGoesToGravis()
    ensures Route(CommunicationGravitas) == Gravis
  {
    var t := CommunicationGravitas;
    GravitasHits();
    GravitasMissesEidos();
    GravitasMissesKinesis();
  }

  // Character k of each string passed to NoneOccur below is a letter of
  // keyword k of the group that the text lacks.
  lemma ValuesMissesEidos()
    ensures !AnyIn(ConfidenceValues, EidosWords)
  {
    var t := ConfidenceValues;
    NoneOccur(t, EidosWords, "mmgtt");
  }

  lemma ValuesMissesKinesis()
    ensures !AnyIn(ConfidenceValues, KinesisWords)
  {
    var t := ConfidenceValues;
    NoneOccur(t, KinesisWords, "bgptyr");
  }

  lemma ValuesMissesGravis()
    ensures !AnyIn(ConfidenceValues, GravisWords)
  {
    var t := ConfidenceValues;
    NoneOccur(t, GravisWords, "gptmm");
  }

  lemma ValuesHits()
    ensures Contains(ConfidenceValues, LeadershipTerms[10]) && Contains(ConfidenceValues, VirtusWords[2])
  {
    var t := ConfidenceValues;
    assert Contains(t, LeadershipTerms[10]) && Contains(t, VirtusWords[2]) by {
      assert OccursAt(t, "values", 11);
    }
  }

  lemma ValuesGoToVirtus()
    ensures Route(ConfidenceValues) == Virtus
  {
    var t := ConfidenceValues;
    ValuesHits();
    ValuesMissesEidos();
    ValuesMissesKinesis();
    ValuesMissesGravis();
  }

  // Character k of each string passed to NoneOccur below is a letter of
  // keyword k of the group that the text lacks.
  lemma PersuadeMissesEidos()
    ensures !AnyIn(PersuasionPersuade, EidosWords)
  {
    var t := PersuasionPersuade;
    NoneOccur(t, EidosWords, "mmfct");
  }

  lemma PersuadeMissesKinesis()
    ensures !AnyIn(PersuasionPersuade, KinesisWords)
  {
    var t := PersuasionPersuade;
    NoneOccur(t, KinesisWords, "bgttyv");
  }

  lemma PersuadeMissesGravis()
    ensures !AnyIn(PersuasionPersuade, GravisWords)
  {
    var t := PersuasionPersuade;
    NoneOccur(t, GravisWords, "gctcc");
  }

  lemma PersuadeMissesVirtus()
    ensures !AnyIn(PersuasionPersuade, VirtusWords)
  {
    var t := PersuasionPersuade;
    NoneOccur(t, VirtusWords, "vtvtth");
  }

  lemma PersuadeHits()
    ensures Contains(PersuasionPersuade, LeadershipTerms[14]) && Contains(PersuasionPersuade, EthosWords[0])
  {
    var t := PersuasionPersuade;
    assert Contains(t, LeadershipTerms[14]) by {
      assert OccursAt(t, "persuasion", 0);
    }
    assert Contains(t, EthosWords[0]) by {
      assert t[11..19] == "persuade";
      assert OccursAt(t, "persuade", 11);
    }
  }

  lemma PersuadeGoesToEthos()
    ensures Route(PersuasionPersuade) == Ethos
  {
    var t := PersuasionPersuade;
    PersuadeHits();
    PersuadeMissesEidos();
    PersuadeMissesKinesis();
    PersuadeMissesGravis();
    PersuadeMissesVirtus();
  }

  // Character k of each string passed to NoneOccur below is a letter of
  // keyword k of the group that the text lacks.
  lemma LeadershipMissesEidos()
    ensures !AnyIn(LeadershipOnly, EidosWords)
  {
    var t := LeadershipOnly;
    NoneOccur(t, EidosWords, "mmfcn");
  }

  lemma LeadershipMissesKinesis()
    ensures !AnyIn(LeadershipOnly, KinesisWords)
  {
    var t := LeadershipOnly;
    NoneOccur(t, KinesisWords, "bgotyn");
  }

  lemma LeadershipMissesGravis()
    ensures !AnyIn(LeadershipOnly, GravisWords)
  {
    var t := LeadershipOnly;
    NoneOccur(t, GravisWords, "gnucc");
  }

  lemma LeadershipMissesVirtus()
    ensures !AnyIn(LeadershipOnly, VirtusWords)
  {
    var t := LeadershipOnly;
    NoneOccur(t, VirtusWords, "vnvuto");
  }

  lemma LeadershipMissesEthos()
    ensures !AnyIn(LeadershipOnly, EthosWords)
  {
    var t := LeadershipOnly;
    NoneOccur(t, EthosWords, "untcto");
  }

  lemma LeadershipHits()
    ensures Contains(LeadershipOnly, LeadershipTerms[0]) && Contains(LeadershipOnly, PraxisWords[0])
  {
    var t := LeadershipOnly;
    assert Contains(t, LeadershipTerms[0]) && Contains(t, PraxisWords[0]) by {
      assert OccursAt(t, "leadership", 0);
    }
  }

  lemma LeadershipGoesToPraxis()
    ensures Route(LeadershipOnly) == Praxis
  {
    var t := LeadershipOnly;
    LeadershipHits();
    LeadershipMissesEidos();
    LeadershipMissesKinesis();
    LeadershipMissesGravis();
    LeadershipMissesVirtus();
    LeadershipMissesEthos();
  }

  // Character k of each string passed to NoneOccur below is a letter of
  // keyword k of the group that the text lacks.
  lemma InnerMissesEidos()
    ensures !AnyIn(ConfidenceInner, EidosWords)
  {
    var t := ConfidenceInner;
    NoneOccur(t, EidosWords, "mmlls");
  }

  lemma InnerMissesKinesis()
    ensures !AnyIn(ConfidenceInner, KinesisWords)
  {
    var t := ConfidenceInner;
    NoneOccur(t, KinesisWords, "bgptyv");
  }

  lemma InnerMissesGravis()
    ensures !AnyIn(ConfidenceInner, GravisWords)
  {
    var t := ConfidenceInner;
    NoneOccur(t, GravisWords, "gpama");
  }

  lemma InnerMissesVirtus()
    ensures !AnyIn(ConfidenceInner, VirtusWords)
  {
    var t := ConfidenceInner;
    NoneOccur(t, VirtusWords, "vtvuth");
  }

  lemma InnerMissesEthos()
    ensures !AnyIn(ConfidenceInner, EthosWords)
  {
    var t := ConfidenceInner;
    NoneOccur(t, EthosWords, "plsspp");
  }

  lemma InnerMissesPraxis()
    ensures !AnyIn(ConfidenceInner, PraxisWords)
  {
    var t := ConfidenceInner;
    NoneOccur(t, PraxisWords, "ltma");
  }

  lemma InnerHits()
    ensures Contains(ConfidenceInner, LeadershipTerms[13]) && Contains(ConfidenceInner, AnimaWords[0])
  {
    var t := ConfidenceInner;
    assert Contains(t, LeadershipTerms[13]) && Contains(t, AnimaWords[0]) by {
      assert OccursAt(t, "confidence", 0) && OccursAt(t, "inner", 11);
    }
  }

  lemma InnerGoesToAnima()
    ensures Route(ConfidenceInner) == Anima
  {
    var t := ConfidenceInner;
    InnerHits();
    InnerMissesEidos();
    InnerMissesKinesis();
    InnerMissesGravis();
    InnerMissesVirtus();
    InnerMissesEthos();
    InnerMissesPraxis();
  }

  // Character k of each string passed to NoneOccur below is a letter of
  // keyword k of the group that the text lacks.
  lemma GroomingMissesEidos()
    ensures !AnyIn(CommunicationGrooming, EidosWords)
  {
    var t := CommunicationGrooming;
    NoneOccur(t, EidosWords, "eeffs");
  }

  lemma GroomingMissesKinesis()
    ensures !AnyIn(CommunicationGrooming, KinesisWords)
  {
    var t := CommunicationGrooming;
    NoneOccur(t, KinesisWords, "bepeev");
  }

  lemma GroomingMissesGravis()
    ensures !AnyIn(CommunicationGrooming, GravisWords)
  {
    var t := CommunicationGrooming;
    NoneOccur(t, GravisWords, "vphpl");
  }

  lemma GroomingMissesVirtus()
    ensures !AnyIn(CommunicationGrooming, VirtusWords)
  {
    var t := CommunicationGrooming;
    NoneOccur(t, VirtusWords, "vevdeh");
  }

  lemma GroomingMissesEthos()
    ensures !AnyIn(CommunicationGrooming, EthosWords)
  {
    var t := CommunicationGrooming;
    NoneOccur(t, EthosWords, "pfsspp");
  }

  lemma GroomingMissesPraxis()
    ensures !AnyIn(CommunicationGrooming, PraxisWords)
  {
    var t := CommunicationGrooming;
    NoneOccur(t, PraxisWords, "leeh");
  }

  lemma GroomingMissesAnima()
    ensures !AnyIn(CommunicationGrooming, AnimaWords)
  {
    var t := CommunicationGrooming;
    NoneOccur(t, AnimaWords, "edlpx");
  }

  lemma GroomingHits()
    ensures Contains(CommunicationGrooming, LeadershipTerms[6]) && Contains(CommunicationGrooming, PersonaWords[3])
  {
    var t := CommunicationGrooming;
    assert Contains(t, LeadershipTerms[6]) && Contains(t, PersonaWords[3]) by {
      assert OccursAt(t, "communication", 0) && OccursAt(t, "grooming", 14);
    }
  }

  lemma GroomingGoesToPersona()
    ensures Route(CommunicationGrooming) == Persona
  {
    var t := CommunicationGrooming;
    GroomingHits();
    GroomingMissesEidos();
    GroomingMissesKinesis();
    GroomingMissesGravis();
    GroomingMissesVirtus();
    GroomingMissesEthos();
    GroomingMissesPraxis();
    GroomingMissesAnima();
  }

  // Character k of each string passed to NoneOccur below is a letter of
  // keyword k of the group that the text lacks.
  lemma IntroductionMissesEidos()
    ensures !AnyIn(CommunicationIntroduction, EidosWords)
  {
    var t := CommunicationIntroduction;
    NoneOccur(t, EidosWords, "eeffs");
  }

  lemma IntroductionMissesKinesis()
    ensures !AnyIn(CommunicationIntroduction, KinesisWords)
  {
    var t := CommunicationIntroduction;
    NoneOccur(t, KinesisWords, "bgpeev");
  }

  lemma IntroductionMissesGravis()
    ensures !AnyIn(CommunicationIntroduction, GravisWords)
  {
    var t := CommunicationIntroduction;
    NoneOccur(t, GravisWords, "gphpl");
  }

  lemma IntroductionMissesVirtus()
    ensures !AnyIn(CommunicationIntroduction, VirtusWords)
  {
    var t := CommunicationIntroduction;
    NoneOccur(t, VirtusWords, "vevyeh");
  }

  lemma IntroductionMissesEthos()
    ensures !AnyIn(CommunicationIntroduction, EthosWords)
  {
    var t := CommunicationIntroduction;
    NoneOccur(t, EthosWords, "pfsspp");
  }

  lemma IntroductionMissesPraxis()
    ensures !AnyIn(CommunicationIntroduction, PraxisWords)
  {
    var t := CommunicationIntroduction;
    NoneOccur(t, PraxisWords, "leeh");
  }

  lemma IntroductionMissesAnima()
    ensures !AnyIn(CommunicationIntroduction, AnimaWords)
  {
    var t := CommunicationIntroduction;
    NoneOccur(t, AnimaWords, "eflpx");
  }

  lemma IntroductionMissesPersona()
    ensures !AnyIn(CommunicationIntroduction, PersonaWords)
  {
    var t := CommunicationIntroduction;
    NoneOccur(t, PersonaWords, "pesgeb");
  }

  lemma IntroductionHits()
    ensures Contains(CommunicationIntroduction, LeadershipTerms[6]) && Contains(CommunicationIntroduction, ImpressaWords[2])
  {
    var t := CommunicationIntroduction;
    assert Contains(t, LeadershipTerms[6]) && Contains(t, ImpressaWords[2]) by {
      assert OccursAt(t, "communication", 0) && OccursAt(t, "introduction", 14);
    }
  }

  lemma IntroductionGoesToImpressa()
    ensures Route(CommunicationIntroduction) == Impressa
  {
    var t := CommunicationIntroduction;
    IntroductionHits();
    IntroductionMissesEidos();
    IntroductionMissesKinesis();
    IntroductionMissesGravis();
    IntroductionMissesVirtus();
    IntroductionMissesEthos();
    IntroductionMissesPraxis();
    IntroductionMissesAnima();
    IntroductionMissesPersona();
  }

  // Character k of each string passed to NoneOccur below is a letter of
  // keyword k of the group that the text lacks.
  lemma CompassionMissesEidos()
    ensures !AnyIn(CommunicationCompassion, EidosWords)
  {
    var t := CommunicationCompassion;
    NoneOccur(t, EidosWords, "eeffe");
  }

  lemma CompassionMissesKinesis()
    ensures !AnyIn(CommunicationCompassion, KinesisWords)
  {
    var t := CommunicationCompassion;
    NoneOccur(t, KinesisWords, "bgreev");
  }

  lemma CompassionMissesGravis()
    ensures !AnyIn(CommunicationCompassion, GravisWords)
  {
    var t := CommunicationCompassion;
    NoneOccur(t, GravisWords, "grhrl");
  }

  lemma CompassionMissesVirtus()
    ensures !AnyIn(CommunicationCompassion, VirtusWords)
  {
    var t := CommunicationCompassion;
    NoneOccur(t, VirtusWords, "vevdeh");
  }

  lemma CompassionMissesEthos()
    ensures !AnyIn(CommunicationCompassion, EthosWords)
  {
    var t := CommunicationCompassion;
    NoneOccur(t, EthosWords, "efrehr");
  }

  lemma CompassionMissesPraxis()
    ensures !AnyIn(CommunicationCompassion, PraxisWords)
  {
    var t := CommunicationCompassion;
    NoneOccur(t, PraxisWords, "leeh");
  }

  lemma CompassionMissesAnima()
    ensures !AnyIn(CommunicationCompassion, AnimaWords)
  {
    var t := CommunicationCompassion;
    NoneOccur(t, AnimaWords, "edlrx");
  }

  lemma CompassionMissesPersona()
    ensures !AnyIn(CommunicationCompassion, PersonaWords)
  {
    var t := CommunicationCompassion;
    NoneOccur(t, PersonaWords, "erygeb");
  }

  lemma CompassionMissesImpressa()
    ensures !AnyIn(CommunicationCompassion, ImpressaWords)
  {
    var t := CommunicationCompassion;
    NoneOccur(t, ImpressaWords, "frrer");
  }

  lemma CompassionHits()
    ensures Contains(CommunicationCompassion, LeadershipTerms[6]) && Contains(CommunicationCompassion, SentioWords[3])
  {
    var t := CommunicationCompassion;
    assert Contains(t, LeadershipTerms[6]) && Contains(t, SentioWords[3]) by {
      assert OccursAt(t, "communication", 0) && OccursAt(t, "compassion", 14);
    }
  }

  lemma CompassionGoesToSentio()
    ensures Route(CommunicationCompassion) == Sentio
  {
    var t := CommunicationCompassion;
    CompassionHits();
    CompassionMissesEidos();
    CompassionMissesKinesis();
    CompassionMissesGravis();
    CompassionMissesVirtus();
    CompassionMissesEthos();
    CompassionMissesPraxis();
    CompassionMissesAnima();
    CompassionMissesPersona();
    CompassionMissesImpressa();
  }

  // Character k of each string passed to NoneOccur below is a letter of
  // keyword k of the group that the text lacks.
  lemma ConsultMissesEidos()
    ensures !AnyIn(ConsultCommunication, EidosWords)
  {
    var t := ConsultCommunication;
    NoneOccur(t, EidosWords, "eeffe");
  }

  lemma ConsultMissesKinesis()
    ensures !AnyIn(ConsultCommunication, KinesisWords)
  {
    var t := ConsultCommunication;
    NoneOccur(t, KinesisWords, "bgpeev");
  }

  /** "calm" has no space, so in "consult communication" it would have to sit inside
      one of the two words, and each of them lacks one of its letters. */
  lemma ConsultLacksCalm()
    ensures !Contains(ConsultCommunication, "calm")
  {
    assert ConsultCommunication == "consult" + [' '] + "communication";
    AbsentChar("consult", "calm", 'a');
    AbsentChar("communication", "calm", 'l');
    if Contains(ConsultCommunication, "calm") {
      SplitAtSeparator("consult", ' ', "communication", "calm");
    }
  }

  lemma ConsultMissesGravis()
    ensures !AnyIn(ConsultCommunication, GravisWords)
  {
    var t := ConsultCommunication;
    NoneOccur(t, GravisWords[..4], "gphp");
    ConsultLacksCalm();
    forall k | 0 <= k < |GravisWords| ensures !Contains(t, GravisWords[k]) {
      if k < 4 {
        assert GravisWords[k] == GravisWords[..4][k];
      }
    }
  }

  lemma ConsultMissesVirtus()
    ensures !AnyIn(ConsultCommunication, VirtusWords)
  {
    var t := ConsultCommunication;
    NoneOccur(t, VirtusWords, "vevdeh");
  }

  lemma ConsultMissesEthos()
    ensures !AnyIn(ConsultCommunication, EthosWords)
  {
    var t := ConsultCommunication;
    NoneOccur(t, EthosWords, "pfrppp");
  }

  lemma ConsultMissesPraxis()
    ensures !AnyIn(ConsultCommunication, PraxisWords)
  {
    var t := ConsultCommunication;
    NoneOccur(t, PraxisWords, "eeeh");
  }

  lemma ConsultMissesAnima()
    ensures !AnyIn(ConsultCommunication, AnimaWords)
  {
    var t := ConsultCommunication;
    NoneOccur(t, AnimaWords, "edgpx");
  }

  lemma ConsultMissesPersona()
    ensures !AnyIn(ConsultCommunication, PersonaWords)
  {
    var t := ConsultCommunication;
    NoneOccur(t, PersonaWords, "prygeb");
  }

  lemma ConsultMissesImpressa()
    ensures !AnyIn(ConsultCommunication, ImpressaWords)
  {
    var t := ConsultCommunication;
    NoneOccur(t, ImpressaWords, "frrer");
  }

  lemma ConsultMissesSentio()
    ensures !AnyIn(ConsultCommunication, SentioWords)
  {
    var t := ConsultCommunication;
    NoneOccur(t, SentioWords, "eedpr");
  }

  lemma ConsultHitsCommunication()
    ensures Contains(ConsultCommunication, LeadershipTerms[6])
  {
    assert OccursAt(ConsultCommunication, "communication", 8);
  }

  lemma ConsultHits()
    ensures Contains(ConsultCommunication, LeadershipTerms[6]) && Contains(ConsultCommunication, "consult")
  {
    ConsultHitsCommunication();
    assert OccursAt(ConsultCommunication, "consult", 0);
  }

  /** In-scope text that no group matches goes to the Senate when it asks to consult. */
  lemma ConsultGoesToSenate()
    ensures Route(ConsultCommunication) == Senate
  {
    var t := ConsultCommunication;
    ConsultHits();
    ConsultMissesEidos();
    ConsultMissesKinesis();
    ConsultMissesGravis();
    ConsultMissesVirtus();
    ConsultMissesEthos();
    ConsultMissesPraxis();
    ConsultMissesAnima();
    ConsultMissesPersona();
    ConsultMissesImpressa();
    ConsultMissesSentio();
  }

  // Character k of each string passed to NoneOccur below is a letter of
  // keyword k of the group that the text lacks.
  lemma CommunicationMissesEidos()
    ensures !AnyIn(CommunicationOnly, EidosWords)
  {
    var t := CommunicationOnly;
    NoneOccur(t, EidosWords, "eeffs");
  }

  lemma CommunicationMissesKinesis()
    ensures !AnyIn(CommunicationOnly, KinesisWords)
  {
    var t := CommunicationOnly;
    NoneOccur(t, KinesisWords, "bgpeev");
  }

  lemma CommunicationMissesGravis()
    ensures !AnyIn(CommunicationOnly, GravisWords)
  {
    var t := CommunicationOnly;
    NoneOccur(t, GravisWords, "gphpl");
  }

  lemma CommunicationMissesVirtus()
    ensures !AnyIn(CommunicationOnly, VirtusWords)
  {
    var t := CommunicationOnly;
    NoneOccur(t, VirtusWords, "vevdeh");
  }

  lemma CommunicationMissesEthos()
    ensures !AnyIn(CommunicationOnly, EthosWords)
  {
    var t := CommunicationOnly;
    NoneOccur(t, EthosWords, "pfsspp");
  }

  lemma CommunicationMissesPraxis()
    ensures !AnyIn(CommunicationOnly, PraxisWords)
  {
    var t := CommunicationOnly;
    NoneOccur(t, PraxisWords, "leeh");
  }

  lemma CommunicationMissesAnima()
    ensures !AnyIn(CommunicationOnly, AnimaWords)
  {
    var t := CommunicationOnly;
    NoneOccur(t, AnimaWords, "edlpx");
  }

  lemma CommunicationMissesPersona()
    ensures !AnyIn(CommunicationOnly, PersonaWords)
  {
    var t := CommunicationOnly;
    NoneOccur(t, PersonaWords, "prsgeb");
  }

  lemma CommunicationMissesImpressa()
    ensures !AnyIn(CommunicationOnly, ImpressaWords)
  {
    var t := CommunicationOnly;
    NoneOccur(t, ImpressaWords, "frrer");
  }

  lemma CommunicationMissesSentio()
    ensures !AnyIn(CommunicationOnly, SentioWords)
  {
    var t := CommunicationOnly;
    NoneOccur(t, SentioWords, "eldpr");
  }

  lemma CommunicationHits()
    ensures Contains(CommunicationOnly, LeadershipTerms[6])
  {
    var t := CommunicationOnly;
    assert Contains(t, LeadershipTerms[6]) by {
      assert OccursAt(t, "communication", 0);
    }
  }

  /** In-scope text that nothing else matches gets the inline default persona. */
  lemma CommunicationGoesToDefault()
    ensures Route(CommunicationOnly) == Default
  {
    var t := CommunicationOnly;
    CommunicationHits();
    CommunicationMissesEidos();
    CommunicationMissesKinesis();
    CommunicationMissesGravis();
    CommunicationMissesVirtus();
    CommunicationMissesEthos();
    CommunicationMissesPraxis();
    CommunicationMissesAnima();
    CommunicationMissesPersona();
    CommunicationMissesImpressa();
    CommunicationMissesSentio();
    AbsentChar(t, "senate", 's');
    AbsentChar(t, "consult", 's');
  }

  // The witness texts are already lower-case and stripped, so `detect_agent` sees
  // them unchanged.

  lemma HelloIsNormal()
    ensures Normalize(Hello) == Hello
  {
    NormalOfNormal(Hello);
  }

  lemma EmotionsQuestionIsNormal()
    ensures Normalize(EmotionsQuestion) == EmotionsQuestion
  {
    NormalOfNormal(EmotionsQuestion);
  }

  lemma CommunicationBodyIsNormal()
    ensures Normalize(CommunicationBody) == CommunicationBody
  {
    NormalOfNormal(CommunicationBody);
  }

  lemma CommunicationGravitasIsNormal()
    ensures Normalize(CommunicationGravitas) == CommunicationGravitas
  {
    NormalOfNormal(CommunicationGravitas);
  }

  lemma ConfidenceValuesIsNormal()
    ensures Normalize(ConfidenceValues) == ConfidenceValues
  {
    NormalOfNormal(ConfidenceValues);
  }

  lemma PersuasionPersuadeIsNormal()
    ensures Normalize(PersuasionPersuade) == PersuasionPersuade
  {
    NormalOfNormal(PersuasionPersuade);
  }

  lemma LeadershipOnlyIsNormal()
    ensures Normalize(LeadershipOnly) == LeadershipOnly
  {
    NormalOfNormal(LeadershipOnly);
  }

  lemma ConfidenceInnerIsNormal()
    ensures Normalize(ConfidenceInner) == ConfidenceInner
  {
    NormalOfNormal(ConfidenceInner);
  }

  lemma CommunicationGroomingIsNormal()
    ensures Normalize(CommunicationGrooming) == CommunicationGrooming
  {
    NormalOfNormal(CommunicationGrooming);
  }

  lemma CommunicationIntroductionIsNormal()
    ensures Normalize(CommunicationIntroduction) == CommunicationIntroduction
  {
    NormalOfNormal(CommunicationIntroduction);
  }

  lemma CommunicationCompassionIsNormal()
    ensures Normalize(CommunicationCompassion) == CommunicationCompassion
  {
    NormalOfNormal(CommunicationCompassion);
  }

  lemma WeatherQuestionIsNormal()
    ensures Normalize(WeatherQuestion) == WeatherQuestion
  {
    NormalOfNormal(WeatherQuestion);
  }

  lemma ConsultCommunicationIsNormal()
    ensures Normalize(ConsultCommunication) == ConsultCommunication
  {
    NormalOfNormal(ConsultCommunication);
  }

  lemma CommunicationOnlyIsNormal()
    ensures Normalize(CommunicationOnly) == CommunicationOnly
  {
    NormalOfNormal(CommunicationOnly);
  }

  /** `detect_agent` itself sends the emotions question to Eidos. */
  lemma EmotionsQuestionDetected()
    ensures DetectAgent(EmotionsQuestion) == Eidos
  {
    EmotionsQuestionIsNormal();
    EmotionsGoToEidos();
  }

  /** The emotions question as a user would type it, with capitals. */
  const CapitalisedQuestion: string := "How do I manage my emotions in conflict"

  lemma CapitalisedQuestionLowers()
    ensures Lower(CapitalisedQuestion) == EmotionsQuestion
  {
  }

  /** Capitals are lower-cased before routing, so the question still goes to Eidos. */
  lemma CapitalisedQuestionDetected()
    ensures DetectAgent(CapitalisedQuestion) == Eidos
  {
    CapitalisedQuestionLowers();
    DetectAgentIgnoresCase(CapitalisedQuestion);
    EmotionsQuestionDetected();
  }

  /** Leading spaces and a trailing newline are stripped before routing as well. */
  lemma PaddedQuestionDetected()
    ensures DetectAgent("  " + CapitalisedQuestion + "\n") == Eidos
  {
    assert AllSpace("  ") && AllSpace("\n");
    DetectAgentIgnoresPadding("  ", CapitalisedQuestion, "\n");
    CapitalisedQuestionDetected();
  }

  /** A text that `detect_agent` sends to the given outcome. */
  function Witness(a: Agent): string {
    match a
    case Eidos => EmotionsQuestion
    case Kinesis => CommunicationBody
    case Gravis => CommunicationGravitas
    case Virtus => ConfidenceValues
    case Ethos => PersuasionPersuade
    case Praxis => LeadershipOnly
    case Anima => ConfidenceInner
    case Persona => CommunicationGrooming
    case Impressa => CommunicationIntroduction
    case Sentio => CommunicationCompassion
    case Guardian => WeatherQuestion
    case Senate => ConsultCommunication
    case Default => CommunicationOnly
  }

  /** Every one of the thirteen outcomes is reachable: no branch of the router is dead. */
  lemma EveryOutcomeReachable()
    ensures forall a: Agent :: DetectAgent(Witness(a)) == a
  {
    forall a: Agent ensures DetectAgent(Witness(a)) == a {
      match a
      case Eidos => EmotionsQuestionIsNormal(); EmotionsGoToEidos();
      case Kinesis => CommunicationBodyIsNormal(); BodyGoesToKinesis();
      case Gravis => CommunicationGravitasIsNormal(); GravitasGoesToGravis();
      case Virtus => ConfidenceValuesIsNormal(); ValuesGoToVirtus();
      case Ethos => PersuasionPersuadeIsNormal(); PersuadeGoesToEthos();
      case Praxis => LeadershipOnlyIsNormal(); LeadershipGoesToPraxis();
      case Anima => ConfidenceInnerIsNormal(); InnerGoesToAnima();
      case Persona => CommunicationGroomingIsNormal(); GroomingGoesToPersona();
      case Impressa => CommunicationIntroductionIsNormal(); IntroductionGoesToImpressa();
      case Sentio => CommunicationCompassionIsNormal(); CompassionGoesToSentio();
      case Guardian => WeatherQuestionIsNormal(); WeatherGoesToGuardian();
      case Senate => ConsultCommunicationIsNormal(); ConsultGoesToSenate();
      case Default => CommunicationOnlyIsNormal(); CommunicationGoesToDefault();
    }
  }
}
