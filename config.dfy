/**
 * The constant tables every preprocessor reads: the question dictionary, the
 * answer-to-weight table of the Likert scales, and the question codes the
 * ward-level weighting skips.
 */
module Config {
  import opened PyDict

  /** Number of entries in the question dictionary literal. */
  const QuestionCount: nat := 69

  /** The key of entry `i` of the question dictionary literal, in the order written. */
  function QuestionCode(i: nat): string
    requires i < QuestionCount
  {
    match i
    case 0 => "Q13"
    case 1 => "Q15"
    case 2 => "Q60"
    case 3 => "Q61"
    case 4 => "Q62A"
    case 5 => "Q62C"
    case 6 => "Q62F"
    case 7 => "Q62TG"
    case 8 => "A121"
    case 9 => "NQ135BD"
    case 10 => "NQ135BE"
    case 11 => "NQ135BF"
    case 12 => "NQ135BG"
    case 13 => "NQ62D"
    case 14 => "NQ135BH"
    case 15 => "XQ122B"
    case 16 => "Q131"
    case 17 => "Q133"
    case 18 => "NPQ135A"
    case 19 => "NNQ135A"
    case 20 => "XNQ135B"
    case 21 => "ReNQ147"
    case 22 => "XQ3A"
    case 23 => "XQ8"
    case 24 => "NQ21"
    case 25 => "Q21"
    case 26 => "Q54A"
    case 27 => "Q54B"
    case 28 => "Q54C"
    case 29 => "Q54D"
    case 30 => "Q54E"
    case 31 => "NQ57AA"
    case 32 => "NQ57AB"
    case 33 => "NQ57AC"
    case 34 => "NQ57AD"
    case 35 => "NQ57AE"
    case 36 => "NQ44A"
    case 37 => "NQ48A"
    case 38 => "NQ49B"
    case 39 => "Q58"
    case 40 => "Q59"
    case 41 => "Q62D"
    case 42 => "Q62E"
    case 43 => "Q62H"
    case 44 => "Q62TJ"
    case 45 => "NQ62A"
    case 46 => "XQ81"
    case 47 => "Q79A"
    case 48 => "Q79B"
    case 49 => "Q79C"
    case 50 => "Q79D"
    case 51 => "NQ79D"
    case 52 => "Q79E"
    case 53 => "Q79F"
    case 54 => "Q79G"
    case 55 => "Q79H"
    case 56 => "Q79I"
    case 57 => "Q79J"
    case 58 => "NQ79BC"
    case 59 => "NQ79BD"
    case 60 => "SQ79B"
    case 61 => "SQ79C"
    case 62 => "XQ106B"
    case 63 => "XQ122"
    case 64 => "PQ135AA"
    case 65 => "PQ135AZ"
    case 66 => "PQ135AAA"
    case 67 => "PQ135AAY"
    case _ => "Q39A_2"
  }

  /** The value of entry `i` of the question dictionary literal: the full wording and the short description. */
  function QuestionWording(i: nat): (string, string)
    requires i < QuestionCount
  {
    match i
    case 0 => ("To what extent are you worried about\U{2026} Crime in this area? If necessary: By your area I mean 15 minutes walk from your home.",
      "worries about crime near citizens")
    case 1 => ("To what extent are you worried about Anti-social behaviour?",
      "worries about anti-social behaviour")
    case 2 => ("Taking everything into account, how good a job do you think the police IN YOUR AREA are doing?",
      "police works good in your area")
    case 3 => ("Taking everything into account, how good a job do you think the police IN LONDON AS A WHOLE are doing?",
      "police works good in London")
    case 4 => ("To what extent do you agree with these statements about the police in your area? By \"your area\" I mean within 15 minutes' walk from your home. They can be relied on to be there when you need them.",
      "police reliability in your area")
    case 5 => ("To what extent do you agree with these statements about the police in your area? By \"your area\" I mean within 15 minutes' walk from your home. The police in your area treat everyone fairly regardless of who they are.",
      "police fairness in your area")
    case 6 => ("To what extent do you agree with these statements about the police in your area? By \"your area\" I mean within 15 minutes' walk from your home. They are dealing with the things that matter to people in this community.",
      "police addressing community issues")
    case 7 => ("To what extent do you agree with these statements about the police in your area? By \"your area\" I mean within 15 minutes' walk from your home. The police in your area listen to the concerns of local people.",
      "police listen to local concerns")
    case 8 => ("How confident are you that the Police in your area use their stop and search powers fairly?",
      "confidence in fair use of stop and search")
    case 9 => ("To what extent do you agree or disagree with the following statements: The Metropolitan Police Service is an organisation that I can trust.",
      "trust in the Metropolitan Police Service")
    case 10 => ("To what extent do you agree or disagree with the following statements: It is important that the Metropolitan Police Service\U{2019}s workforce reflects the population profile of the communities it serves.",
      "importance of workforce diversity in police")
    case 11 => ("The police in your local area currently reflect the population profile of the local community?",
      "police reflect local community profile")
    case 12 => ("Senior ranking officers in the Metropolitan Police Service reflect the population profile of London.",
      "senior officers reflect London's profile")
    case 13 => ("The police have the same sense of right and wrong as I do.",
      "shared values with police")
    case 14 => ("To what extent do you agree or disagree that the police in your local area are sufficiently held accountable for their actions?",
      "police accountability in your area")
    case 15 => ("How confident are you that the Metropolitan Police Service deal fairly with complaints made about them?",
      "confidence in fair handling of complaints")
    case 16 => ("How well informed do you feel about what the police in YOUR AREA have been doing over the last 12 months?",
      "knowledge of local police activities")
    case 17 => ("How well informed do you feel about what the police in LONDON AS A WHOLE have been doing over the last 12 months?",
      "knowledge of police activities in London")
    case 18 => ("What would you say are the top three things that the police should be dealing with IN YOUR AREA?",
      "top police priorities in your area")
    case 19 => ("What would you say are the top three things that the police should be dealing with across LONDON?",
      "top police priorities in London")
    case 20 => ("Across London, there are groups of community volunteers who work together with the police to make sure they follow best practice. Their roles include visiting custody suites to check on the treatment of detainees and reviewing how the police use their Stop and Search powers. To what extent do you agree or disagree that using volunteers in this way makes you feel reassured that the police are held to account?",
      "volunteer involvement reassures police accountability")
    case 21 => ("Are you Asian, Black, of a mixed background, White, or of another ethnic group? And is that...?",
      "self-identified ethnicity")
    case 22 => ("Call the police to report a crime occurring in your local area (the values are added as a note).",
      "reporting local crime")
    case 23 => ("Overall, how confident, if at all, are you that\U{2026}? \U{2026}The criminal justice system is effective in bringing people who commit crimes to justice.",
      "confidence in criminal justice system")
    case 24 => ("If you are walking alone in this area and you see a police officer on foot, bicycle or horseback, does it make you feel more safe, less safe or does it make no difference?",
      "feeling of safety seeing a police officer")
    case 25 => ("How safe do you feel walking alone in this area after dark?",
      "safety walking alone after dark")
    case 26 => ("On the LAST OCCASION, how safe did you feel on a bus?",
      "safety on bus")
    case 27 => ("On the LAST OCCASION, how safe did you feel on the tube/underground?",
      "safety on tube/underground")
    case 28 => ("On the LAST OCCASION, how safe did you feel on a train/tram?",
      "safety on train/tram")
    case 29 => ("On the LAST OCCASION, how safe did you feel in a black cab?",
      "safety in black cab")
    case 30 => ("On the LAST OCCASION, how safe did you feel in a taxi?",
      "safety in taxi")
    case 31 => ("How satisfied are you with the policing of the following London transport networks? Bus network",
      "satisfaction with bus network policing")
    case 32 => ("How satisfied are you with the policing of the following London transport networks? Tube/London Underground Network.",
      "satisfaction with tube network policing")
    case 33 => ("How satisfied are you with the policing of the following London transport networks? Train Network.",
      "satisfaction with train network policing")
    case 34 => ("How satisfied are you with the policing of the following London transport networks? Docklands Light Railway.",
      "satisfaction with Docklands Light Railway policing")
    case 35 => ("How satisfied are you with the policing of the following London transport networks? Tram Network.",
      "satisfaction with tram network policing")
    case 36 => ("To what extent do you think hate crime is a problem in this area? By hate crime we mean people who are subject to attack/abuse because of their skin colour, ethnic origin, religion, disability or sexual orientation.",
      "hate crime problem in area")
    case 37 => ("To what extent do you think that online harassment and cyber-bullying are a problem?",
      "online harassment and cyber-bullying problem")
    case 38 => ("To what extent do you feel sexual assault or sexual violence is a problem in this area?",
      "sexual assault/violence problem in area")
    case 39 => ("To what extent are you worried about a TERRORIST ATTACK in London?",
      "worries about terrorist attack in London")
    case 40 => ("And to what extent are you worried about a TERRORIST ATTACK particularly in this area?",
      "worries about terrorist attack in area")
    case 41 => ("To what extent do you agree with these statements about the police in this area? By \"this area\" I mean within 15 minutes' walk from here. They can be relied on to deal with minor crimes.",
      "police deal with minor crimes")
    case 42 => ("To what extent do you agree with these statements about the police in this area? By \"this area\" I mean within 15 minutes' walk from here. They understand the issues that affect this community.",
      "police understand community issues")
    case 43 => ("To what extent do you agree with these statements about the police in this area? By \"this area\" I mean within 15 minutes' walk from here. The police in this area are helpful.",
      "police are helpful in area")
    case 44 => ("To what extent do you agree with these statements about the police in this area? By \"this area\" I mean within 15 minutes' walk from here. The police in this area are easy to contact.",
      "police are easy to contact")
    case 45 => ("To what extent do you agree with these statements about the police and crime more generally? Respect for the police is an important value for people to have.",
      "importance of respecting police")
    case 46 => ("When thinking about the role of the police, which of the following aspects do you think should be most important?",
      "most important aspects of police role")
    case 47 => ("And how well do you think the Metropolitan Police... Prevents terrorism?",
      "police prevent terrorism")
    case 48 => ("Please use a scale of 1 to 7, where 1 = Not at all well and 7 = Very well And how well do you think the Metropolitan Police \U{2026}Respond to emergencies promptly? Please think of London as a whole, rather than your local area in this instance.",
      "police respond to emergencies promptly")
    case 49 => ("And how well do you think the Metropolitan Police... Provide a visible patrolling presence?",
      "police visibility")
    case 50 => ("Please use a scale of 1 to 7, where 1 = Not at all well and 7 = Very well And how well do you think the Metropolitan Police \U{2026}Tackle gun crime? Please think of London as a whole, rather than your local area in this instance.",
      "police tackle gun crime")
    case 51 => ("And how well do you think the Metropolitan Police... Tackle knife crime?",
      "police tackle knife crime")
    case 52 => ("Please use a scale of 1 to 7, where 1 = Not at all well and 7 = Very well And how well do you think the Metropolitan Police \U{2026}Support victims and witnesses? Please think of London as a whole, rather than your local area in this instance.",
      "police support victims and witnesses")
    case 53 => ("And how well do you think the Metropolitan Police... Police major events in London?",
      "police major events")
    case 54 => ("Please use a scale of 1 to 7, where 1 = Not at all well and 7 = Very well How well do you think the Metropolitan Police\U{2026} Tackle drug dealing and drug use? If necessary: Please think of London as a whole, rather than your local area in this instance.",
      "police tackle drug dealing and use")
    case 55 => ("And how well do you think the Metropolitan Police... Tackle dangerous driving?",
      "police tackle dangerous driving")
    case 56 => ("Please use a scale of 1 to 7, where 1 = Not at all well and 7 = Very well And how well do you think the Metropolitan Police \U{2026}\U{2026}Respond to hate crime? Please think of London as a whole, rather than your local area in this instance.",
      "police respond to hate crime")
    case 57 => ("Please use a scale of 1 to 7, where 1 = Not at all well and 7 = Very well How well do you think the Metropolitan Police\U{2026} Respond to violence against women and girls? If necessary: Please think of London as a whole, rather than your local area in this instance.",
      "police respond to violence against women and girls")
    case 58 => ("I would like to get your opinion on the use of body cameras worn by officers. To what extent do you agree or disagree with the following statements about the cameras...? The cameras reassure me that the police will do the right thing.",
      "body cameras reassure proper police conduct")
    case 59 => ("I would like to get your opinion on the use of body cameras worn by officers. To what extent do you agree or disagree with the following statements about the cameras...? The cameras make officers treat people fairly.",
      "body cameras ensure fair treatment")
    case 60 => ("To what extent do you agree or disagree with the following statements: It makes me feel safer when I see a police officer with a firearm.",
      "feeling safer with armed officers")
    case 61 => ("To what extent do you agree or disagree with the following statements: If I saw an officer with a firearm I would feel comfortable approaching them.",
      "comfort approaching armed officers")
    case 62 => ("When you contacted the police on this occasion, do you feel you were treated with respect by the police officers involved?",
      "treated with respect by police")
    case 63 => ("Have you ever been dissatisfied with the way a Metropolitan Police officer behaved towards you or someone you know?",
      "dissatisfaction with police behavior")
    case 64 => ("What would you say are the top three things that the police should be dealing with in your area?",
      "top three police priorities")
    case 65 => ("What would you say are the top three things that the police should be dealing with in your area?",
      "top three police priorities")
    case 66 => ("What would you say are the top three things that the police should be dealing with in your area?",
      "top three police priorities")
    case 67 => ("What would you say are the top three things that the police should be dealing with in your area?",
      "top three police priorities")
    case _ => ("To what extent do you think knife crime is a problem in this area? By knife crime I mean people carrying or using knives to threaten or commit violence.",
      "knife crime problem in area")
  }

  /** Entry `i` of the question dictionary literal as a (code, [text, short]) item. */
  function QuestionItem(i: nat): (string, (string, string))
    requires i < QuestionCount
  {
    (QuestionCode(i), QuestionWording(i))
  }

  /** The question dictionary literal as (code, [text, short]) entries. */
  function QuestionEntries(): (entries: seq<(string, (string, string))>)
    ensures |entries| == QuestionCount
  {
    Tabulate(QuestionItem, QuestionCount)
  }

  /** The keys of the literal, in the order written. */
  lemma QuestionKeysAt()
    ensures forall i :: 0 <= i < QuestionCount ==> QuestionEntries()[i].0 == QuestionCode(i)
  {
    forall i | 0 <= i < QuestionCount ensures QuestionEntries()[i].0 == QuestionCode(i) {
      TabulateAt(QuestionItem, QuestionCount, i);
    }
  }

  /** `questions_dict.keys()`: the codes in dictionary order. */
  function QuestionCodes(): seq<string>
  {
    DictKeys(QuestionEntries())
  }

  /** The descriptions dict: each question code mapped to the short description of its entry. */
  function QuestionDescriptions(): map<string, string>
  {
    map k | k in DictOf(QuestionEntries()) :: DictOf(QuestionEntries())[k].1
  }

  /** Number of entries in the weight literal, duplicates included. */
  const WeightEntryCount: nat := 25

  /** Entry `i` of the weight literal, in the order written. */
  function WeightEntryAt(i: nat): (string, real)
    requires i < WeightEntryCount
  {
    match i
    case 0 => ("Strongly disagree", 0.0)
    case 1 => ("Disagree", 0.25)
    case 2 => ("Neither agree nor disagree", 0.5)
    case 3 => ("Agree", 0.75)
    case 4 => ("Strongly agree", 1.0)
    case 5 => ("Not at all worried", 0.1)
    case 6 => ("Not very worried", 0.3)
    case 7 => ("Fairly worried", 0.6)
    case 8 => ("Very worried", 0.9)
    case 9 => ("Poor", 0.2)
    case 10 => ("Fair", 0.4)
    case 11 => ("Good", 0.6)
    case 12 => ("Excellent", 0.8)
    case 13 => ("Very poor", 0.1)
    case 14 => ("Tend to agree", 0.6)
    case 15 => ("Strongly agree", 1.0)
    case 16 => ("Neither agree nor disagree", 0.5)
    case 17 => ("Tend to disagree", 0.4)
    case 18 => ("Fairly confident", 0.6)
    case 19 => ("Very confident", 0.8)
    case 20 => ("Not very confident", 0.3)
    case 21 => ("Not at all confident", 0.1)
    case 22 => ("Major problem", 0.8)
    case 23 => ("Minor problem", 0.5)
    case _ => ("Not a problem at all", 0.2)
  }

  function WeightEntries(): (entries: seq<(string, real)>)
    ensures |entries| == WeightEntryCount
  {
    seq(WeightEntryCount, i requires 0 <= i < WeightEntryCount => WeightEntryAt(i))
  }

  /** The weight table `weights` as the program sees it. */
  const Weights: map<string, real> := map[
    "Strongly disagree" := 0.0,
    "Disagree" := 0.25,
    "Neither agree nor disagree" := 0.5,
    "Agree" := 0.75,
    "Strongly agree" := 1.0,
    "Not at all worried" := 0.1,
    "Not very worried" := 0.3,
    "Fairly worried" := 0.6,
    "Very worried" := 0.9,
    "Poor" := 0.2,
    "Fair" := 0.4,
    "Good" := 0.6,
    "Excellent" := 0.8,
    "Very poor" := 0.1,
    "Tend to agree" := 0.6,
    "Tend to disagree" := 0.4,
    "Fairly confident" := 0.6,
    "Very confident" := 0.8,
    "Not very confident" := 0.3,
    "Not at all confident" := 0.1,
    "Major problem" := 0.8,
    "Minor problem" := 0.5,
    "Not a problem at all" := 0.2
  ]

  /** The codes the ward-level weighting leaves out. */
  const WeightedQuestions: set<string> := {"NNQ135A", "NPQ135A", "ReNQ147"}

  // ---------------------------------------------------------------------------
  // Properties of the tables
  // ---------------------------------------------------------------------------

  /** Every weight lies in [0, 1]. */
  lemma WeightsInUnitInterval()
    ensures forall a :: a in Weights ==> 0.0 <= Weights[a] <= 1.0
  {
  }

  /** The answers the worked examples use: "Don't know" has no weight. */
  lemma ExampleWeights()
    ensures "Don't know" !in Weights
    ensures "Strongly disagree" in Weights && Weights["Strongly disagree"] == 0.0
    ensures "Disagree" in Weights && Weights["Disagree"] == 0.25
    ensures "Strongly agree" in Weights && Weights["Strongly agree"] == 1.0
  {
  }

  /** The agreement scale is weighted in strictly increasing order of agreement. */
  lemma AgreementScaleIncreasing()
    ensures Weights["Strongly disagree"] < Weights["Disagree"] < Weights["Tend to disagree"]
      < Weights["Neither agree nor disagree"] < Weights["Tend to agree"] < Weights["Agree"]
      < Weights["Strongly agree"]
  {
  }

  /** The worry scale is weighted in strictly increasing order of worry. */
  lemma WorryScaleIncreasing()
    ensures Weights["Not at all worried"] < Weights["Not very worried"] < Weights["Fairly worried"]
      < Weights["Very worried"]
  {
  }

  /** The rating scale is weighted in strictly increasing order of rating. */
  lemma RatingScaleIncreasing()
    ensures Weights["Very poor"] < Weights["Poor"] < Weights["Fair"] < Weights["Good"] < Weights["Excellent"]
  {
  }

  /** The confidence scale is weighted in strictly increasing order of confidence. */
  lemma ConfidenceScaleIncreasing()
    ensures Weights["Not at all confident"] < Weights["Not very confident"] < Weights["Fairly confident"]
      < Weights["Very confident"]
  {
  }

  /** The problem scale is weighted in strictly increasing order of severity. */
  lemma ProblemScaleIncreasing()
    ensures Weights["Not a problem at all"] < Weights["Minor problem"] < Weights["Major problem"]
  {
  }

  /** Entry `i` of the weight literal agrees with `Weights`. */
  predicate EntryAgrees(i: nat)
    requires i < WeightEntryCount
  {
    WeightEntryAt(i).0 in Weights && Weights[WeightEntryAt(i).0] == WeightEntryAt(i).1
  }

  lemma EntriesAgree0()
    ensures forall i :: 0 <= i < 5 ==> EntryAgrees(i)
  {
    assert EntryAgrees(0);
    assert EntryAgrees(1);
    assert EntryAgrees(2);
    assert EntryAgrees(3);
    assert EntryAgrees(4);
  }

  lemma EntriesAgree1()
    ensures forall i :: 5 <= i < 10 ==> EntryAgrees(i)
  {
    assert EntryAgrees(5);
    assert EntryAgrees(6);
    assert EntryAgrees(7);
    assert EntryAgrees(8);
    assert EntryAgrees(9);
  }

  lemma EntriesAgree2()
    ensures forall i :: 10 <= i < 15 ==> EntryAgrees(i)
  {
    assert EntryAgrees(10);
    assert EntryAgrees(11);
    assert EntryAgrees(12);
    assert EntryAgrees(13);
    assert EntryAgrees(14);
  }

  lemma EntriesAgree3()
    ensures forall i :: 15 <= i < 20 ==> EntryAgrees(i)
  {
    assert EntryAgrees(15);
    assert EntryAgrees(16);
    assert EntryAgrees(17);
    assert EntryAgrees(18);
    assert EntryAgrees(19);
  }

  lemma EntriesAgree4()
    ensures forall i :: 20 <= i < 25 ==> EntryAgrees(i)
  {
    assert EntryAgrees(20);
    assert EntryAgrees(21);
    assert EntryAgrees(22);
    assert EntryAgrees(23);
    assert EntryAgrees(24);
  }

  lemma KeysListed0()
    ensures HasKey(WeightEntries(), "Strongly disagree") &&
      HasKey(WeightEntries(), "Disagree") &&
      HasKey(WeightEntries(), "Neither agree nor disagree") &&
      HasKey(WeightEntries(), "Agree") &&
      HasKey(WeightEntries(), "Strongly agree") &&
      HasKey(WeightEntries(), "Not at all worried")
  {
    var e := WeightEntries();
    assert e[0].0 == "Strongly disagree";
    assert e[1].0 == "Disagree";
    assert e[2].0 == "Neither agree nor disagree";
    assert e[3].0 == "Agree";
    assert e[4].0 == "Strongly agree";
    assert e[5].0 == "Not at all worried";
  }

  lemma KeysListed1()
    ensures HasKey(WeightEntries(), "Not very worried") &&
      HasKey(WeightEntries(), "Fairly worried") &&
      HasKey(WeightEntries(), "Very worried") &&
      HasKey(WeightEntries(), "Poor") &&
      HasKey(WeightEntries(), "Fair") &&
      HasKey(WeightEntries(), "Good")
  {
    var e := WeightEntries();
    assert e[6].0 == "Not very worried";
    assert e[7].0 == "Fairly worried";
    assert e[8].0 == "Very worried";
    assert e[9].0 == "Poor";
    assert e[10].0 == "Fair";
    assert e[11].0 == "Good";
  }

  lemma KeysListed2()
    ensures HasKey(WeightEntries(), "Excellent") &&
      HasKey(WeightEntries(), "Very poor") &&
      HasKey(WeightEntries(), "Tend to agree") &&
      HasKey(WeightEntries(), "Tend to disagree") &&
      HasKey(WeightEntries(), "Fairly confident") &&
      HasKey(WeightEntries(), "Very confident")
  {
    var e := WeightEntries();
    assert e[12].0 == "Excellent";
    assert e[13].0 == "Very poor";
    assert e[14].0 == "Tend to agree";
    assert e[17].0 == "Tend to disagree";
    assert e[18].0 == "Fairly confident";
    assert e[19].0 == "Very confident";
  }

  lemma KeysListed3()
    ensures HasKey(WeightEntries(), "Not very confident") &&
      HasKey(WeightEntries(), "Not at all confident") &&
      HasKey(WeightEntries(), "Major problem") &&
      HasKey(WeightEntries(), "Minor problem") &&
      HasKey(WeightEntries(), "Not a problem at all")
  {
    var e := WeightEntries();
    assert e[20].0 == "Not very confident";
    assert e[21].0 == "Not at all confident";
    assert e[22].0 == "Major problem";
    assert e[23].0 == "Minor problem";
    assert e[24].0 == "Not a problem at all";
  }

  /** Every entry of the weight literal agrees with `Weights`. */
  lemma EntriesAgree()
    ensures forall i :: 0 <= i < |WeightEntries()| ==>
      WeightEntries()[i].0 in Weights && Weights[WeightEntries()[i].0] == WeightEntries()[i].1
  {
    EntriesAgree0(); EntriesAgree1(); EntriesAgree2(); EntriesAgree3(); EntriesAgree4();
    var e := WeightEntries();
    forall i | 0 <= i < |e| ensures e[i].0 in Weights && Weights[e[i].0] == e[i].1 {
      assert EntryAgrees(i);
    }
  }

  /** Every key of `Weights` is written somewhere in the weight literal. */
  lemma KeysListed()
    ensures forall k :: k in Weights ==> HasKey(WeightEntries(), k)
  {
    KeysListed0(); KeysListed1(); KeysListed2(); KeysListed3();
  }

  /**
   * The weight literal denotes `Weights`, and entries that repeat a key repeat
   * its value, so the table does not depend on which duplicate Python keeps.
   */
  lemma WeightLiteralIsWeights()
    ensures DictOf(WeightEntries()) == Weights
    ensures forall i, j :: (0 <= i < WeightEntryCount && 0 <= j < WeightEntryCount
      && WeightEntries()[i].0 == WeightEntries()[j].0) ==> WeightEntries()[i].1 == WeightEntries()[j].1
  {
    EntriesAgree();
    KeysListed();
    DictOfAgrees(WeightEntries(), Weights);
  }

  /** The three codes the weighting skips are keys of the question dictionary. */
  lemma WeightedQuestionsAreQuestions()
    ensures forall q :: q in WeightedQuestions ==> q in QuestionCodes()
  {
    var e := QuestionEntries();
    QuestionKeysAt();
    assert e[18].0 == "NPQ135A" && e[19].0 == "NNQ135A" && e[21].0 == "ReNQ147";
    assert HasKey(e, "NPQ135A") && HasKey(e, "NNQ135A") && HasKey(e, "ReNQ147");
  }
}
