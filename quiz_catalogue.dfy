/** The readiness quiz's static configuration: the question catalogue and the tier table. */
module QuizCatalogue {

  /** One selectable answer of a question; a higher score means more ready. */
  datatype QuizOption = QuizOption(text: string, score: int)

  /** A question, identified by its stable integer `id`; answers refer to an option by its index. */
  datatype Question = Question(id: int, question: string, options: seq<QuizOption>)

  /** A band `[min, max]` of total scores with its display colour and recommendation. */
  datatype Tier = Tier(min: int, max: int, labelText: string, color: string, recommendation: string)

  /** The most any single option may score. */
  const MaxOptionScore: int := 3

  // The catalogue's questions, each with its options in display order.

  const Question1: Question :=
    Question(1, "Has your organization previously operated in the Greater Caspian Region or CIS markets?", [
      QuizOption("Yes, we have active operations in the region", 3),
      QuizOption("We have explored the region but not established operations", 2),
      QuizOption("We have operated in similar emerging markets", 1),
      QuizOption("No, this would be our first emerging market entry", 0)])

  const Question2: Question :=
    Question(2, "How familiar is your team with the regulatory environments across GCR jurisdictions?", [
      QuizOption("We have in-house regulatory expertise for the GCR", 3),
      QuizOption("We have general knowledge but lack jurisdiction-specific expertise", 2),
      QuizOption("We rely on external advisors for regulatory guidance", 1),
      QuizOption("We have limited awareness of GCR regulations", 0)])

  const Question3: Question :=
    Question(3, "Do you have established local partnerships or stakeholder relationships in the GCR?", [
      QuizOption("Yes, we have vetted, long-term local partners", 3),
      QuizOption("We have some initial contacts but no formal partnerships", 2),
      QuizOption("We are actively seeking local partners", 1),
      QuizOption("No, we would need to build our network from scratch", 0)])

  const Question4: Question :=
    Question(4, "What is your allocated budget range for GCR market entry?", [
      QuizOption("$1M+ with board-approved expansion budget", 3),
      QuizOption("$250K–$1M earmarked for exploratory phase", 2),
      QuizOption("Under $250K — testing the waters", 1),
      QuizOption("Budget has not yet been defined", 0)])

  const Question5: Question :=
    Question(5, "What is your target timeline for establishing GCR operations?", [
      QuizOption("Within 3 months — we need to move quickly", 3),
      QuizOption("3–6 months — structured but timely approach", 2),
      QuizOption("6–12 months — methodical long-term planning", 1),
      QuizOption("No firm timeline — still in research phase", 0)])

  const Question6: Question :=
    Question(6, "Does your organization have international compliance infrastructure (FCPA, UK Bribery Act, ESG)?", [
      QuizOption("Yes, robust compliance program with dedicated team", 3),
      QuizOption("Basic compliance policies in place", 2),
      QuizOption("We rely on group-level compliance guidelines", 1),
      QuizOption("Compliance infrastructure is minimal or non-existent", 0)])

  const Question7: Question :=
    Question(7, "What best describes your risk tolerance for emerging market entry?", [
      QuizOption("Calculated risk-taker with emerging market experience", 3),
      QuizOption("Open to risk with proper mitigation strategies", 2),
      QuizOption("Conservative — need strong guarantees before proceeding", 1),
      QuizOption("Very risk-averse — require near-certainty of returns", 0)])

  const Question8: Question :=
    Question(8, "Which sector best describes your primary business interest in the GCR?", [
      QuizOption("Energy, Oil & Gas, or Critical Minerals", 3),
      QuizOption("Logistics, Supply Chain, or Infrastructure", 2),
      QuizOption("Technology, Fintech, or Digital Services", 2),
      QuizOption("FMCG, Retail, or Manufacturing", 1)])

  const Question9: Question :=
    Question(9, "Does your organization have experience with Production Sharing Agreements (PSAs) or government concessions?", [
      QuizOption("Yes, we actively manage PSAs or concession agreements", 3),
      QuizOption("We have some exposure through partnerships", 2),
      QuizOption("We understand the concept but have no direct experience", 1),
      QuizOption("This is unfamiliar territory for us", 0)])

  const Question10: Question :=
    Question(10, "How would you describe your organization's strategic objective in the GCR?", [
      QuizOption("Full market entry with physical presence and local entity", 3),
      QuizOption("Joint venture or strategic partnership with local player", 2),
      QuizOption("Export / distribution through local channels", 1),
      QuizOption("Feasibility study or market intelligence gathering", 0)])

  /** The ten questions in display order. */
  const QuizData: seq<Question> := [
    Question1, Question2, Question3, Question4, Question5,
    Question6, Question7, Question8, Question9, Question10]

  /** The result tiers, in the order they are searched. */
  const QuizTiers: seq<Tier> := [
    Tier(0, 10, "Early Stage", "#C62828",
      "Your organization is at the beginning of its GCR journey. We recommend starting with a Strategic Market Entry consultation to build a solid foundation, conduct proper due diligence, and develop a phased entry roadmap before committing capital."),
    Tier(11, 20, "Developing Readiness", "#F57C00",
      "You have some building blocks in place, but gaps remain in regulatory readiness, local networks, or operational infrastructure. An Operational Sprint engagement can help you close these gaps efficiently while testing market demand through our GCR Deployment Teams."),
    Tier(21, 30, "High Readiness", "#2E7D32",
      "Your organization demonstrates strong readiness for GCR expansion. You have the compliance infrastructure, risk appetite, and strategic clarity to move quickly. We recommend a direct Executive Briefing to align on deployment timelines and governance frameworks.")
  ]

  /** No two questions share an id, so an id names at most one question. */
  ghost predicate DistinctIds(qs: seq<Question>) {
    forall j, k :: 0 <= j < k < |qs| ==> qs[j].id != qs[k].id
  }

  /** Every question offers at least one option and every option scores within `0..MaxOptionScore`. */
  ghost predicate ScoresInRange(qs: seq<Question>) {
    forall j :: 0 <= j < |qs| ==>
      |qs[j].options| > 0 &&
      forall o :: 0 <= o < |qs[j].options| ==> 0 <= qs[j].options[o].score <= MaxOptionScore
  }

  /** The option scores of the shipped catalogue, question by question. */
  const ScoreTable: seq<seq<int>> := [
    [3, 2, 1, 0], [3, 2, 1, 0], [3, 2, 1, 0], [3, 2, 1, 0], [3, 2, 1, 0],
    [3, 2, 1, 0], [3, 2, 1, 0], [3, 2, 2, 1], [3, 2, 1, 0], [3, 2, 1, 0]]

  /** `qs` has the shipped catalogue's ids (1..10, in order) and option scores (`ScoreTable`). */
  ghost predicate ShapedLikeQuizData(qs: seq<Question>) {
    && |qs| == |ScoreTable|
    && (forall j :: 0 <= j < |qs| ==> qs[j].id == j + 1 && |qs[j].options| == |ScoreTable[j]|)
    && (forall j, o :: 0 <= j < |qs| && 0 <= o < |qs[j].options| ==> qs[j].options[o].score == ScoreTable[j][o])
  }

  /** Question `q` sits at position `j` of the catalogue: id `j + 1` and the scores of row `j` of `ScoreTable`. */
  ghost predicate RowMatches(q: Question, j: int)
    requires 0 <= j < |ScoreTable|
  {
    && q.id == j + 1
    && |q.options| == |ScoreTable[j]|
    && forall o :: 0 <= o < |q.options| ==> q.options[o].score == ScoreTable[j][o]
  }

  // Each question against its row of `ScoreTable`, one question at a time.

  lemma Question1Row()
    ensures RowMatches(Question1, 0)
  {
  }

  lemma Question2Row()
    ensures RowMatches(Question2, 1)
  {
  }

  lemma Question3Row()
    ensures RowMatches(Question3, 2)
  {
  }

  lemma Question4Row()
    ensures RowMatches(Question4, 3)
  {
  }

  lemma Question5Row()
    ensures RowMatches(Question5, 4)
  {
  }

  lemma Question6Row()
    ensures RowMatches(Question6, 5)
  {
  }

  lemma Question7Row()
    ensures RowMatches(Question7, 6)
  {
  }

  lemma Question8Row()
    ensures RowMatches(Question8, 7)
  {
  }

  lemma Question9Row()
    ensures RowMatches(Question9, 8)
  {
  }

  lemma Question10Row()
    ensures RowMatches(Question10, 9)
  {
  }

  /** `ScoreTable` lists exactly the catalogue's ids and scores. */
  lemma QuizDataScores()
    ensures ShapedLikeQuizData(QuizData)
  {
    Question1Row();
    Question2Row();
    Question3Row();
    Question4Row();
    Question5Row();
    Question6Row();
    Question7Row();
    Question8Row();
    Question9Row();
    Question10Row();
  }

  /** `ScoreTable` has ten rows of four scores, each within `0..MaxOptionScore`. */
  lemma ScoreTableShape()
    ensures |ScoreTable| == 10
    ensures forall j :: 0 <= j < 10 ==> |ScoreTable[j]| == 4
    ensures forall j, o :: 0 <= j < 10 && 0 <= o < 4 ==> 0 <= ScoreTable[j][o] <= MaxOptionScore
  {
  }

  /** The shape of the shipped catalogue: ten questions with ids 1..10, four options each, scores in 0..3. */
  lemma QuizDataShape()
    ensures |QuizData| == 10
    ensures forall j :: 0 <= j < |QuizData| ==> QuizData[j].id == j + 1 && |QuizData[j].options| == 4
    ensures DistinctIds(QuizData) && ScoresInRange(QuizData)
  {
    QuizDataScores();
    ScoreTableShape();
  }
}
