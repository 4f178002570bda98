/**
 * The scorer run when the quiz is submitted: the total of the chosen options' scores,
 * the rounded percentage of the maximum, and the readiness tier the total falls in.
 */
module QuizScoring {
  import opened Wrappers
  import opened QuizCatalogue

  /** What the result view shows. */
  datatype QuizResult = QuizResult(totalScore: int, percentage: int, tier: Tier)

  /** The best possible total: every question answered with a top-scoring option. */
  const MaxScore: int := |QuizData| * MaxOptionScore

  /** The first question of `qs` with the given id, as `QUIZ_DATA.find` returns it. */
  function FindQuestion(qs: seq<Question>, id: int): (r: Option<Question>)
    ensures r.None? <==> forall j :: 0 <= j < |qs| ==> qs[j].id != id
    ensures r.Some? ==> exists j :: 0 <= j < |qs| && qs[j] == r.value && qs[j].id == id &&
                                    forall k :: 0 <= k < j ==> qs[k].id != id
  {
    if qs == [] then None
    else if qs[0].id == id then Some(qs[0])
    else
      var r := FindQuestion(qs[1..], id);
      assert r.Some? ==> exists j :: 1 <= j < |qs| && qs[j] == r.value && qs[j].id == id &&
                                     forall k :: 0 <= k < j ==> qs[k].id != id by {
        if r.Some? {
          var j :| 0 <= j < |qs[1..]| && qs[1..][j] == r.value && qs[1..][j].id == id &&
                   forall k :: 0 <= k < j ==> qs[1..][k].id != id;
          assert forall k :: 0 <= k < j + 1 ==> qs[k].id != id by {
            forall k | 0 <= k < j + 1 ensures qs[k].id != id {
              if k > 0 { assert qs[k] == qs[1..][k - 1]; }
            }
          }
        }
      }
      r
  }

  /** Every recorded answer for a question of `qs` indexes one of its options. */
  ghost predicate AnswersInRange(qs: seq<Question>, answers: map<int, int>) {
    forall j :: 0 <= j < |qs| && qs[j].id in answers ==> 0 <= answers[qs[j].id] < |qs[j].options|
  }

  /** Every question of `qs` has a recorded answer. */
  ghost predicate Complete(qs: seq<Question>, answers: map<int, int>) {
    forall j :: 0 <= j < |qs| ==> qs[j].id in answers
  }

  /** What question `q` adds to the total when only the answers to ids in `keys` are counted. */
  function Contribution(q: Question, answers: map<int, int>, keys: set<int>): int
    requires q.id in answers ==> 0 <= answers[q.id] < |q.options|
  {
    if q.id in keys && q.id in answers then q.options[answers[q.id]].score else 0
  }

  /** The contributions of the first `n` questions of `qs`. */
  function ScoreUpTo(qs: seq<Question>, answers: map<int, int>, keys: set<int>, n: nat): int
    requires AnswersInRange(qs, answers) && n <= |qs|
  {
    if n == 0 then 0
    else
      assert qs[n - 1].id in answers ==> 0 <= answers[qs[n - 1].id] < |qs[n - 1].options|;
      ScoreUpTo(qs, answers, keys, n - 1) + Contribution(qs[n - 1], answers, keys)
  }

  /**
   * Reference total, question by question: the chosen option's score for every question
   * whose id is in `keys` and answered, and nothing for the others.
   */
  function AnsweredScore(qs: seq<Question>, answers: map<int, int>, keys: set<int>): int
    requires AnswersInRange(qs, answers)
  {
    ScoreUpTo(qs, answers, keys, |qs|)
  }

  /** The score the scorer adds for the answer recorded under `id`: zero for an id not in `qs`. */
  function FoundScore(qs: seq<Question>, answers: map<int, int>, id: int): int
    requires AnswersInRange(qs, answers)
    requires id in answers
  {
    match FindQuestion(qs, id)
    case None => 0
    case Some(q) => q.options[answers[id]].score
  }

  /** With no ids counted the total is zero. */
  lemma {:induction false} ScoreNoKeys(qs: seq<Question>, answers: map<int, int>, n: nat)
    requires AnswersInRange(qs, answers) && n <= |qs|
    ensures ScoreUpTo(qs, answers, {}, n) == 0
  {
    if n > 0 {
      ScoreNoKeys(qs, answers, n - 1);
    }
  }

  /** Counting an id that no question of `qs` carries changes nothing. */
  lemma {:induction false} ScoreIgnoresUnknownId(qs: seq<Question>, answers: map<int, int>, keys: set<int>, id: int, n: nat)
    requires AnswersInRange(qs, answers) && n <= |qs|
    requires forall j :: 0 <= j < |qs| ==> qs[j].id != id
    ensures ScoreUpTo(qs, answers, keys + {id}, n) == ScoreUpTo(qs, answers, keys, n)
  {
    if n > 0 {
      ScoreIgnoresUnknownId(qs, answers, keys, id, n - 1);
    }
  }

  /** Counting the id of question `k` adds its chosen score once `k` is among the first `n`. */
  lemma {:induction false} ScoreAddsQuestion(qs: seq<Question>, answers: map<int, int>, keys: set<int>, k: nat, n: nat)
    requires DistinctIds(qs) && AnswersInRange(qs, answers) && n <= |qs|
    requires k < |qs| && qs[k].id in answers && qs[k].id !in keys
    ensures ScoreUpTo(qs, answers, keys + {qs[k].id}, n) ==
            ScoreUpTo(qs, answers, keys, n) + (if k < n then qs[k].options[answers[qs[k].id]].score else 0)
  {
    if n > 0 {
      ScoreAddsQuestion(qs, answers, keys, k, n - 1);
    }
  }

  /** Counting one more answered id adds exactly what the scorer's lookup finds for it. */
  lemma ScoreAddsFoundScore(qs: seq<Question>, answers: map<int, int>, keys: set<int>, id: int)
    requires DistinctIds(qs) && AnswersInRange(qs, answers)
    requires id in answers && id !in keys
    ensures AnsweredScore(qs, answers, keys + {id}) == AnsweredScore(qs, answers, keys) + FoundScore(qs, answers, id)
  {
    var found := FindQuestion(qs, id);
    if found.None? {
      ScoreIgnoresUnknownId(qs, answers, keys, id, |qs|);
    } else {
      var k :| 0 <= k < |qs| && qs[k] == found.value && qs[k].id == id;
      ScoreAddsQuestion(qs, answers, keys, k, |qs|);
    }
  }

  /**
   * `renderQuizResult`'s loop over the recorded answers: each id found in the catalogue
   * adds its chosen option's score. The result is the question-by-question reference total,
   * whatever order the ids are visited in.
   */
  method ComputeTotal(catalogue: seq<Question>, answers: map<int, int>) returns (total: int)
    requires DistinctIds(catalogue) && AnswersInRange(catalogue, answers)
    ensures total == AnsweredScore(catalogue, answers, answers.Keys)
  {
    total := 0;
    var pending := answers.Keys;
    ghost var counted: set<int> := {};
    ScoreNoKeys(catalogue, answers, |catalogue|);
    while pending != {}
      invariant pending <= answers.Keys
      invariant counted == answers.Keys - pending
      invariant total == AnsweredScore(catalogue, answers, counted)
      decreases pending
    {
      NonEmptyHasMember(pending);
      var qId :| qId in pending;
      var question := FindQuestion(catalogue, qId);
      if question.Some? {
        total := total + question.value.options[answers[qId]].score;
      }
      ScoreAddsFoundScore(catalogue, answers, counted, qId);
      pending := pending - {qId};
      counted := counted + {qId};
    }
    assert counted == answers.Keys;
  }

  /** A non-empty set has a member to pick. */
  lemma NonEmptyHasMember(s: set<int>)
    requires s != {}
    ensures exists x :: x in s
  {
    if forall x :: x !in s {
      assert false;
    }
  }

  /** With option scores in `0..MaxOptionScore`, the first `n` questions add up to at most `MaxOptionScore * n`. */
  lemma {:induction false} ScoreUpToBounds(qs: seq<Question>, answers: map<int, int>, keys: set<int>, n: nat)
    requires ScoresInRange(qs) && AnswersInRange(qs, answers) && n <= |qs|
    ensures 0 <= ScoreUpTo(qs, answers, keys, n) <= MaxOptionScore * n
  {
    if n > 0 {
      ScoreUpToBounds(qs, answers, keys, n - 1);
    }
  }

  /** With option scores in `0..MaxOptionScore`, any total lies in `[0, MaxOptionScore * |qs|]`. */
  lemma ScoreBounds(qs: seq<Question>, answers: map<int, int>, keys: set<int>)
    requires ScoresInRange(qs) && AnswersInRange(qs, answers)
    ensures 0 <= AnsweredScore(qs, answers, keys) <= MaxOptionScore * |qs|
  {
    ScoreUpToBounds(qs, answers, keys, |qs|);
  }

  /** The smallest score among `opts`. */
  function MinOptionScore(opts: seq<QuizOption>): (m: int)
    requires |opts| > 0
    ensures forall o :: 0 <= o < |opts| ==> m <= opts[o].score
    ensures exists o :: 0 <= o < |opts| && m == opts[o].score
  {
    if |opts| == 1 then opts[0].score
    else
      var rest := MinOptionScore(opts[1..]);
      assert forall o :: 1 <= o < |opts| ==> opts[o] == opts[1..][o - 1];
      if opts[0].score <= rest then opts[0].score else rest
  }

  /** The least the first `n` questions can add up to when all are answered: each one's lowest option. */
  function MinUpTo(qs: seq<Question>, n: nat): int
    requires ScoresInRange(qs) && n <= |qs|
  {
    if n == 0 then 0 else MinUpTo(qs, n - 1) + MinOptionScore(qs[n - 1].options)
  }

  /** A complete answer set scores at least the sum of the lowest options. */
  lemma {:induction false} CompleteScoreAtLeastMin(qs: seq<Question>, answers: map<int, int>, n: nat)
    requires ScoresInRange(qs) && AnswersInRange(qs, answers) && Complete(qs, answers) && n <= |qs|
    ensures ScoreUpTo(qs, answers, answers.Keys, n) >= MinUpTo(qs, n)
  {
    if n > 0 {
      CompleteScoreAtLeastMin(qs, answers, n - 1);
    }
  }

  /**
   * `Math.round(total / maxScore * 100)` on integers: the percentage rounded to the
   * nearest whole number, halves rounded up.
   */
  function RoundedPercentage(total: int, maxScore: int): (pct: int)
    requires maxScore > 0
    ensures 2 * pct * maxScore <= 200 * total + maxScore < 2 * pct * maxScore + 2 * maxScore
  {
    (200 * total + maxScore) / (2 * maxScore)
  }

  /** A total within `[0, maxScore]` gives a percentage within `[0, 100]`, with both ends exact. */
  lemma PercentageBounds(total: int, maxScore: int)
    requires 0 <= total <= maxScore && maxScore > 0
    ensures 0 <= RoundedPercentage(total, maxScore) <= 100
    ensures total == 0 ==> RoundedPercentage(total, maxScore) == 0
    ensures total == maxScore ==> RoundedPercentage(total, maxScore) == 100
  {
    var pct := RoundedPercentage(total, maxScore);
    MulCancel(1, 2 * pct + 2, maxScore);
    MulCancel(2 * pct, 201, maxScore);
    if total == 0 {
      MulCancel(2 * pct, 1, maxScore);
    }
    if total == maxScore {
      MulCancel(201, 2 * pct + 2, maxScore);
    }
  }

  /** Cancelling a positive factor on both sides of an inequality. */
  lemma MulCancel(a: int, b: int, m: int)
    requires m > 0
    ensures a * m <= b * m ==> a <= b
    ensures a * m < b * m ==> a < b
  {
  }

  /** The band `[tier.min, tier.max]` contains `total`. */
  predicate InTier(tier: Tier, total: int) {
    tier.min <= total <= tier.max
  }

  /** The first tier whose band contains `total`, as `QUIZ_TIERS.find` returns it. */
  function FindTier(tiers: seq<Tier>, total: int): (r: Option<Tier>)
    ensures r.None? <==> forall j :: 0 <= j < |tiers| ==> !InTier(tiers[j], total)
    ensures r.Some? ==> exists j :: 0 <= j < |tiers| && tiers[j] == r.value && InTier(r.value, total) &&
                                    forall k :: 0 <= k < j ==> !InTier(tiers[k], total)
  {
    if tiers == [] then None
    else if InTier(tiers[0], total) then Some(tiers[0])
    else
      var r := FindTier(tiers[1..], total);
      assert r.Some? ==> exists j :: 1 <= j < |tiers| && tiers[j] == r.value && InTier(r.value, total) &&
                                     forall k :: 0 <= k < j ==> !InTier(tiers[k], total) by {
        if r.Some? {
          var j :| 0 <= j < |tiers[1..]| && tiers[1..][j] == r.value && InTier(r.value, total) &&
                   forall k :: 0 <= k < j ==> !InTier(tiers[1..][k], total);
          forall k | 0 <= k < j + 1 ensures !InTier(tiers[k], total) {
            if k > 0 { assert tiers[k] == tiers[1..][k - 1]; }
          }
        }
      }
      r
  }

  /** The tier shown for `total`: the first matching band, or the first tier when none matches. */
  function SelectTier(tiers: seq<Tier>, total: int): (r: Tier)
    requires |tiers| > 0
    ensures (exists j :: 0 <= j < |tiers| && InTier(tiers[j], total)) ==> InTier(r, total) && r in tiers
    ensures (forall j :: 0 <= j < |tiers| ==> !InTier(tiers[j], total)) ==> r == tiers[0]
  {
    FindTier(tiers, total).GetOr(tiers[0])
  }

  /**
   * The bands are non-empty, in increasing order, start at `lo`, end at `hi`, and each
   * begins right after the previous one ends.
   */
  ghost predicate Contiguous(tiers: seq<Tier>, lo: int, hi: int) {
    && |tiers| > 0
    && tiers[0].min == lo
    && tiers[|tiers| - 1].max == hi
    && (forall j :: 0 <= j < |tiers| ==> tiers[j].min <= tiers[j].max)
    && (forall j :: 0 <= j < |tiers| - 1 ==> tiers[j + 1].min == tiers[j].max + 1)
  }

  /** In a contiguous table a later band starts after an earlier one ends. */
  lemma {:induction false} LaterBandsAbove(tiers: seq<Tier>, lo: int, hi: int, j: int, k: int)
    requires Contiguous(tiers, lo, hi) && 0 <= j < k < |tiers|
    ensures tiers[j].max < tiers[k].min
    decreases k - j
  {
    if k > j + 1 {
      LaterBandsAbove(tiers, lo, hi, j, k - 1);
    }
  }

  /** In a contiguous table every band starts at or below `hi`-side successors; each total in range has a band. */
  lemma {:induction false} ContiguousCovers(tiers: seq<Tier>, lo: int, hi: int, total: int)
    requires Contiguous(tiers, lo, hi) && lo <= total <= hi
    ensures exists j :: 0 <= j < |tiers| && InTier(tiers[j], total)
    decreases |tiers|
  {
    if !InTier(tiers[0], total) {
      assert |tiers| > 1;
      var rest := tiers[1..];
      assert Contiguous(rest, tiers[0].max + 1, hi) by {
        forall j | 0 <= j < |rest| - 1 ensures rest[j + 1].min == rest[j].max + 1 {
          assert rest[j] == tiers[j + 1] && rest[j + 1] == tiers[j + 2];
        }
      }
      ContiguousCovers(rest, tiers[0].max + 1, hi, total);
      var j :| 0 <= j < |rest| && InTier(rest[j], total);
      assert tiers[j + 1] == rest[j];
    }
  }

  /**
   * A contiguous table partitions `[lo, hi]`: every total in it lies in exactly one band,
   * and that band is the one selected.
   */
  lemma ContiguousPartition(tiers: seq<Tier>, lo: int, hi: int, total: int)
    requires Contiguous(tiers, lo, hi) && lo <= total <= hi
    ensures exists j :: 0 <= j < |tiers| && InTier(tiers[j], total) &&
                        forall k :: 0 <= k < |tiers| && InTier(tiers[k], total) ==> k == j
    ensures InTier(SelectTier(tiers, total), total)
  {
    ContiguousCovers(tiers, lo, hi, total);
    var j :| 0 <= j < |tiers| && InTier(tiers[j], total);
    forall k | 0 <= k < |tiers| && InTier(tiers[k], total) ensures k == j {
      if k < j { LaterBandsAbove(tiers, lo, hi, k, j); }
      if j < k { LaterBandsAbove(tiers, lo, hi, j, k); }
    }
  }

  /** The shipped tier table partitions `[0, MaxScore]` = `[0, 30]`. */
  lemma QuizTiersPartitionScores(total: int)
    requires 0 <= total <= MaxScore
    ensures exists j :: 0 <= j < |QuizTiers| && InTier(QuizTiers[j], total) &&
                        forall k :: 0 <= k < |QuizTiers| && InTier(QuizTiers[k], total) ==> k == j
    ensures InTier(SelectTier(QuizTiers, total), total)
  {
    QuizDataShape();
    assert Contiguous(QuizTiers, 0, MaxScore);
    ContiguousPartition(QuizTiers, 0, MaxScore, total);
  }

  /** The shipped bands: 0..10 "Early Stage", 11..20 "Developing Readiness", 21..30 "High Readiness". */
  lemma ShippedTier(total: int)
    requires 0 <= total <= MaxScore
    ensures SelectTier(QuizTiers, total) == QuizTiers[if total <= 10 then 0 else if total <= 20 then 1 else 2]
  {
    QuizTiersPartitionScores(total);
    var r := SelectTier(QuizTiers, total);
    var j :| 0 <= j < |QuizTiers| && QuizTiers[j] == r;
  }

  /**
   * The result `renderQuizResult` computes for an answer set: a total within the possible
   * scores, a percentage within 0..100 (0% for no points, 100% for full marks), and a
   * shipped tier whose band holds the total.
   */
  function Evaluate(answers: map<int, int>): (r: QuizResult)
    requires AnswersInRange(QuizData, answers)
    ensures 0 <= r.totalScore <= MaxScore && 0 <= r.percentage <= 100
    ensures r.totalScore == 0 ==> r.percentage == 0
    ensures r.totalScore == MaxScore ==> r.percentage == 100
    ensures InTier(r.tier, r.totalScore) && r.tier in QuizTiers
  {
    var total := AnsweredScore(QuizData, answers, answers.Keys);
    QuizDataShape();
    ScoreBounds(QuizData, answers, answers.Keys);
    PercentageBounds(total, MaxScore);
    QuizTiersPartitionScores(total);
    QuizResult(total, RoundedPercentage(total, MaxScore), SelectTier(QuizTiers, total))
  }

  /**
   * The scorer: sums the answers (the loop of `ComputeTotal`), rounds the percentage of
   * `|QuizData| * 3`, and picks the tier with fallback to the first.
   */
  method ComputeResult(answers: map<int, int>) returns (r: QuizResult)
    requires AnswersInRange(QuizData, answers)
    ensures r == Evaluate(answers)
    ensures 0 <= r.totalScore <= MaxScore && 0 <= r.percentage <= 100
    ensures InTier(r.tier, r.totalScore) && r.tier in QuizTiers
  {
    QuizDataShape();
    var total := ComputeTotal(QuizData, answers);
    var maxScore := |QuizData| * 3;
    var percentage := RoundedPercentage(total, maxScore);
    var tier := SelectTier(QuizTiers, total);
    r := QuizResult(total, percentage, tier);
  }

  /** Every question answered with its first (top-scoring) option. */
  const AllTopAnswers: map<int, int> :=
    map[1 := 0, 2 := 0, 3 := 0, 4 := 0, 5 := 0, 6 := 0, 7 := 0, 8 := 0, 9 := 0, 10 := 0]

  /** Every question answered with its last (lowest-scoring) option. */
  const AllLastAnswers: map<int, int> :=
    map[1 := 3, 2 := 3, 3 := 3, 4 := 3, 5 := 3, 6 := 3, 7 := 3, 8 := 3, 9 := 3, 10 := 3]

  /** A mixed answer set: 3 + 3 + 3 + 3 + 2 + 0 + 0 + 1 + 0 + 0 = 15. */
  const MixedAnswers: map<int, int> :=
    map[1 := 0, 2 := 0, 3 := 0, 4 := 0, 5 := 1, 6 := 3, 7 := 3, 8 := 3, 9 := 3, 10 := 3]

  /** Question `n` (id `n`) of a catalogue shaped like the shipped one adds its `ScoreTable` entry. */
  lemma ShapedStep(qs: seq<Question>, answers: map<int, int>, keys: set<int>, n: nat)
    requires ShapedLikeQuizData(qs) && AnswersInRange(qs, answers) && 0 < n <= |qs|
    requires n in answers && n in keys && 0 <= answers[n] < |ScoreTable[n - 1]|
    ensures ScoreUpTo(qs, answers, keys, n) == ScoreUpTo(qs, answers, keys, n - 1) + ScoreTable[n - 1][answers[n]]
  {
    assert qs[n - 1].id == n;
  }

  /** The points of the answers to questions 1..`n`, read from `ScoreTable`. */
  function TableScore(answers: map<int, int>, n: nat): int
    requires n <= |ScoreTable|
  {
    if n == 0 then 0
    else if n in answers && 0 <= answers[n] < |ScoreTable[n - 1]| then
      TableScore(answers, n - 1) + ScoreTable[n - 1][answers[n]]
    else TableScore(answers, n - 1)
  }

  /** Against a catalogue shaped like the shipped one, the score of an answer set covering ids 1..`n` is its `ScoreTable` sum. */
  lemma {:induction false} ShapedScore(qs: seq<Question>, answers: map<int, int>, n: nat)
    requires ShapedLikeQuizData(qs) && AnswersInRange(qs, answers) && n <= |qs|
    requires forall id :: 1 <= id <= n ==> id in answers
    ensures ScoreUpTo(qs, answers, answers.Keys, n) == TableScore(answers, n)
  {
    if n > 0 {
      assert qs[n - 1].id == n;
      ShapedScore(qs, answers, n - 1);
      ShapedStep(qs, answers, answers.Keys, n);
    }
  }

  /** `AllTopAnswers` indexes an option of every question of a catalogue shaped like the shipped one. */
  lemma AllTopInRange(qs: seq<Question>)
    requires ShapedLikeQuizData(qs)
    ensures AnswersInRange(qs, AllTopAnswers)
  {
  }

  /** The `ScoreTable` sum of `AllTopAnswers`. */
  lemma AllTopTable()
    ensures TableScore(AllTopAnswers, 10) == 30
  {
  }

  /** The total `AllTopAnswers` scores against a catalogue shaped like the shipped one. */
  lemma AllTopTotal(qs: seq<Question>)
    requires ShapedLikeQuizData(qs)
    ensures AnswersInRange(qs, AllTopAnswers)
    ensures AnsweredScore(qs, AllTopAnswers, AllTopAnswers.Keys) == 30
  {
    AllTopInRange(qs);
    ShapedScore(qs, AllTopAnswers, 10);
    AllTopTable();
  }

  /** All top answers: 30 of 30 points, 100%, "High Readiness". */
  lemma AllTopScenario()
    ensures AnswersInRange(QuizData, AllTopAnswers)
    ensures Evaluate(AllTopAnswers) == QuizResult(30, 100, QuizTiers[2])
  {
    QuizDataScores();
    QuizDataShape();
    AllTopTotal(QuizData);
    var total := AnsweredScore(QuizData, AllTopAnswers, AllTopAnswers.Keys);
    ShippedTier(total);
  }

  /** `MixedAnswers` indexes an option of every question of a catalogue shaped like the shipped one. */
  lemma MixedInRange(qs: seq<Question>)
    requires ShapedLikeQuizData(qs)
    ensures AnswersInRange(qs, MixedAnswers)
  {
  }

  /** The `ScoreTable` sum of `MixedAnswers`. */
  lemma MixedTable()
    ensures TableScore(MixedAnswers, 10) == 15
  {
  }

  /** The total `MixedAnswers` scores against a catalogue shaped like the shipped one. */
  lemma MixedTotal(qs: seq<Question>)
    requires ShapedLikeQuizData(qs)
    ensures AnswersInRange(qs, MixedAnswers)
    ensures AnsweredScore(qs, MixedAnswers, MixedAnswers.Keys) == 15
  {
    MixedInRange(qs);
    ShapedScore(qs, MixedAnswers, 10);
    MixedTable();
  }

  /** Mixed answers totalling 15: 50%, "Developing Readiness". */
  lemma MixedScenario()
    ensures AnswersInRange(QuizData, MixedAnswers)
    ensures Evaluate(MixedAnswers) == QuizResult(15, 50, QuizTiers[1])
  {
    QuizDataScores();
    QuizDataShape();
    MixedTotal(QuizData);
    var total := AnsweredScore(QuizData, MixedAnswers, MixedAnswers.Keys);
    ShippedTier(total);
  }

  /** `AllLastAnswers` indexes an option of every question of a catalogue shaped like the shipped one. */
  lemma AllLastInRange(qs: seq<Question>)
    requires ShapedLikeQuizData(qs)
    ensures AnswersInRange(qs, AllLastAnswers)
  {
  }

  /** The `ScoreTable` sum of `AllLastAnswers`. */
  lemma AllLastTable()
    ensures TableScore(AllLastAnswers, 10) == 1
  {
  }

  /** The total `AllLastAnswers` scores against a catalogue shaped like the shipped one. */
  lemma AllLastTotal(qs: seq<Question>)
    requires ShapedLikeQuizData(qs)
    ensures AnswersInRange(qs, AllLastAnswers)
    ensures AnsweredScore(qs, AllLastAnswers, AllLastAnswers.Keys) == 1
  {
    AllLastInRange(qs);
    ShapedScore(qs, AllLastAnswers, 10);
    AllLastTable();
  }

  /** All lowest answers: 1 point (question 8 has no zero-score option), 3%, "Early Stage". */
  lemma AllLastScenario()
    ensures AnswersInRange(QuizData, AllLastAnswers)
    ensures Evaluate(AllLastAnswers) == QuizResult(1, 3, QuizTiers[0])
  {
    QuizDataScores();
    QuizDataShape();
    AllLastTotal(QuizData);
    var total := AnsweredScore(QuizData, AllLastAnswers, AllLastAnswers.Keys);
    ShippedTier(total);
  }

  /** In the shipped scores every question's lowest option scores 0, except question 8's, which scores 1. */
  lemma ShapedRowMin(qs: seq<Question>, j: nat)
    requires ShapedLikeQuizData(qs) && j < |qs|
    ensures |qs[j].options| > 0
    ensures MinOptionScore(qs[j].options) == if j == 7 then 1 else 0
  {
    var opts := qs[j].options;
    var m := MinOptionScore(opts);
    var o :| 0 <= o < |opts| && m == opts[o].score;
    assert m <= opts[3].score;
  }

  /** The least the first `n` shipped questions add up to: 0 up to question 7, then 1. */
  lemma {:induction false} ShapedMinUpTo(qs: seq<Question>, n: nat)
    requires ShapedLikeQuizData(qs) && ScoresInRange(qs) && n <= |qs|
    ensures MinUpTo(qs, n) == if n <= 7 then 0 else 1
  {
    if n > 0 {
      ShapedMinUpTo(qs, n - 1);
      ShapedRowMin(qs, n - 1);
    }
  }

  /** No complete answer set scores zero: the least complete total is 1. */
  lemma CompleteScoreIsPositive(answers: map<int, int>)
    requires AnswersInRange(QuizData, answers) && Complete(QuizData, answers)
    ensures AnsweredScore(QuizData, answers, answers.Keys) >= 1
  {
    QuizDataShape();
    QuizDataScores();
    CompleteScoreAtLeastMin(QuizData, answers, |QuizData|);
    ShapedMinUpTo(QuizData, |QuizData|);
  }
}
