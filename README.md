# GCR site script: readiness quiz, contact-form rule, slider and progress reader

This project models the logic of the site's `js/main.js`, leaving out the DOM. It covers:

- **The GCR readiness quiz.** The question catalogue and the tier table are modelled as
  constants. The quiz is a state machine: a `Quiz` object holds the current step, the answers
  (question id to option index) and the current view. Its methods are the click handlers of
  the option, Previous, Next, See Results and Retake Assessment controls. Scoring sums the
  chosen options' scores, rounds the percentage of the maximum and picks the first tier whose
  band holds the total, falling back to the first tier.
- **The step indicator.** "Question X of N" is rendered in decimal. A separate reader
  recovers X and N with `/(\d+)\s+of\s+(\d+)/` and `parseInt` to drive the page's progress
  bar. Both the regex search and the greedy runs are modelled exactly, so the round trip
  `ParseIndicator(IndicatorText(step, total)) == Some((step + 1, total))` is a theorem.
- **The contact-form rule.**
  - A required checkbox must be ticked. A required text field must be non-blank after `trim`.
  - A non-blank email must match `^[^\s@]+@[^\s@]+\.[^\s@]+$`.
  - The text after the first `@` (`split('@')[1]`), lower-cased, must not be a generic mail
    domain.
  - The pattern is implemented by scanning and is proved to accept exactly the texts of the
    form `local@host.tld` with every part in `[^\s@]+`.
- **The slider's autoplay step.** `(currentSlide + 1) % slides.length`, with lemmas on where
  repeated ticks lead.

The modules are:

- `Wrappers` (`Option`).
- `QuizCatalogue` (data).
- `QuizScoring` (the score, percentage and tier functions, and the `ComputeTotal` /
  `ComputeResult` loops).
- `QuizEngine` (the `Quiz` class).
- `JsText` (`\d`, `\s`, `parseInt`, number-to-string, `toLowerCase`).
- `StepIndicator`.
- `ContactForm`.
- `Slider`.

Question 8 (js/main.js:410-419) has no zero-score option. Every complete answer set therefore
scores at least 1 point (`CompleteScoreIsPositive`), and answering every question with its
last option gives 1 point, 3%, "Early Stage" (`AllLastScenario`).

## Model

| member | source | states |
|---|---|---|
| QuizCatalogue.QuizDataShape | js/main.js:335-440 | The catalogue has ten questions with ids 1..10 in order, four options each, pairwise distinct ids and every score within 0..3. |
| QuizCatalogue.QuizDataScores | js/main.js:339-440 | The catalogue's option scores are those of `ScoreTable`, question by question (question 8 scores 3, 2, 2, 1; every other question 3, 2, 1, 0). |
| QuizScoring.FindQuestion | js/main.js:566 | `QUIZ_DATA.find` by id: `None` exactly when no question has the id; otherwise the first question carrying it. |
| QuizScoring.ScoreNoKeys | js/main.js:564-570 | With no answers the total is 0. |
| QuizScoring.ScoreIgnoresUnknownId | js/main.js:566-569 | An answer key that names no question adds nothing to the total. |
| QuizScoring.ScoreAddsFoundScore | js/main.js:565-569 | Adding one more answered id adds exactly the score of that question's chosen option, so the total does not depend on the order of `Object.keys`. |
| QuizScoring.ComputeTotal | js/main.js:564-570 | The loop over the answer keys returns the sum, over the keys, of the chosen option's score of the question found for the key. |
| QuizScoring.ScoreBounds | js/main.js:564-572 | With scores in 0..3, the total lies within 0..3 × number of questions, i.e. 0..`maxScore`. |
| QuizScoring.MinOptionScore | js/main.js:343-438 | The lowest option score of a question: at most every option's score and equal to one of them. |
| QuizScoring.CompleteScoreAtLeastMin | js/main.js:564-570 | When every question is answered, the total is at least the sum of each question's lowest option score. |
| QuizScoring.CompleteScoreIsPositive | js/main.js:410-419 | Every complete answer set of the shipped catalogue scores at least 1, because question 8 has no zero-score option. |
| QuizScoring.RoundedPercentage | js/main.js:572-573 | `Math.round(total / maxScore * 100)`: the result is the integer nearest to `100 * total / maxScore`, with halves rounded up. |
| QuizScoring.PercentageBounds | js/main.js:572-573 | A total within 0..`maxScore` gives a percentage within 0..100; 0 points give 0% and full marks give 100%. |
| QuizScoring.FindTier | js/main.js:576-577 | `QUIZ_TIERS.find`: `None` exactly when no band holds the total; otherwise the first tier whose band holds it. |
| QuizScoring.SelectTier | js/main.js:576-578 | The tier is a band holding the total whenever one exists, and `QUIZ_TIERS[0]` when none does. |
| QuizScoring.LaterBandsAbove | js/main.js:443-462 | In a table of adjacent bands, every later band lies wholly above every earlier one. |
| QuizScoring.ContiguousCovers | js/main.js:443-462 | Adjacent bands from `lo` to `hi` cover every total in `lo..hi`. |
| QuizScoring.ContiguousPartition | js/main.js:576-578 | Adjacent bands hold each total in `lo..hi` in exactly one tier, and the selected tier holds the total. |
| QuizScoring.QuizTiersPartitionScores | js/main.js:443-462 | The shipped bands 0-10, 11-20 and 21-30 hold every possible total in exactly one tier, so the fallback is never taken. |
| QuizScoring.ShippedTier | js/main.js:443-462 | Totals 0..10 get "Early Stage", 11..20 "Developing Readiness", and 21..30 "High Readiness". |
| QuizScoring.Evaluate | js/main.js:562-578 | The result shown for an answer set: a total within 0..`maxScore`, a percentage within 0..100 that is 0% for no points and 100% for full marks, and a shipped tier whose band holds the total. |
| QuizScoring.ComputeResult | js/main.js:562-578 | The result is the total, rounded percentage and tier of `Evaluate`, with the total in 0..30, the percentage in 0..100, and a shipped tier whose band holds the total. |
| QuizScoring.ShapedScore | js/main.js:564-570 | For a catalogue with the shipped ids and scores, the total of answers to questions 1..n is their `ScoreTable` sum. |
| QuizScoring.AllTopTotal | js/main.js:564-570 | Choosing every question's first option scores 30. |
| QuizScoring.AllTopScenario | js/main.js:562-578 | Every first option: 30 points, 100%, "High Readiness". |
| QuizScoring.MixedTotal | js/main.js:564-570 | The mixed answer set (first option on 1-4, second on 5, last on 6-10) scores 15. |
| QuizScoring.MixedScenario | js/main.js:562-578 | That mixed answer set gives 15 points, 50%, "Developing Readiness". |
| QuizScoring.AllLastTotal | js/main.js:564-570 | Choosing every question's last option scores 1. |
| QuizScoring.AllLastScenario | js/main.js:562-578 | Every last option: 1 point, 3%, "Early Stage". |
| QuizEngine.Quiz.constructor | js/main.js:464-474 | `initQuiz`: step 0, no answers, question view; the state invariant holds. |
| QuizEngine.Quiz.SelectOption | js/main.js:517-527 | Clicking a rendered option of the current question records its index under the question's id, replacing an earlier choice and keeping every other answer; outside the question view, or for an index that is not an option, nothing changes. |
| QuizEngine.Quiz.Previous | js/main.js:530-536 | From step > 0, Previous moves back one step and keeps the answers; at step 0 (no button) nothing changes. |
| QuizEngine.Quiz.Next | js/main.js:538-548 | Before the last step, Next moves forward only when the current question is answered and otherwise reports the "Please select an answer" alert; at the last step (no Next button) nothing changes. |
| QuizEngine.Quiz.Submit | js/main.js:550-559 | At the last step, See Results shows `Evaluate(answers)` once the current question is answered, and otherwise reports the alert; elsewhere nothing changes. |
| QuizEngine.Quiz.Restart | js/main.js:601-608 | Retake Assessment, offered only in the result view, returns to step 0 with no answers; elsewhere nothing changes. |
| QuizEngine.ResultOfCompleteAnswers | js/main.js:562-578 | A result view shows a total within 1..30, a percentage within 0..100, and the tier whose band holds the total. |
| JsText.Run | js/main.js:789 | A greedy run of a character class: every character in the run is in the class, and the next one is not. |
| JsText.RunOfPrefix | js/main.js:789 | A run of class characters followed by a non-class character (or by nothing) is measured exactly. |
| JsText.ParseDecimal | js/main.js:791-792 | `parseInt` of a digit string is its base-ten value, which is below ten to the number of digits. |
| JsText.NumberToString | js/main.js:484 | Numbers are rendered in decimal: non-empty, all digits, no leading zero, and `parseInt` reads back the number. |
| JsText.ToLowerCase | js/main.js:676 | `toLowerCase` keeps the length and lower-cases each character. |
| StepIndicator.IndicatorText | js/main.js:484 | The indicator text is "Question " + a + " of " + b, where a and b are the decimal forms (digits only, no leading zero, read back by `parseInt`) of step + 1 and of total. |
| StepIndicator.Leftmost | js/main.js:789 | The leftmost search of `match` for an anchored matcher: no result exactly when the matcher fails at every position; otherwise the matcher's result at the first position where it succeeds. |
| StepIndicator.ParseIndicator | js/main.js:789-792 | `textContent.match(/(\d+)\s+of\s+(\d+)/)` read by `parseInt`: no result exactly when the pattern matches at no position; otherwise the two numbers of the match at the leftmost position. |
| StepIndicator.SkipNonDigits | js/main.js:789 | A prefix without digits cannot start a match: the leftmost search skips it. |
| StepIndicator.SpacedNumberReadsDigits | js/main.js:789-791 | `\s+(\d+)` on a space and a digit string reads that digit string's value. |
| StepIndicator.OfNumberOf | js/main.js:789 | After " of", the rest of the pattern is `\s+(\d+)` on what follows. |
| StepIndicator.OfNumberReadsDigits | js/main.js:789-792 | `\s+of\s+(\d+)` on " of " and a digit string reads that string's value. |
| StepIndicator.MatchNumbers | js/main.js:789-792 | `digits of digits` matches at its start with both values. |
| StepIndicator.IndicatorRoundTrip | js/main.js:789-792 | Reading back the "Question X of N" text rendered at js/main.js:484 with the progress regex and `parseInt` gives exactly (step + 1, total). |
| ContactForm.IsBlank | js/main.js:661-669 | `value.trim()` is empty exactly when the leading run of white space that `trim` strips is the whole value. |
| ContactForm.IndexOf | js/main.js:676 | The first position of a character, or the length when there is none. |
| ContactForm.EmailPatternTest | js/main.js:670-671 | An accepted value is not blank, does not start with `@`, and has no `@` other than its first. |
| ContactForm.SecondAtField | js/main.js:676 | `split('@')[1]` is the longest text without `@` that starts right after the first `@`: it is followed by the next `@` or by the end. |
| ContactForm.InnerDotDomain | js/main.js:670 | A text with an inner dot and no white space or `@` is of the form `host.tld` with both parts in `[^\s@]+`. |
| ContactForm.DomainHasInnerDot | js/main.js:670 | Every `host.tld` has an inner dot. |
| ContactForm.AtSplit | js/main.js:676 | In `local@domain` with no other `@`, `split('@')[1]` is `domain`. |
| ContactForm.PatternTestSound | js/main.js:670-671 | Whatever the scanning test accepts is `local@host.tld` with all parts in `[^\s@]+`. |
| ContactForm.DomainChars | js/main.js:670 | No character of `host.tld` is white space or `@`. |
| ContactForm.PatternTestComplete | js/main.js:670-676 | Every `local@host.tld` passes the scanning test, is non-blank, and has `host.tld` as `split('@')[1]`. |
| ContactForm.EmailPatternTestCorrect | js/main.js:670-671 | The scanning test accepts exactly what `^[^\s@]+@[^\s@]+\.[^\s@]+$` accepts. |
| ContactForm.CheckEmail | js/main.js:667-682 | The email rule: Blank iff the value is all white space. BadFormat iff it is non-blank and does not match the pattern. GenericDomain iff it matches with a domain whose lower case is in the generic list. Corporate iff it matches with any other domain. |
| ContactForm.VerdictOfParts | js/main.js:670-681 | `local@host.tld` from parts in `[^\s@]+` passes the pattern, and its verdict depends only on whether its lower-cased domain is generic. |
| ContactForm.LettersArePart | js/main.js:670 | A non-empty run of ASCII letters is in `[^\s@]+`. |
| ContactForm.ExampleParts | js/main.js:670-681 | The verdict of an all-letter `local@host.tld` is decided by its lower-cased domain. |
| ContactForm.GenericDomainExample | js/main.js:676-680 | "Ann@Mail.RU", given as its parts "Ann", "Mail" and "RU", is refused as a generic domain: case does not matter. |
| ContactForm.CorporateExample | js/main.js:676-680 | "Ann@Gmail.ru", given as its parts, is accepted: only exact generic domains are refused. |
| ContactForm.KelvinSignExample | js/main.js:676-680 | In "Ann@" + "outloo" + KELVIN SIGN + ".com", the domain lower-cases to "outlook.com" and is refused. |
| ContactForm.MissingDotExample | js/main.js:670-673 | "Ann@mail" fails the pattern. |
| ContactForm.BlankExample | js/main.js:669 | A value of only white space is left to the required-field check. |
| ContactForm.ValidateContactForm | js/main.js:642-685 | Every required field that is not filled is flagged, in order, and no other. The email message is the rule's message for a non-blank email. The form is valid iff every required field is filled and the email, if present, is blank or corporate. |
| Slider.NextSlide | js/main.js:240-261 | The next slide is a valid index and differs from the current one: the following slide, or the first after the last. |
| Slider.AfterTicks | js/main.js:260-263 | After any number of autoplay ticks, the shown slide is a valid index. |
| Slider.AfterTicksWithinLap | js/main.js:260-263 | Within one lap, `ticks` ticks move forward `ticks` places, wrapping once past the last slide. |
| Slider.AfterTicksCompose | js/main.js:260-263 | `a` ticks then `b` ticks equal `a + b` ticks. |
| Slider.AutoplayCycles | js/main.js:260-263 | Autoplay reaches every slide within one lap and repeats with period `slides.length`. |

## Left out

- DOM rendering, CSS classes, `innerHTML`, `alert` and event binding are not modelled. Each
  handler is a `Quiz` method, and an alert is an `Outcome` value (`NeedsAnswer`, with its
  text as `NeedsAnswerMessage`).
- `showFieldError` is not modelled. The contact form's result is the list of flagged field
  positions and the email message. The hidden form and the success panel are not modelled.
- Timers (`setInterval`, `setTimeout`), the score-bar animation, the fetched redirect table,
  the cookie banner, scroll geometry and the `MutationObserver` wiring are left out. The
  progress-bar reader is modelled only as the text parser (`ParseIndicator`). The bar's
  floating-point widths (`step / total * 100`) are left out.
- QuizEngine.Quiz.Restart resets the same object in place; the source builds a fresh
  `{ currentStep: 0, answers: {} }` object. The observable state is the same.
- QuizScoring.ComputeTotal requires every recorded answer to index an option of its
  question. In the source, an out-of-range index would throw a TypeError; the quiz's handlers
  only ever record rendered indices (`Quiz.Valid` keeps this).
- QuizScoring.ComputeTotal visits the keys in an arbitrary order rather than `Object.keys`
  order. The sum does not depend on the order (`ScoreAddsFoundScore`).
- QuizScoring.RoundedPercentage uses exact rational arithmetic for `Math.round` of a
  floating-point quotient. With a maximum of 30, `100 * total / 30` is never within a
  rounding error of a half, so the two agree.
- JsText.ParseDecimal does not model `parseInt`'s loss of precision beyond 2^53. The
  indicator's numbers are at most 11.
- JsText.ToLowerCase changes only A-Z and U+212A KELVIN SIGN, the one non-ASCII character
  whose lower case is ASCII. Every other character is kept. Its JavaScript lower case is not
  ASCII either, so comparisons against the ASCII generic-domain list are the same as in the
  source. The lower-cased strings themselves can differ.
- Slider.NextSlide does not model dot clicks (`showSlide(i)` for any dot). They only set the
  current slide to another valid index, which `NextSlide` accepts as its start.
