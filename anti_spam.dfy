/**
 * scripts/anti-spam.js: the question-and-answer challenge shown with the
 * contact form, the bot-behaviour checks and the tracker that records the
 * visitor's first interactions. `Date.now()` is the parameter `now`,
 * `Math.random()` the parameter `random`, and the `window` globals the tracker
 * writes are fields of `InteractionTracker`.
 */
module AntiSpam {
  import opened Js

  /** One entry of the challenge bank. */
  datatype Challenge = Challenge(question: string, answer: string, kind: string)

  /** The seven challenges of the constructor, in order. */
  const Bank: seq<Challenge> := [
    Challenge("\U{00BF}Cu\U{00E1}nto es 5 + 3?", "8", "math"),
    Challenge("\U{00BF}Cu\U{00E1}l es la capital de Honduras?", "tegucigalpa", "knowledge"),
    Challenge("Escribe la palabra 'HUMANO' en min\U{00FA}sculas:", "humano", "text"),
    Challenge("\U{00BF}En qu\U{00E9} a\U{00F1}o estamos? (4 d\U{00ED}gitos)", "2025", "current"),
    Challenge("\U{00BF}Cu\U{00E1}ntas letras tiene la palabra 'PORTFOLIO'?", "9", "count"),
    Challenge("\U{00BF}Cu\U{00E1}l es el resultado de 12 - 7?", "5", "math"),
    Challenge("Completa: DevOps es una metodolog\U{00ED}a de _____ (desarrollo)", "desarrollo", "tech")
  ]

  /** Answers must come at least this many milliseconds after the challenge was generated. */
  const MinResponseTime := 2000
  /** A form filled in less than this many milliseconds is suspicious. */
  const MinFillTime := 5000

  /** `Math.floor(random * challenges.length)` for a `random` in [0, 1). */
  function RandomIndex(random: real): (i: int)
    requires 0.0 <= random < 1.0
    ensures 0 <= i < |Bank|
  {
    (random * (|Bank| as real)).Floor
  }

  /** Every challenge can be drawn: the value `i / 7` selects entry `i`. */
  lemma EveryChallengeReachable(i: int)
    requires 0 <= i < |Bank|
    ensures 0.0 <= i as real / |Bank| as real < 1.0
    ensures RandomIndex(i as real / |Bank| as real) == i
  {
  }

  /** `s.toLowerCase().trim()`, the comparison key of both answers. */
  function Normalize(s: string): string {
    Trim(Lower(s))
  }

  /** A comparison key has no capitals and no surrounding whitespace. */
  lemma NormalizeShape(s: string)
    ensures Trimmed(Normalize(s)) && HasNoUpper(Normalize(s))
  {
    var l := Lower(s);
    LowerFixes(s);
    TrimIdempotent(l);
    TrimSlice(l);
    SliceHasNoUpper(l, |l| - |TrimStart(l)|, |Trim(l)|);
  }

  /** Normalizing twice is the same as normalizing once. */
  lemma NormalizeIdempotent(s: string)
    ensures Normalize(Normalize(s)) == Normalize(s)
  {
    var n := Normalize(s);
    NormalizeShape(s);
    LowerFixes(n);
    TrimOfTrimmed(n);
  }

  /**
   * Whitespace padding and capitals do not change the comparison key of an
   * answer: any `x` that lower-cases like the trimmed `core` (plain, all
   * capitals or mixed) normalizes like it once padded with whitespace.
   */
  lemma NormalizeIgnoresCaseAndPadding(pre: string, x: string, core: string, post: string)
    requires AllWhitespace(pre) && AllWhitespace(post) && Trimmed(core)
    requires Lower(x) == Lower(core)
    ensures Normalize(pre + x + post) == Normalize(core)
  {
    var l := Lower(core);
    LowerSplits(pre, x, post);
    LowerSplits(post, [], []);
    assert Lower(pre + x + post) == pre + l + post;
    assert Trimmed(l) by {
      if l != [] {
        assert l[0] == LowerChar(core[0]) && l[|l| - 1] == LowerChar(core[|core| - 1]);
      }
    }
    TrimPadded(pre, l, post);
    TrimOfTrimmed(l);
  }

  /** The expected answer itself, and its capitalised forms, lower-case like it. */
  lemma CaseVariants(core: string)
    ensures Lower(Upper(core)) == Lower(core)
    ensures |core| > 0 ==> Lower([UpperChar(core[0])] + core[1..]) == Lower(core)
  {
    LowerOfUpper(core);
  }

  /** A non-empty word of lower-case ASCII letters and digits. */
  predicate Word(a: string) {
    a != [] && forall k :: 0 <= k < |a| ==> 'a' <= a[k] <= 'z' || '0' <= a[k] <= '9'
  }

  /** A word is its own comparison key. */
  lemma WordNormalized(a: string)
    requires Word(a)
    ensures Trimmed(a) && Normalize(a) == a
  {
    assert HasNoUpper(a);
    LowerFixes(a);
    assert !IsWhitespace(a[0]) && !IsWhitespace(a[|a| - 1]);
    TrimOfTrimmed(a);
  }

  /** Every expected answer of the bank is a word. */
  lemma BankAnswersAreWords(i: int)
    requires 0 <= i < |Bank|
    ensures Word(Bank[i].answer)
  {
    var a := Bank[i].answer;
    if i == 0 { assert a == "8"; }
    else if i == 1 { assert a == "tegucigalpa"; }
    else if i == 2 { assert a == "humano"; }
    else if i == 3 { assert a == "2025"; }
    else if i == 4 { assert a == "9"; }
    else if i == 5 { assert a == "5"; }
    else { assert a == "desarrollo"; }
  }

  /** Every expected answer of the bank is its own comparison key. */
  lemma BankAnswersNormalized(i: int)
    requires 0 <= i < |Bank|
    ensures Bank[i].answer != "" && Trimmed(Bank[i].answer)
    ensures Normalize(Bank[i].answer) == Bank[i].answer
  {
    BankAnswersAreWords(i);
    WordNormalized(Bank[i].answer);
  }

  /**
   * The answer check of `validateAnswer` on the protection's values: the
   * current challenge, the time it was shown, the answer (`None`: missing)
   * and the time `now`. It refuses a missing challenge or answer and any
   * answer given within two seconds, and otherwise compares normalized forms.
   */
  function AnswerAccepted(challenge: Option<Challenge>, startTime: int, answer: Option<string>, now: int): (ok: bool)
    ensures challenge.None? || answer.None? || answer == Some("") ==> !ok
    ensures now - startTime < MinResponseTime ==> !ok
    ensures challenge.Some? && answer.Some? && answer.value != "" && now - startTime >= MinResponseTime ==>
      (ok <==> Normalize(answer.value) == Normalize(challenge.value.answer))
  {
    if challenge.None? || answer.None? || answer.value == "" then false
    else if now - startTime < MinResponseTime then false
    else Normalize(answer.value) == Normalize(challenge.value.answer)
  }

  /** The state `AntiSpamProtection` keeps about the current challenge. */
  class AntiSpamProtection {
    var currentChallenge: Option<Challenge>
    var startTime: int

    /** `constructor()` and `init()`: a first challenge is drawn at once. */
    constructor (random: real, now: int)
      requires 0.0 <= random < 1.0
      ensures currentChallenge == Some(Bank[RandomIndex(random)]) && startTime == now
    {
      currentChallenge := Some(Bank[RandomIndex(random)]);
      startTime := now;
    }

    /** `generateNewChallenge()`: draw a bank entry and restart the response clock. */
    method GenerateNewChallenge(random: real, now: int) returns (c: Challenge)
      requires 0.0 <= random < 1.0
      modifies this
      ensures c in Bank && c == Bank[RandomIndex(random)]
      ensures currentChallenge == Some(c) && startTime == now
    {
      c := Bank[RandomIndex(random)];
      currentChallenge := Some(c);
      startTime := now;
    }

    /**
     * `validateAnswer(userAnswer)` at time `now`. `None` stands for a missing
     * answer (`undefined` or `null`).
     */
    function ValidateAnswer(answer: Option<string>, now: int): bool
      reads this
    {
      AnswerAccepted(currentChallenge, startTime, answer, now)
    }

    /**
     * `getChallengeHTML()`: a challenge exists afterwards, drawn only when
     * there was none; the result is the question the markup displays.
     */
    method GetChallengeQuestion(random: real, now: int) returns (question: string)
      requires 0.0 <= random < 1.0
      modifies this
      ensures currentChallenge.Some? && question == currentChallenge.value.question
      ensures old(currentChallenge).Some? ==>
        currentChallenge == old(currentChallenge) && startTime == old(startTime)
      ensures old(currentChallenge).None? ==>
        currentChallenge == Some(Bank[RandomIndex(random)]) && startTime == now
    {
      if currentChallenge.None? {
        var _ := GenerateNewChallenge(random, now);
      }
      question := currentChallenge.value.question;
    }
  }

  /**
   * After the response delay, an answer that differs from a trimmed, non-empty
   * expected answer only in capitals and surrounding whitespace is accepted:
   * `x` is any spelling that lower-cases like the expected answer.
   */
  lemma ExpectedAnswerAccepted(c: Challenge, startTime: int, pre: string, x: string, post: string, now: int)
    requires c.answer != "" && Trimmed(c.answer)
    requires AllWhitespace(pre) && AllWhitespace(post) && Lower(x) == Lower(c.answer)
    requires now - startTime >= MinResponseTime
    ensures AnswerAccepted(Some(c), startTime, Some(pre + x + post), now)
  {
    NormalizeIgnoresCaseAndPadding(pre, x, c.answer, post);
    assert |x| == |Lower(x)| == |c.answer|;
    assert |pre + x + post| >= |c.answer| > 0;
  }

  /** The same for the protection's current challenge, drawn from the bank. */
  lemma AcceptsExpectedAnswer(p: AntiSpamProtection, i: int, pre: string, x: string, post: string, now: int)
    requires 0 <= i < |Bank| && p.currentChallenge == Some(Bank[i])
    requires AllWhitespace(pre) && AllWhitespace(post) && Lower(x) == Lower(Bank[i].answer)
    requires now - p.startTime >= MinResponseTime
    ensures p.ValidateAnswer(Some(pre + x + post), now)
  {
    BankAnswersNormalized(i);
    ExpectedAnswerAccepted(Bank[i], p.startTime, pre, x, post, now);
  }

  // ---------------------------------------------------------------------------
  // Bot behaviour

  /** `window.formFillStartTime` is truthy: set, and not zero. */
  predicate StartRecorded(start: Option<int>) {
    start.Some? && start.value != 0
  }

  /** `checkFillSpeed()`: whether less than five seconds passed since the form was first focused. */
  function CheckFillSpeed(start: Option<int>, now: int): (suspicious: bool)
    ensures !StartRecorded(start) ==> suspicious
    ensures StartRecorded(start) ==> (suspicious <==> now - start.value < MinFillTime)
  {
    var formFillStart := if StartRecorded(start) then start.value else now;
    now - formFillStart < MinFillTime
  }

  /** The words of `/bot|crawler|spider|scraper|headless/i`. */
  const BotWords: seq<string> := ["bot", "crawler", "spider", "scraper", "headless"]

  /** The case-insensitive user-agent test. */
  function SuspiciousUserAgent(userAgent: string): (r: bool)
    ensures r <==> exists i :: 0 <= i < |BotWords| && Contains(Lower(userAgent), BotWords[i])
  {
    ContainsAny(Lower(userAgent), BotWords)
  }

  /** The record `detectBotBehavior()` returns. */
  datatype BotChecks = BotChecks(
    suspiciousUserAgent: bool,
    webdriverPresent: bool,
    hasUserInteraction: bool,
    fillSpeedSuspicious: bool,
    jsEnabled: bool)

  /**
   * `detectBotBehavior()`: `webdriver` is `navigator.webdriver === true`, and
   * `userHasInteracted` and `formFillStart` are the window globals.
   */
  function DetectBotBehavior(userAgent: string, webdriver: bool, userHasInteracted: bool,
                             formFillStart: Option<int>, now: int): (r: BotChecks)
    ensures r.suspiciousUserAgent == SuspiciousUserAgent(userAgent)
    ensures r.webdriverPresent == webdriver && r.hasUserInteraction == userHasInteracted
    ensures r.fillSpeedSuspicious == CheckFillSpeed(formFillStart, now)
    ensures r.jsEnabled
  {
    BotChecks(SuspiciousUserAgent(userAgent), webdriver, userHasInteracted,
              CheckFillSpeed(formFillStart, now), true)
  }

  /** A crawler's user agent is caught whatever its capitals. */
  lemma GooglebotSuspicious()
    ensures SuspiciousUserAgent("Mozilla/5.0 (compatible; Googlebot/2.1)")
  {
    var l := Lower("Mozilla/5.0 (compatible; Googlebot/2.1)");
    assert l[31..34] == "bot";
    ContainsAt(l, "bot", 31);
    assert BotWords[0] == "bot";
  }

  /** `userInteractionTracker` and the two window globals its listeners set. */
  class InteractionTracker {
    var hasScrolled: bool
    var hasMovedMouse: bool
    var hasTyped: bool
    /** `window.userHasInteracted`. */
    var userHasInteracted: bool
    /** `window.formFillStartTime`. */
    var formFillStartTime: Option<int>

    /** Some interaction was seen exactly when one of the listeners fired. */
    ghost predicate Valid()
      reads this
    {
      userHasInteracted <==> hasScrolled || hasMovedMouse || hasTyped
    }

    constructor ()
      ensures Valid()
      ensures !hasScrolled && !hasMovedMouse && !hasTyped && !userHasInteracted
      ensures formFillStartTime == None
    {
      hasScrolled, hasMovedMouse, hasTyped := false, false, false;
      userHasInteracted := false;
      formFillStartTime := None;
    }

    method OnScroll()
      requires Valid()
      modifies this
      ensures Valid() && hasScrolled && userHasInteracted
      ensures hasMovedMouse == old(hasMovedMouse) && hasTyped == old(hasTyped)
      ensures formFillStartTime == old(formFillStartTime)
    {
      hasScrolled := true;
      userHasInteracted := true;
    }

    method OnMouseMove()
      requires Valid()
      modifies this
      ensures Valid() && hasMovedMouse && userHasInteracted
      ensures hasScrolled == old(hasScrolled) && hasTyped == old(hasTyped)
      ensures formFillStartTime == old(formFillStartTime)
    {
      hasMovedMouse := true;
      userHasInteracted := true;
    }

    method OnKeyDown()
      requires Valid()
      modifies this
      ensures Valid() && hasTyped && userHasInteracted
      ensures hasScrolled == old(hasScrolled) && hasMovedMouse == old(hasMovedMouse)
      ensures formFillStartTime == old(formFillStartTime)
    {
      hasTyped := true;
      userHasInteracted := true;
    }

    /** A form field gains focus: the start time is recorded only if none is recorded yet. */
    method OnFocus(now: int)
      modifies this
      ensures StartRecorded(old(formFillStartTime)) ==> formFillStartTime == old(formFillStartTime)
      ensures !StartRecorded(old(formFillStartTime)) ==> formFillStartTime == Some(now)
      ensures hasScrolled == old(hasScrolled) && hasMovedMouse == old(hasMovedMouse)
      ensures hasTyped == old(hasTyped) && userHasInteracted == old(userHasInteracted)
    {
      if !StartRecorded(formFillStartTime) {
        formFillStartTime := Some(now);
      }
    }
  }
}
