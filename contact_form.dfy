/**
 * scripts/contact-form.js: the `ContactForm` submission pipeline. A submission
 * passes five gates in a fixed order (honeypot, challenge answer, bot checks,
 * field validation, rate limit) before the message is handed to the email
 * service; the outcome of that call is an input here.
 */
module ContactFormModel {
  import opened Js
  import opened AntiSpam

  // ---------------------------------------------------------------------------
  // Rate limit

  /** The localStorage key of the last successful submission time. */
  const RateKey := "lastFormSubmission"
  /** Milliseconds that must pass between two submissions. */
  const Cooldown := 30000

  /**
   * `checkRateLimit()`: with the stored text `last` (absent: `None`) and the
   * time `now`. A record that is empty or does not parse as a number never
   * blocks, because `now - NaN < 30000` is false.
   */
  function CheckRateLimit(last: Option<string>, now: int): (allowed: bool)
    ensures last.None? || last == Some("") ==> allowed
    ensures last.Some? && ParseInt(last.value).None? ==> allowed
    ensures !allowed <==> last.Some? && ParseInt(last.value).Some? && now - ParseInt(last.value).value < Cooldown
  {
    if last.Some? && last.value != "" && ParseInt(last.value).Some?
       && now - ParseInt(last.value).value < Cooldown
    then false
    else true
  }

  function Stored(storage: map<string, string>, key: string): Option<string> {
    if key in storage then Some(storage[key]) else None
  }

  /**
   * After a submission recorded at time `t`, another one is allowed exactly
   * when at least 30 seconds have passed; in particular every `now` in
   * `[t, t + 30000)` is refused.
   */
  lemma RateLimitWindow(storage: map<string, string>, t: nat, now: int)
    ensures CheckRateLimit(Stored(storage[RateKey := DecimalString(t)], RateKey), now) <==> now >= t + Cooldown
  {
    ParseIntDecimal(t);
    assert Stored(storage[RateKey := DecimalString(t)], RateKey) == Some(DecimalString(t));
    assert DecimalString(t) != "";
  }

  // ---------------------------------------------------------------------------
  // Email shape

  /** A character `[^\s@]` matches. */
  predicate PlainChar(c: char) {
    !IsWhitespace(c) && c != '@'
  }

  predicate Plain(t: string) {
    forall k :: 0 <= k < |t| ==> PlainChar(t[k])
  }

  /**
   * What `^[^\s@]+@[^\s@]+\.[^\s@]+$` accepts, read off the pattern: three
   * non-empty runs of `[^\s@]`, the first two separated by `@`, the last two by `.`.
   */
  ghost predicate MatchesEmailPattern(s: string) {
    exists i, j :: 1 <= i && i + 2 <= j && j + 2 <= |s| && s[i] == '@' && s[j] == '.'
      && Plain(s[..i]) && Plain(s[i + 1..j]) && Plain(s[j + 1..])
  }

  /** The test the form applies: one `@` after a non-empty local part, and a dot strictly inside the domain. */
  function EmailShape(s: string): bool {
    var at := IndexOf(s, "@");
    if at < 1 then false
    else
      var d := s[at + 1..];
      |d| >= 3 && Plain(s[..at]) && Plain(d) && '.' in d[1..|d| - 1]
  }

  /** Every character of `s[a..b]` is `[^\s@]`, stated on `s`'s own indices. */
  predicate PlainBetween(s: string, a: int, b: int)
    requires 0 <= a <= b <= |s|
  {
    forall k :: a <= k < b ==> PlainChar(s[k])
  }

  lemma PlainSlice(s: string, a: int, b: int)
    requires 0 <= a <= b <= |s|
    ensures Plain(s[a..b]) <==> PlainBetween(s, a, b)
  {
    if Plain(s[a..b]) {
      forall k | a <= k < b
        ensures PlainChar(s[k])
      {
        assert s[a..b][k - a] == s[k];
      }
    }
  }

  /** The first `@` of `s` is found at `i` when `s[i]` is `@` and no earlier character is. */
  lemma IndexOfAt(s: string, i: int)
    requires 0 <= i < |s| && s[i] == '@'
    requires forall k :: 0 <= k < i ==> s[k] != '@'
    ensures IndexOf(s, "@") == i
  {
    assert s[i..i + 1] == "@";
    ContainsAt(s, "@", i);
    var at := IndexOf(s, "@");
    assert s[at..at + 1][0] == s[at];
    if at > i {
      assert StartsWith(s[i..], "@");
    }
  }

  /** An accepted string matches the pattern. */
  lemma EmailShapeSound(s: string)
    requires EmailShape(s)
    ensures MatchesEmailPattern(s)
  {
    var at := IndexOf(s, "@");
    assert s[at..at + 1][0] == s[at];
    var d := s[at + 1..];
    var m :| 0 <= m < |d| - 2 && d[1..|d| - 1][m] == '.';
    var j := at + 2 + m;
    assert s[j] == d[m + 1];
    PlainSlice(s, at + 1, |s|);
    assert s[at + 1..|s|] == d;
    PlainSlice(s, at + 1, j);
    PlainSlice(s, j + 1, |s|);
    assert s[j + 1..|s|] == s[j + 1..];
    assert 1 <= at && at + 2 <= j && j + 2 <= |s| && s[at] == '@' && s[j] == '.'
      && Plain(s[..at]) && Plain(s[at + 1..j]) && Plain(s[j + 1..]);
  }

  /** A string the pattern matches is accepted. */
  lemma EmailShapeComplete(s: string)
    requires MatchesEmailPattern(s)
    ensures EmailShape(s)
  {
    var i, j :| 1 <= i && i + 2 <= j && j + 2 <= |s| && s[i] == '@' && s[j] == '.'
      && Plain(s[..i]) && Plain(s[i + 1..j]) && Plain(s[j + 1..]);
    MatchAccepted(s, i, j);
  }

  /** The match with its `@` at `i` and its dot at `j` is accepted. */
  lemma MatchAccepted(s: string, i: int, j: int)
    requires 1 <= i && i + 2 <= j && j + 2 <= |s| && s[i] == '@' && s[j] == '.'
    requires Plain(s[..i]) && Plain(s[i + 1..j]) && Plain(s[j + 1..])
    ensures EmailShape(s)
  {
    LocalPartHasNoAt(s, i);
    IndexOfAt(s, i);
    DomainPlain(s, i, j);
    var d := s[i + 1..];
    assert d[j - i - 1] == '.';
    DomainDot(d, j - i - 1);
  }

  lemma LocalPartHasNoAt(s: string, i: int)
    requires 0 <= i <= |s| && Plain(s[..i])
    ensures forall k :: 0 <= k < i ==> s[k] != '@'
  {
    PlainSlice(s, 0, i);
    assert s[0..i] == s[..i];
  }

  /** A dot at `m`, neither first nor last, lies strictly inside. */
  lemma DomainDot(d: string, m: int)
    requires 1 <= m < |d| - 1 && d[m] == '.'
    ensures '.' in d[1..|d| - 1]
  {
    assert d[1..|d| - 1][m - 1] == '.';
  }

  /** The domain part of a match, dot included, is `[^\s@]` throughout. */
  lemma DomainPlain(s: string, i: int, j: int)
    requires 1 <= i && i + 2 <= j && j + 2 <= |s| && s[j] == '.'
    requires Plain(s[i + 1..j]) && Plain(s[j + 1..])
    ensures Plain(s[i + 1..])
  {
    PlainSlice(s, i + 1, j);
    PlainSlice(s, j + 1, |s|);
    assert s[j + 1..|s|] == s[j + 1..];
    assert PlainChar('.');
    assert PlainBetween(s, i + 1, |s|);
    PlainSlice(s, i + 1, |s|);
    assert s[i + 1..|s|] == s[i + 1..];
  }

  /** The check accepts exactly the strings the regular expression matches. */
  lemma EmailShapeMatchesPattern(s: string)
    ensures EmailShape(s) <==> MatchesEmailPattern(s)
  {
    if EmailShape(s) {
      EmailShapeSound(s);
    }
    if MatchesEmailPattern(s) {
      EmailShapeComplete(s);
    }
  }

  // ---------------------------------------------------------------------------
  // Field validation

  datatype Field = Name | Email | Message

  /** The values of the three named inputs, as typed. */
  datatype FormValues = FormValues(name: string, email: string, message: string)

  function ValueOf(form: FormValues, f: Field): string {
    match f
    case Name => form.name
    case Email => form.email
    case Message => form.message
  }

  /** The required fields, in the order they are checked. */
  const RequiredFields: seq<Field> := [Name, Email, Message]

  const ErrorBorder := "#ef4444"
  const InvalidEmailText := "Por favor ingresa un email v\U{00E1}lido."
  const SuspiciousText := "\U{1F6AB} El mensaje contiene contenido sospechoso. Por favor revisa tu mensaje."

  /** A required field is missing when its value is all whitespace, so that `trim` leaves nothing. */
  predicate Blank(form: FormValues, f: Field) {
    AllWhitespace(ValueOf(form, f))
  }

  /** A non-empty email that the email pattern does not match. */
  ghost predicate EmailRejected(form: FormValues) {
    form.email != "" && !MatchesEmailPattern(form.email)
  }

  /** `emailRegex.test(value)`. */
  method TestEmail(value: string) returns (ok: bool)
    ensures ok <==> MatchesEmailPattern(value)
  {
    EmailShapeMatchesPattern(value);
    ok := EmailShape(value);
  }

  /**
   * A non-empty message flagged by the content patterns; `suspicious` is the
   * outcome of testing those patterns.
   */
  predicate ContentRejected(form: FormValues, suspicious: bool) {
    form.message != "" && suspicious
  }

  ghost predicate FormValid(form: FormValues, suspicious: bool) {
    !Blank(form, Name) && !Blank(form, Email) && !Blank(form, Message)
    && !EmailRejected(form) && !ContentRejected(form, suspicious)
  }

  /** The first blank field of `fields`. */
  function FirstBlank(form: FormValues, fields: seq<Field>): Option<Field>
    decreases |fields|
  {
    if fields == [] then None
    else if Blank(form, fields[0]) then Some(fields[0])
    else FirstBlank(form, fields[1..])
  }

  /** The field `validateForm` focuses: the first blank one, else the email, else the message. */
  ghost function FirstError(form: FormValues, suspicious: bool): Option<Field> {
    var b := FirstBlank(form, RequiredFields);
    if b.Some? then b
    else if EmailRejected(form) then Some(Email)
    else if ContentRejected(form, suspicious) then Some(Message)
    else None
  }

  /** The border colour `validateForm` leaves on a field. */
  ghost function Border(form: FormValues, suspicious: bool, f: Field): string {
    if Blank(form, f) || (f == Email && EmailRejected(form)) || (f == Message && ContentRejected(form, suspicious))
    then ErrorBorder
    else ""
  }

  /** The message `validateForm()` shows: the content warning wins over the email one. */
  ghost function FieldsMessage(form: FormValues, suspicious: bool): Option<string> {
    if ContentRejected(form, suspicious) then Some(SuspiciousText)
    else if EmailRejected(form) then Some(InvalidEmailText)
    else None
  }

  /** A form is valid exactly when `validateForm()` leaves no field with the error border. */
  lemma ValidIffNoErrorBorder(form: FormValues, suspicious: bool)
    ensures FormValid(form, suspicious) <==>
      Border(form, suspicious, Name) == "" && Border(form, suspicious, Email) == ""
      && Border(form, suspicious, Message) == ""
  {
  }

  /**
   * `validateForm()` shows a message exactly when the email or the content is
   * rejected, the content warning last and so visible; a form refused only for
   * blank fields shows none.
   */
  lemma FieldsMessageShown(form: FormValues, suspicious: bool)
    ensures FieldsMessage(form, suspicious).Some? <==> EmailRejected(form) || ContentRejected(form, suspicious)
    ensures ContentRejected(form, suspicious) ==> FieldsMessage(form, suspicious) == Some(SuspiciousText)
    ensures FormValid(form, suspicious) ==> FieldsMessage(form, suspicious).None?
  {
  }

  /** What one `validateForm()` call returns and shows. */
  datatype Validation = Validation(
    valid: bool,
    firstError: Option<Field>,
    borders: map<Field, string>,
    shown: Option<string>)

  /** On the required fields, the first blank one is found in the order name, email, message. */
  lemma FirstBlankRequired(form: FormValues)
    ensures FirstBlank(form, RequiredFields) ==
      if Blank(form, Name) then Some(Name)
      else if Blank(form, Email) then Some(Email)
      else if Blank(form, Message) then Some(Message)
      else None
  {
    assert RequiredFields[1..] == [Email, Message];
    assert RequiredFields[1..][1..] == [Message];
    assert RequiredFields[1..][1..][1..] == [];
  }

  /** The form is valid exactly when no field is to be focused. */
  lemma ValidIffNoErrorField(form: FormValues, suspicious: bool)
    ensures FormValid(form, suspicious) <==> FirstError(form, suspicious).None?
  {
    FirstBlankRequired(form);
  }

  /** A blank name is reported first, whatever the other fields hold. */
  lemma BlankNameFirst(form: FormValues, suspicious: bool)
    requires Blank(form, Name)
    ensures FirstError(form, suspicious) == Some(Name) && !FormValid(form, suspicious)
  {
  }

  /** `!value.trim()`: whether a required value counts as missing. */
  method IsMissing(value: string) returns (missing: bool)
    ensures missing <==> AllWhitespace(value)
  {
    TrimEmpty(value);
    missing := Trim(value) == "";
  }

  /**
   * The required-field loop of `validateForm()`: every required field gets the
   * error border when blank and a cleared border otherwise, and the first blank
   * one is remembered.
   */
  method CheckRequired(form: FormValues) returns (firstBlank: Option<Field>, borders: map<Field, string>)
    ensures firstBlank == FirstBlank(form, RequiredFields)
    ensures Name in borders && Email in borders && Message in borders
    ensures forall f :: f in borders ==> borders[f] == (if Blank(form, f) then ErrorBorder else "")
  {
    firstBlank := None;
    borders := map[];
    for n := 0 to |RequiredFields|
      invariant firstBlank == FirstBlank(form, RequiredFields[..n])
      invariant forall k :: 0 <= k < n ==> RequiredFields[k] in borders
      invariant forall f :: f in borders ==> borders[f] == (if Blank(form, f) then ErrorBorder else "")
    {
      var f := RequiredFields[n];
      assert RequiredFields[..n + 1] == RequiredFields[..n] + [f];
      FirstBlankAppend(form, RequiredFields[..n], f);
      var missing := IsMissing(ValueOf(form, f));
      if missing {
        borders := borders[f := ErrorBorder];
        if firstBlank.None? {
          firstBlank := Some(f);
        }
      } else {
        borders := borders[f := ""];
      }
    }
    assert RequiredFields[..|RequiredFields|] == RequiredFields;
    assert RequiredFields[0] == Name && RequiredFields[1] == Email && RequiredFields[2] == Message;
    assert Name in borders && Email in borders && Message in borders;
  }

  /** `validateForm()` over the three values; `suspicious` is the content-pattern verdict. */
  method ValidateForm(form: FormValues, suspicious: bool) returns (v: Validation)
    ensures v.valid <==> FormValid(form, suspicious)
    ensures v.firstError == FirstError(form, suspicious)
    ensures Name in v.borders && v.borders[Name] == Border(form, suspicious, Name)
    ensures Email in v.borders && v.borders[Email] == Border(form, suspicious, Email)
    ensures Message in v.borders && v.borders[Message] == Border(form, suspicious, Message)
    ensures v.shown == FieldsMessage(form, suspicious)
  {
    var firstError, borders := CheckRequired(form);
    FirstBlankRequired(form);
    var shown: Option<string> := None;
    var emailOk := TestEmail(form.email);
    if form.email != "" && !emailOk {
      borders := borders[Email := ErrorBorder];
      shown := Some(InvalidEmailText);
      if firstError.None? {
        firstError := Some(Email);
      }
    }
    if form.message != "" && suspicious {
      shown := Some(SuspiciousText);
      borders := borders[Message := ErrorBorder];
      if firstError.None? {
        firstError := Some(Message);
      }
    }
    v := Validation(firstError.None?, firstError, borders, shown);
  }

  lemma {:induction false} FirstBlankAppend(form: FormValues, fields: seq<Field>, f: Field)
    ensures FirstBlank(form, fields + [f]) ==
      if FirstBlank(form, fields).Some? then FirstBlank(form, fields)
      else if Blank(form, f) then Some(f) else None
    decreases |fields|
  {
    if fields == [] {
      assert fields + [f] == [f];
      assert [f][1..] == [];
    } else {
      assert (fields + [f])[1..] == fields[1..] + [f];
      FirstBlankAppend(form, fields[1..], f);
    }
  }

  // ---------------------------------------------------------------------------
  // Submission

  /** The gates of `handleSubmit`, in the order they run. */
  datatype Gate = Honeypot | Captcha | BotCheck | Fields | RateLimit

  /** The first gate that refuses, or `None` when all five let the submission through. */
  function FirstFailingGate(honeypotTripped: bool, answerOk: bool, botSuspected: bool,
                            formValid: bool, rateOk: bool): (g: Option<Gate>)
    ensures g.None? <==> !honeypotTripped && answerOk && !botSuspected && formValid && rateOk
    ensures honeypotTripped ==> g == Some(Honeypot)
    ensures g == Some(Captcha) <==> !honeypotTripped && !answerOk
    ensures g == Some(BotCheck) <==> !honeypotTripped && answerOk && botSuspected
    ensures g == Some(Fields) <==> !honeypotTripped && answerOk && !botSuspected && !formValid
    ensures g == Some(RateLimit) ==> !honeypotTripped && answerOk && !botSuspected && formValid && !rateOk
  {
    if honeypotTripped then Some(Honeypot)
    else if !answerOk then Some(Captcha)
    else if botSuspected then Some(BotCheck)
    else if !formValid then Some(Fields)
    else if !rateOk then Some(RateLimit)
    else None
  }

  /** The honeypot input exists and holds something. */
  predicate HoneypotTripped(honeypot: Option<string>) {
    honeypot.Some? && honeypot.value != ""
  }

  /** The bot checks that block: a crawler user agent, a webdriver, or no interaction yet. */
  predicate BotSuspected(b: BotChecks) {
    b.suspiciousUserAgent || b.webdriverPresent || !b.hasUserInteraction
  }

  /**
   * The bot gate blocks exactly for a crawler user agent, a webdriver or a
   * visitor who has not interacted yet; the fill speed that
   * `detectBotBehavior()` also reports never changes the verdict.
   */
  lemma BotBlockingRule(userAgent: string, webdriver: bool, userHasInteracted: bool,
                        formFillStart: Option<int>, now: int)
    ensures BotSuspected(DetectBotBehavior(userAgent, webdriver, userHasInteracted, formFillStart, now))
      <==> SuspiciousUserAgent(userAgent) || webdriver || !userHasInteracted
    ensures BotSuspected(DetectBotBehavior(userAgent, webdriver, userHasInteracted, formFillStart, now))
      == BotSuspected(DetectBotBehavior(userAgent, webdriver, userHasInteracted, None, now))
  {
  }

  /** How the email service answered: a resolved response, or a rejection with an optional status. */
  datatype SendResult = Resolved(status: int) | Rejected(errorStatus: Option<int>)

  const GenericErrorText := "Error al enviar el mensaje. Por favor intenta nuevamente. \U{1F614}"
  const ConfigErrorText := "\U{26A0}\U{FE0F} Error de configuraci\U{00F3}n del servicio de email."
  const BadDataText := "\U{274C} Datos del formulario inv\U{00E1}lidos. Revisa los campos."
  const AuthErrorText := "\U{1F510} Error de autenticaci\U{00F3}n del servicio."

  /** The message for an error carrying `status` (absent: `None`). */
  function ErrorMessage(status: Option<int>): (m: string)
    ensures status == Some(412) <==> m == ConfigErrorText
    ensures status == Some(400) <==> m == BadDataText
    ensures status == Some(403) <==> m == AuthErrorText
    ensures m == GenericErrorText <==> !(status in {Some(412), Some(400), Some(403)})
  {
    if status == Some(412) then ConfigErrorText
    else if status == Some(400) then BadDataText
    else if status == Some(403) then AuthErrorText
    else GenericErrorText
  }

  /** A resolved response other than 200 is rethrown as an error without a status. */
  function SendError(r: SendResult): Option<int> {
    match r
    case Resolved(_) => None
    case Rejected(s) => s
  }

  /** A resolved response other than 200 shows the generic message, since the error it throws has no status. */
  lemma NonOkResponseIsGeneric(status: int)
    requires status != 200
    ensures ErrorMessage(SendError(Resolved(status))) == GenericErrorText
  {
  }

  /** How one submission ended. */
  datatype Outcome = Blocked(gate: Gate) | Sent | SendFailed(message: string)

  /** A message shown in the status area, with its kind (`success` or `error`). */
  datatype Notice = Notice(text: string, kind: string)

  const HoneypotText := "\U{1F6AB} Error: Submisi\U{00F3}n inv\U{00E1}lida detectada."
  const CaptchaText := "\U{274C} Respuesta de verificaci\U{00F3}n incorrecta. Intenta nuevamente."
  const BotText := "\U{1F6E1}\U{FE0F} Por favor completa la verificaci\U{00F3}n correctamente."
  const RateText := "\U{23F0} Por favor espera un momento antes de enviar otro mensaje."
  const SuccessText := "\U{2705} \U{00A1}Mensaje enviado exitosamente! Te contactar\U{00E9} pronto. \U{1F680}"

  /** The notice an outcome leaves in the status area; field validation shows its own message, if any. */
  function OutcomeNotice(o: Outcome): Option<Notice> {
    match o
    case Blocked(Honeypot) => Some(Notice(HoneypotText, "error"))
    case Blocked(Captcha) => Some(Notice(CaptchaText, "error"))
    case Blocked(BotCheck) => Some(Notice(BotText, "error"))
    case Blocked(Fields) => None
    case Blocked(RateLimit) => Some(Notice(RateText, "error"))
    case Sent => Some(Notice(SuccessText, "success"))
    case SendFailed(m) => Some(Notice(m, "error"))
  }

  /** The outcomes after which `refreshCaptcha()` runs. */
  predicate Refreshes(o: Outcome) {
    o == Blocked(Captcha) || o == Blocked(BotCheck) || o.Sent? || o.SendFailed?
  }

  /** What one submit event carries: the honeypot and answer inputs, the three fields, the content verdict. */
  datatype Submission = Submission(
    honeypot: Option<string>,
    answer: Option<string>,
    form: FormValues,
    suspicious: bool)

  /** The browser facts the bot checks read. */
  datatype Browser = Browser(
    userAgent: string,
    webdriver: bool,
    userHasInteracted: bool,
    formFillStart: Option<int>)

  /**
   * The gate that refuses submission `sub` at time `now`, given the current
   * challenge, the time it was shown and localStorage.
   */
  ghost function SubmitGate(sub: Submission, browser: Browser, now: int,
                            challenge: Option<Challenge>, startTime: int, storage: map<string, string>): Option<Gate>
  {
    var bot := DetectBotBehavior(browser.userAgent, browser.webdriver, browser.userHasInteracted,
                                 browser.formFillStart, now);
    FirstFailingGate(HoneypotTripped(sub.honeypot), AnswerAccepted(challenge, startTime, sub.answer, now),
                     BotSuspected(bot), FormValid(sub.form, sub.suspicious),
                     CheckRateLimit(Stored(storage, RateKey), now))
  }

  /**
   * The honeypot gate runs first: it refuses exactly when the hidden input
   * exists and holds something, whatever the other inputs are.
   */
  lemma HoneypotRefusesFirst(sub: Submission, browser: Browser, now: int,
                             challenge: Option<Challenge>, startTime: int, storage: map<string, string>)
    ensures SubmitGate(sub, browser, now, challenge, startTime, storage) == Some(Honeypot)
      <==> sub.honeypot.Some? && sub.honeypot.value != ""
  {
  }

  class ContactForm {
    var publicKey: string
    var serviceID: string
    var templateID: string
    const antiSpam: AntiSpamProtection
    var storage: map<string, string>
    /** The status area's current message. */
    var status: Option<Notice>
    /** Whether the challenge container was added to the page (only when the form exists). */
    var captchaShown: bool

    /** The constructor: fixed service identifiers and a fresh challenge. */
    constructor (formPresent: bool, stored: map<string, string>, random: real, now: int)
      requires 0.0 <= random < 1.0
      ensures publicKey == "A9yt-Xz4Z0U0WS26p" && serviceID == "service_edg8uu6" && templateID == "template_yz6hlg6"
      ensures fresh(antiSpam) && antiSpam.currentChallenge == Some(Bank[RandomIndex(random)])
      ensures antiSpam.startTime == now
      ensures storage == stored && status == None && captchaShown == formPresent
    {
      publicKey := "A9yt-Xz4Z0U0WS26p";
      serviceID := "service_edg8uu6";
      templateID := "template_yz6hlg6";
      antiSpam := new AntiSpamProtection(random, now);
      storage := stored;
      status := None;
      captchaShown := formPresent;
    }

    /** `updateEmailJSConfig(serviceID, templateID)`: the public key is kept. */
    method UpdateEmailJSConfig(serviceID: string, templateID: string)
      modifies this
      ensures this.serviceID == serviceID && this.templateID == templateID
      ensures publicKey == old(publicKey) && storage == old(storage)
      ensures status == old(status) && captchaShown == old(captchaShown)
    {
      this.serviceID := serviceID;
      this.templateID := templateID;
    }

    /** `refreshCaptcha()`: a new challenge, when the challenge container exists. */
    method RefreshCaptcha(random: real, now: int)
      requires 0.0 <= random < 1.0
      modifies antiSpam
      ensures captchaShown ==>
        antiSpam.currentChallenge == Some(Bank[RandomIndex(random)]) && antiSpam.startTime == now
      ensures !captchaShown ==>
        antiSpam.currentChallenge == old(antiSpam.currentChallenge) && antiSpam.startTime == old(antiSpam.startTime)
    {
      if captchaShown {
        var _ := antiSpam.GenerateNewChallenge(random, now);
        var _ := antiSpam.GetChallengeQuestion(random, now);
      }
    }

    /**
     * The five gates of `handleSubmit`, run in order at time `now` without
     * changing anything; `shown` is the message field validation displays when
     * that gate is reached and refuses.
     */
    method CheckGates(sub: Submission, browser: Browser, now: int) returns (gate: Option<Gate>, shown: Option<string>)
      ensures gate == SubmitGate(sub, browser, now, antiSpam.currentChallenge, antiSpam.startTime, storage)
      ensures shown == if gate == Some(Fields) then FieldsMessage(sub.form, sub.suspicious) else None
    {
      shown := None;
      if HoneypotTripped(sub.honeypot) {
        return Some(Honeypot), None;
      }
      var answerOk := antiSpam.ValidateAnswer(sub.answer, now);
      if !answerOk {
        return Some(Captcha), None;
      }
      var bot := DetectBotBehavior(browser.userAgent, browser.webdriver, browser.userHasInteracted,
                                   browser.formFillStart, now);
      if BotSuspected(bot) {
        return Some(BotCheck), None;
      }
      var v := ValidateForm(sub.form, sub.suspicious);
      if !v.valid {
        return Some(Fields), v.shown;
      }
      if !CheckRateLimit(Stored(storage, RateKey), now) {
        return Some(RateLimit), None;
      }
      return None, None;
    }

    /**
     * What `handleSubmit` does once the gates have spoken: a refusal shows its
     * message (and refreshes the challenge after a wrong answer or a bot
     * check), and a submission that passes is sent, with `result` the email
     * service's answer at time `sentAt`.
     */
    method Conclude(gate: Option<Gate>, shown: Option<string>, now: int, result: SendResult, sentAt: nat, random: real)
      returns (outcome: Outcome)
      requires 0.0 <= random < 1.0
      modifies this, antiSpam
      ensures gate.Some? ==> outcome == Blocked(gate.value)
      ensures gate.None? ==> outcome == (if result == Resolved(200) then Sent else SendFailed(ErrorMessage(SendError(result))))
      ensures storage == if outcome.Sent? then old(storage)[RateKey := DecimalString(sentAt)] else old(storage)
      ensures Refreshes(outcome) && captchaShown ==>
        antiSpam.currentChallenge == Some(Bank[RandomIndex(random)])
        && antiSpam.startTime == (if outcome.Blocked? then now else sentAt)
      ensures !(Refreshes(outcome) && captchaShown) ==>
        antiSpam.currentChallenge == old(antiSpam.currentChallenge) && antiSpam.startTime == old(antiSpam.startTime)
      ensures outcome == Blocked(Fields) ==>
        status == if shown.Some? then Some(Notice(shown.value, "error")) else old(status)
      ensures outcome != Blocked(Fields) ==> status == OutcomeNotice(outcome)
      ensures publicKey == old(publicKey) && serviceID == old(serviceID) && templateID == old(templateID)
      ensures captchaShown == old(captchaShown)
    {
      if gate.Some? {
        match gate.value {
          case Honeypot =>
            status := Some(Notice(HoneypotText, "error"));
          case Captcha =>
            status := Some(Notice(CaptchaText, "error"));
            RefreshCaptcha(random, now);
          case BotCheck =>
            status := Some(Notice(BotText, "error"));
            RefreshCaptcha(random, now);
          case Fields =>
            if shown.Some? {
              status := Some(Notice(shown.value, "error"));
            }
          case RateLimit =>
            status := Some(Notice(RateText, "error"));
        }
        return Blocked(gate.value);
      }
      if result == Resolved(200) {
        status := Some(Notice(SuccessText, "success"));
        RefreshCaptcha(random, sentAt);
        storage := storage[RateKey := DecimalString(sentAt)];
        return Sent;
      }
      var message := ErrorMessage(SendError(result));
      status := Some(Notice(message, "error"));
      RefreshCaptcha(random, sentAt);
      return SendFailed(message);
    }

    /**
     * `handleSubmit`. The gates run at time `now`; the email service answers with
     * `result` at time `sentAt`; `random` draws the refreshed challenge.
     */
    method HandleSubmit(sub: Submission, browser: Browser, now: int, result: SendResult, sentAt: nat, random: real)
      returns (outcome: Outcome)
      requires 0.0 <= random < 1.0
      modifies this, antiSpam
      ensures var g := SubmitGate(sub, browser, now, old(antiSpam.currentChallenge), old(antiSpam.startTime), old(storage));
        (g.Some? ==> outcome == Blocked(g.value))
        && (g.None? ==> outcome == (if result == Resolved(200) then Sent else SendFailed(ErrorMessage(SendError(result)))))
      ensures storage == if outcome.Sent? then old(storage)[RateKey := DecimalString(sentAt)] else old(storage)
      ensures Refreshes(outcome) && captchaShown ==>
        antiSpam.currentChallenge == Some(Bank[RandomIndex(random)])
        && antiSpam.startTime == (if outcome.Blocked? then now else sentAt)
      ensures !(Refreshes(outcome) && captchaShown) ==>
        antiSpam.currentChallenge == old(antiSpam.currentChallenge) && antiSpam.startTime == old(antiSpam.startTime)
      ensures outcome == Blocked(Fields) ==>
        var m := FieldsMessage(sub.form, sub.suspicious);
        status == if m.Some? then Some(Notice(m.value, "error")) else old(status)
      ensures outcome != Blocked(Fields) ==> status == OutcomeNotice(outcome)
      ensures publicKey == old(publicKey) && serviceID == old(serviceID) && templateID == old(templateID)
      ensures captchaShown == old(captchaShown)
    {
      var gate, shown := CheckGates(sub, browser, now);
      outcome := Conclude(gate, shown, now, result, sentAt, random);
    }
  }

  /**
   * Right after a successful send at `t`, a submission that clears the first
   * four gates is refused by the rate limit until `t + 30000`.
   */
  lemma ResendRefusedDuringCooldown(storage: map<string, string>, t: nat, now: int,
                                    answerOk: bool, form: FormValues, suspicious: bool)
    requires answerOk && FormValid(form, suspicious) && now < t + Cooldown
    ensures FirstFailingGate(false, answerOk, false, FormValid(form, suspicious),
              CheckRateLimit(Stored(storage[RateKey := DecimalString(t)], RateKey), now)) == Some(RateLimit)
  {
    RateLimitWindow(storage, t, now);
  }
}
