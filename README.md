# Portfolio site scripts in Dafny

This project models the client-side core of a personal portfolio web site and
its small development server. Each part is proved against a specification:

- **Translations.** There are three drafts of the translation system.
  - `scripts/i18n-simple.js` resolves dotted keys such as `contact.form.send`,
    following JavaScript's property semantics, and renders into the element's
    value, placeholder or text.
  - `scripts/main.js` holds the `ModernPortfolio` class. Its lookup is a
    short-circuiting `&&` reduce, and it also keeps the theme and language
    toggles.
  - `script.js` is the legacy draft, with language buttons and a replayed
    preference.
- **Navigation.** After a click, exactly the clicked link carries the
  `active` class. After a scroll, exactly the links whose `href` names the
  section in view carry it, which is one link when the `href`s are distinct.
- **Anti-spam** (`scripts/anti-spam.js`).
  - The challenge bank, with its timing gate and the normalised answer
    comparison.
  - The bot heuristics.
  - The interaction tracker, which records the first focus only.
- **Contact form** (`scripts/contact-form.js`).
  - The submission gates, in their fixed order.
  - The 30-second rate limit.
  - Field validation, including the e-mail pattern.
  - The mapping from send status to message.
- **CSS diagnostics** (`scripts/css-debugger.js`).
  - Which stylesheets count as loaded.
  - The issue list, and whether fallbacks are applied.
  - The critical-issue filter.
- **CV download** (`scripts/cv-generator.js`).
  - Browser detection, the busy flag, the CV page URL and language.
  - The error advice, chosen by priority.
  - The notification colours.
- **Development server** (`server.py`): the `Content-Type` chosen from the
  file extension, as `os.path.splitext` cuts it.

Files:

- `js.dfy` (module `Js`) holds the JavaScript semantics the scripts rely on:
  - property access on objects, arrays and strings, with canonical array
    indices;
  - `split`/`join`, `trim`, ASCII `toLowerCase`/`toUpperCase`, `indexOf` and
    `replace` of the first match;
  - `parseInt` after leading whitespace and one sign, on decimal or `0x`
    digits;
  - the numeric-string test behind `isNaN`.
- `dom.dfy` (module `Dom`) holds the element record and `getElementById`.
- One file per script:
  - `i18n_simple.dfy`, `main_portfolio.dfy`, `legacy_script.dfy`;
  - `anti_spam.dfy`, `contact_form.dfy`;
  - `css_debugger.dfy`, `cv_generator.dfy`, `dev_server.dfy`.

Where the page's state is updated in place, the model uses classes:

- `SimpleI18n`, `ModernPortfolio`, `LegacySite`;
- `AntiSpamProtection`, `InteractionTracker`;
- `ContactForm`, `CVGenerator`.

These classes have `modifies` frames, and their methods are proved against
pure specification functions. Loops over element lists are `for` loops with
invariants.

Several inputs are passed in as parameters:

- the clock (`Date.now()`);
- `Math.random()`, as a number in [0, 1);
- `localStorage`, as a map;
- fetched dictionaries, send results and browser probes.

## Model

| member | source | states |
|---|---|---|
| Js.Prop | scripts/i18n-simple.js:92-94 | reading `current[key]` finds a value only for an own field of an object, or for a canonical index inside an array or string; everything else is `undefined` |
| Js.DecimalOfCanonical | scripts/i18n-simple.js:91-92 | for a canonical digit string, `String(parseInt(s))` gives `s` back, so reading by number and by name agree |
| Js.DecimalString | scripts/i18n-simple.js:92 | the decimal rendering of a number is a canonical digit string whose value is that number |
| Js.Split | scripts/main.js:202 | `split` yields at least one piece, and no piece contains the separator |
| Js.JoinSplit | scripts/main.js:202 | `Join` of the pieces of `path.split('.')` with `.` gives the path back |
| Js.SplitJoin | scripts/i18n-simple.js:89 | splitting the join of separator-free segments gives the segments back |
| Js.SplitPiece | scripts/i18n-simple.js:89 | a separator-free piece followed by the separator splits off as the first piece |
| Js.SplitAtSeparator | scripts/i18n-simple.js:89 | a leading separator splits off an empty first piece |
| Js.LastPiece | scripts/css-debugger.js:39 | `split('/').pop()` is the separator-free suffix after the last `/` |
| Js.JoinLast | scripts/css-debugger.js:39 | the last piece is the suffix of the joined string that follows its last separator |
| Js.TrimPadded | scripts/anti-spam.js:71-72 | `Trim` removes exactly the whitespace padding around a core that neither starts nor ends with whitespace |
| Js.TrimStart | scripts/anti-spam.js:71-72 | the start of `trim` leaves a suffix of the input that does not start with whitespace |
| Js.TrimEnd | scripts/anti-spam.js:71-72 | the end of `trim` leaves a prefix of the input that does not end with whitespace |
| Js.TrimStartRemovesWhitespace | scripts/anti-spam.js:71-72 | every character removed at the start is whitespace |
| Js.TrimEndRemovesWhitespace | scripts/anti-spam.js:71-72 | every character removed at the end is whitespace |
| Js.TrimSlice | scripts/anti-spam.js:71-72 | `trim` keeps one contiguous slice of its input |
| Js.TrimOfTrimmed | scripts/anti-spam.js:71-72 | a string without whitespace at either end is its own `trim` |
| Js.TrimStartPadded | scripts/anti-spam.js:71-72 | the start of `trim` removes exactly a whitespace prefix before a non-whitespace character |
| Js.TrimEndPadded | scripts/anti-spam.js:71-72 | the end of `trim` removes exactly a whitespace suffix after a non-whitespace character |
| Js.TrimEmpty | scripts/contact-form.js:174-176 | a trimmed value is empty exactly when the value is all whitespace |
| Js.TrimIdempotent | scripts/anti-spam.js:71-72 | trimming twice equals trimming once |
| Js.LowerOfUpper | scripts/main.js:176-181 | lower-casing an upper-cased code gives the lower-cased code |
| Js.LowerFixes | scripts/anti-spam.js:71-72 | lower-casing is idempotent and fixes a string without upper-case letters |
| Js.Lower | scripts/anti-spam.js:71-72 | `toLowerCase` keeps the length and lower-cases each ASCII letter in place |
| Js.Upper | scripts/i18n-simple.js:147 | `toUpperCase` keeps the length and upper-cases each ASCII letter in place |
| Js.IndexOf | scripts/cv-generator.js:11-15 | `indexOf` is -1 exactly when the needle does not occur; otherwise it is the first occurrence |
| Js.ReplaceFirst | script.js:43 | only the first occurrence is replaced; a string without the pattern is unchanged |
| Js.ContainsAny | scripts/anti-spam.js:103 | true exactly when one of the words occurs in the string |
| Js.ParseInt | scripts/contact-form.js:151 | `parseInt` yields a number only when the string holds a digit; otherwise it is `NaN` (`None`); it skips leading whitespace and one sign before the digits |
| Js.DigitPrefix | scripts/contact-form.js:151 | the digits `parseInt` reads: the longest all-digit prefix |
| Js.ParseDigits | scripts/i18n-simple.js:92 | a number is read only from text that starts with a digit; after `0x` or `0X` the hexadecimal digits are read |
| Js.HexPrefix | scripts/i18n-simple.js:92 | the hexadecimal digits `parseInt` reads after `0x`: the longest hex-digit prefix |
| Js.DigitPrefixStops | scripts/i18n-simple.js:92 | the digit prefix of digits followed by a non-digit is exactly those digits |
| Js.ParseIntDigits | scripts/contact-form.js:151 | `parseInt` of a digit string is its decimal value |
| Js.ParseIntDigitsThen | scripts/i18n-simple.js:92 | digits followed by a character that is neither a digit nor `x`: `parseInt` reads the digits and ignores the rest |
| Js.ParseIntPlus | scripts/i18n-simple.js:92 | `+d` reads the value of the digits `d` |
| Js.ParseIntMinus | scripts/i18n-simple.js:92 | `-d` reads minus the value of the digits `d` |
| Js.ParseIntHex | scripts/i18n-simple.js:92 | `0x` followed by hexadecimal digits reads their hexadecimal value |
| Js.IntString | scripts/i18n-simple.js:92 | `String(n)` of an integer is its decimal digits, with `-` before a negative number |
| Js.TrimmedNumeric | scripts/i18n-simple.js:91 | `NumericString`, the `!isNaN` test: an unpadded decimal with optional sign, fraction and exponent, `Infinity`, or a `0x`/`0o`/`0b` literal passes it |
| Js.DigitsNumeric | scripts/i18n-simple.js:91 | a digit string passes the `!isNaN` test |
| Js.SignedNumeric | scripts/i18n-simple.js:91 | a digit string with a leading `+` or `-` passes the `!isNaN` test |
| Js.FractionNumeric | scripts/i18n-simple.js:91 | digits, a dot and more digits pass the `!isNaN` test |
| Js.ExponentNumeric | scripts/i18n-simple.js:91 | digits, `e` and digits pass the `!isNaN` test |
| Js.HexNumeric | scripts/i18n-simple.js:91 | `0x` followed by hexadecimal digits passes the `!isNaN` test |
| Js.ParseIntDecimal | scripts/contact-form.js:151 | `parseInt` of what `Date.now().toString()` stored gives the stored time back |
| Dom.Set | scripts/i18n-simple.js:59-69 | writing one element property changes that property and nothing else |
| Dom.ElementById | script.js:84 | `getElementById` returns the first element with the id, or -1 exactly when there is none |
| I18nSimple.GetNestedValue | scripts/i18n-simple.js:88-98 | a lookup in a non-object is `undefined`; a key without `.` is a single `Step`, which reads a property of an object (by its `parseInt` reading when the segment passes `!isNaN`) and is `undefined` otherwise |
| I18nSimple.WalkFromNonObject | scripts/i18n-simple.js:90-96 | once a non-object is reached, every remaining segment keeps the result `undefined` |
| I18nSimple.LookupFollowsPath | scripts/i18n-simple.js:88-98 | a `.`-joined key whose segments contain no `.` and fail the `!isNaN` test (such as `nav.home`) reads exactly the node at that path in a dictionary of nested objects, and `undefined` when a segment is missing |
| I18nSimple.WalkResolves | scripts/i18n-simple.js:90-96 | the `reduce` over segments that fail the `!isNaN` test reads each as a property name, reaching the node at that path or `undefined` |
| I18nSimple.CanonicalSegmentIsName | scripts/i18n-simple.js:91-94 | a canonical numeric segment reads the same property by number as by name |
| I18nSimple.LeadingZeroReadsNumber | scripts/i18n-simple.js:91-92 | a segment `0` followed by an index passes the numeric test and reads that index: `01` reads property `1`, not `01` |
| I18nSimple.IntegerPartRead | scripts/i18n-simple.js:92 | an index followed by a character that is neither a digit nor `x` reads the index |
| I18nSimple.FractionSegment | scripts/i18n-simple.js:91-92 | `<d>.<f>` is numeric and reads property `<d>`: `1.5` reads `1` |
| I18nSimple.ExponentSegment | scripts/i18n-simple.js:91-92 | `<d>e<e>` is numeric and reads property `<d>`: `1e3` reads `1` |
| I18nSimple.SignedSegment | scripts/i18n-simple.js:91-92 | `+<d>` and `-<d>` are numeric; `+<d>` reads `<d>`, and `-<d>` reads `-<d>`, except that `-0` reads `0` |
| I18nSimple.PlusSegment | scripts/i18n-simple.js:92 | `+<d>` reads property `<d>` |
| I18nSimple.MinusSegment | scripts/i18n-simple.js:92 | `-<d>` reads property `-<d>`, and `-0` reads `0` |
| I18nSimple.HexSegment | scripts/i18n-simple.js:91-92 | `0x<h>` is numeric and reads the decimal rendering of its value: `0x10` reads `16` |
| I18nSimple.InfinitySegment | scripts/i18n-simple.js:91-92 | `Infinity` is numeric, and `parseInt` of it is `NaN`, so it reads property `NaN` |
| I18nSimple.TrimDigits | scripts/i18n-simple.js:91 | an all-digit segment has no padding for the numeric test to ignore |
| I18nSimple.WalkSingle | scripts/i18n-simple.js:89 | a `Walk` over one segment is one `Step` |
| I18nSimple.SplitWithoutSeparator | scripts/i18n-simple.js:89 | a key without `.` splits into itself |
| I18nSimple.TargetSlot | scripts/i18n-simple.js:59-69 | a submit INPUT receives a value; every other INPUT and every TEXTAREA receives a placeholder; every other element receives its markup |
| I18nSimple.Render | scripts/i18n-simple.js:58-69 | a falsy lookup leaves the element unchanged; a truthy one writes only the target slot |
| I18nSimple.RenderAll | scripts/i18n-simple.js:54-71 | rendering keeps the number of elements |
| I18nSimple.RenderElements | scripts/i18n-simple.js:54-71 | the loop leaves the elements exactly as the rendering function says |
| I18nSimple.RenderAllIdempotent | scripts/i18n-simple.js:54-71 | applying the same translations twice changes nothing more |
| I18nSimple.RenderRoundTrip | scripts/i18n-simple.js:132-141 | rendering with a, then b, then a again gives the first rendering when every key is translated by a or not by b |
| I18nSimple.Toggle | scripts/i18n-simple.js:133 | the next language is `en` or `es`, and it is `es` exactly when the current one is `en` |
| I18nSimple.ToggleTwice | scripts/i18n-simple.js:133 | two switches restore the language exactly when it was `en` or `es` |
| I18nSimple.InitialLang | scripts/i18n-simple.js:2 | with nothing stored the language is `en`; it is never empty |
| I18nSimple.SimpleI18n.constructor | scripts/i18n-simple.js:2-9 | the initial language comes from storage or defaults to `en`; there are no dictionaries yet |
| I18nSimple.SimpleI18n.ApplyTranslations | scripts/i18n-simple.js:44-85 | without a dictionary nothing changes; otherwise every element is rendered, and the title and description follow the dictionary's `meta` entries as `UpdatedTitle` and `UpdatedDescription` say |
| I18nSimple.SimpleI18n.UpdateLanguageButton | scripts/i18n-simple.js:144-149 | a present button shows `ButtonLabel`, the current language upper-cased in a `<span>`; nothing else changes |
| I18nSimple.SimpleI18n.SwitchLanguage | scripts/i18n-simple.js:132-141 | the language toggles and is persisted under `portfolio-lang`; with a dictionary for it the elements, title and description are re-rendered, and without one they are unchanged; the button shows the new language |
| I18nSimple.SimpleI18n.LoadTranslations | scripts/i18n-simple.js:12-41 | on failure the state is unchanged; on success both dictionaries are installed, and the elements, title and description are rendered from the current language's dictionary, or left unchanged when it has none |
| MainPortfolio.StoredOr | scripts/main.js:4-5 | a stored non-empty value wins over the default (JavaScript's `\|\|`) |
| MainPortfolio.ShortCircuitWalk | scripts/main.js:202 | a falsy node reached along the path is the result |
| MainPortfolio.ShortCircuitGet | scripts/main.js:201-203 | a falsy dictionary is returned unchanged |
| MainPortfolio.ShortCircuitWalkResolves | scripts/main.js:202 | the short-circuit walk through truthy objects is the path resolution |
| MainPortfolio.ShortCircuitFollowsPath | scripts/main.js:201-203 | the dotted join of plain keys resolves to the node at that path |
| MainPortfolio.RenderText | scripts/main.js:194-197 | a truthy lookup sets `textContent` and only that; a falsy one leaves the element unchanged |
| MainPortfolio.RenderAllText | scripts/main.js:192-198 | rendering keeps the number of elements |
| MainPortfolio.RenderAllTextIdempotent | scripts/main.js:192-198 | a second update with the same state changes nothing further |
| MainPortfolio.RenderAllTextOnlyContent | scripts/main.js:192-198 | only text content is written; value and placeholder are untouched |
| MainPortfolio.UpdateTexts | scripts/main.js:192-198 | the loop leaves the elements exactly as the rendering function says |
| MainPortfolio.FlipTheme | scripts/main.js:63 | dark and light swap |
| MainPortfolio.ThemeIcon | scripts/main.js:74 | the icon is `fa-sun` exactly when the theme is dark |
| MainPortfolio.FlipLang | scripts/main.js:179 | the next language is `es` or `en`, and it is `en` exactly when the current one is `es` |
| MainPortfolio.FlipLangAgainstToggle | scripts/main.js:179 | this toggle and the one in `scripts/i18n-simple.js`, which share `portfolio-lang`, agree on `en` and `es`; any other stored value goes to `es` here and to `en` there |
| MainPortfolio.FlipTwice | scripts/main.js:63 | two toggles restore the theme |
| MainPortfolio.LastInViewWins | scripts/main.js:234-239 | `LastInView` picks a section that covers y = 100, and no later section does |
| MainPortfolio.NoneInView | scripts/main.js:234-239 | no section covering y = 100 leaves the current section as it was |
| MainPortfolio.ScrolledSection | scripts/main.js:232-239 | the scroll loop computes the last section in view |
| MainPortfolio.OnScroll | scripts/main.js:231-249 | each link is marked by `MarkForSection`: active exactly when its href is `#<current>`; with no section in view no link changes |
| MainPortfolio.ScrollMarksOne | scripts/main.js:242-247 | when hrefs are distinct, exactly the link for the current section is active |
| MainPortfolio.ScrollMarksMatching | scripts/main.js:242-247 | marking keeps every href, and makes a link active exactly when its href is `#<current>`, so links sharing that href are all active |
| MainPortfolio.OnNavClick | scripts/main.js:212-227 | with an existing target, exactly the clicked link is active; otherwise nothing changes |
| MainPortfolio.SendPath | scripts/main.js:202 | `contact.form.send` splits into its three segments |
| MainPortfolio.SendLabel | scripts/main.js:113-117 | the send button reads `Enviar Mensaje` in Spanish and `Send Message` in English |
| MainPortfolio.ModernPortfolio.constructor | scripts/main.js:3-10 | with nothing stored the language is `es` and the theme `dark` |
| MainPortfolio.ModernPortfolio.InitTheme | scripts/main.js:55-61 | the page shows the current theme and its icon |
| MainPortfolio.ModernPortfolio.ToggleTheme | scripts/main.js:62-67 | the theme flips, is persisted under the theme key, and the icon follows |
| MainPortfolio.ModernPortfolio.UpdateContent | scripts/main.js:187-199 | without a dictionary nothing changes; otherwise the texts are rendered |
| MainPortfolio.ModernPortfolio.InitLanguageToggle | scripts/main.js:173-176 | the button shows the upper-cased current language |
| MainPortfolio.ModernPortfolio.LoadTranslations | scripts/main.js:79-171 | both built-in dictionaries are installed and the content is rendered; the language, theme, icon, storage and loading flag are unchanged |
| MainPortfolio.ModernPortfolio.ToggleLanguage | scripts/main.js:178-183 | the language flips, is persisted, the label is its upper-case code, and the content is re-rendered |
| LegacyScript.ButtonLang | script.js:43 | the language is the button id with the first `lang-` removed |
| LegacyScript.ButtonLangOfId | script.js:43 | the button `lang-<code>` stands for `<code>` |
| LegacyScript.ButtonLangFirstOnly | script.js:43 | only the first `lang-` is removed: `lang-lang-<code>` stands for `lang-<code>` |
| LegacyScript.RenderWithoutDictionary | script.js:26-35 | with no dictionary every lookup is `undefined` and no element changes |
| LegacyScript.NavClick | script.js:76-87 | exactly the clicked item is active; every section is inactive except the one whose id matches, if any |
| LegacyScript.LegacySite.constructor | script.js:2-3 | the language starts as `en`, with no dictionaries |
| LegacyScript.LegacySite.UpdateContent | script.js:26-35 | truthy lookups set text content; all other elements are unchanged |
| LegacyScript.LegacySite.LoadTranslations | script.js:6-18 | `LoadFailed` changes nothing; `EnglishOnly` installs `en` and leaves every element as it was, since `updateContent` is never reached; `Loaded` installs both dictionaries and renders the content |
| LegacyScript.LegacySite.ClickLanguage | script.js:42-57 | the current language's button changes nothing; another button becomes the only active one, and its language is current and stored under `preferred-language` |
| LegacyScript.LegacySite.ReplayPreference | script.js:60-64 | a saved language is replayed exactly when it exists and differs from the current one; a missing button is reported |
| AntiSpam.RandomIndex | scripts/anti-spam.js:52 | `Math.floor(r * 7)` is an index into the bank for every r in [0, 1) |
| AntiSpam.EveryChallengeReachable | scripts/anti-spam.js:52-53 | every challenge of the bank is chosen for some random number |
| AntiSpam.BankAnswersAreWords | scripts/anti-spam.js:4-40 | every expected answer in the bank is a non-empty word of lower-case letters and digits |
| AntiSpam.BankAnswersNormalized | scripts/anti-spam.js:4-40 | every expected answer in the bank is already trimmed and lower-case |
| AntiSpam.WordNormalized | scripts/anti-spam.js:71-72 | a lower-case word without padding is its own normal form |
| AntiSpam.NormalizeShape | scripts/anti-spam.js:71-72 | `Normalize` (trim after lower-casing) leaves no upper-case letter and no padding |
| AntiSpam.NormalizeIdempotent | scripts/anti-spam.js:71-72 | normalising twice equals normalising once |
| AntiSpam.NormalizeIgnoresCaseAndPadding | scripts/anti-spam.js:71-74 | an answer that differs from the expected one only in letter case and in whitespace padding has the same normal form |
| AntiSpam.CaseVariants | scripts/anti-spam.js:71-72 | the all-capitals and the capitalised spellings lower-case to the same string as the original |
| AntiSpam.AnswerAccepted | scripts/anti-spam.js:58-75 | false with no challenge or an empty answer; false before 2000 ms; otherwise true exactly when the normal forms agree |
| AntiSpam.ExpectedAnswerAccepted | scripts/anti-spam.js:58-75 | after 2000 ms, a trimmed non-empty expected answer is accepted in any letter case and with any whitespace padding |
| AntiSpam.AcceptsExpectedAnswer | scripts/anti-spam.js:58-75 | after 2000 ms, the bank's expected answer in any letter case and with any padding is accepted |
| AntiSpam.AntiSpamProtection.constructor | scripts/anti-spam.js:3-49 | a challenge from the bank is current and the start time is now |
| AntiSpam.AntiSpamProtection.GenerateNewChallenge | scripts/anti-spam.js:51-56 | the challenge is the bank entry at the random index, and the start time is reset to now |
| AntiSpam.AntiSpamProtection.GetChallengeQuestion | scripts/anti-spam.js:77-97 | afterwards a challenge exists, and the question shown is its question |
| AntiSpam.CheckFillSpeed | scripts/anti-spam.js:126-131 | suspicious exactly when less than 5000 ms have passed; with no recorded start it is suspicious |
| AntiSpam.SuspiciousUserAgent | scripts/anti-spam.js:103 | true exactly when the lower-cased user agent contains one of the bot words |
| AntiSpam.GooglebotSuspicious | scripts/anti-spam.js:103 | a Googlebot agent is flagged |
| AntiSpam.InteractionTracker.constructor | scripts/anti-spam.js:135-140 | no interaction and no start time recorded |
| AntiSpam.InteractionTracker.OnScroll | scripts/anti-spam.js:142-145 | scrolling is recorded; nothing else changes |
| AntiSpam.InteractionTracker.OnMouseMove | scripts/anti-spam.js:148-151 | mouse movement is recorded; nothing else changes |
| AntiSpam.InteractionTracker.OnKeyDown | scripts/anti-spam.js:154-157 | a key press is recorded; nothing else changes |
| AntiSpam.InteractionTracker.OnFocus | scripts/anti-spam.js:162-166 | the start time is set at the first focus and never overwritten |
| ContactFormModel.CheckRateLimit | scripts/contact-form.js:146-155 | refused exactly when the stored time parses and is less than 30000 ms before now; an absent, empty or unparseable record allows the submission |
| ContactFormModel.RateLimitWindow | scripts/contact-form.js:146-159 | after recording time t, a submission at `now` is allowed exactly when now >= t + 30000 |
| ContactFormModel.EmailShapeSound | scripts/contact-form.js:186 | a value passing the executable check matches `^[^\s@]+@[^\s@]+\.[^\s@]+$` |
| ContactFormModel.EmailShapeComplete | scripts/contact-form.js:186 | every value matching the pattern passes the executable check |
| ContactFormModel.EmailShapeMatchesPattern | scripts/contact-form.js:186 | the executable check `EmailShape` and the pattern `MatchesEmailPattern` agree in both directions |
| ContactFormModel.MatchAccepted | scripts/contact-form.js:186 | a value with an `@` at i and a dot at j that match the pattern passes the check |
| ContactFormModel.PlainSlice | scripts/contact-form.js:186 | a slice has no whitespace or `@` exactly when that range of the value has none |
| ContactFormModel.IndexOfAt | scripts/contact-form.js:186 | `indexOf('@')` is the position of an `@` with none before it |
| ContactFormModel.LocalPartHasNoAt | scripts/contact-form.js:186 | the part before `@` has no `@` or whitespace |
| ContactFormModel.DomainDot | scripts/contact-form.js:186 | a matching domain has a dot with plain text on both sides |
| ContactFormModel.DomainPlain | scripts/contact-form.js:186 | a matching domain has no `@` or whitespace |
| ContactFormModel.TestEmail | scripts/contact-form.js:186-193 | the scan accepts exactly the values that match the pattern |
| ContactFormModel.FirstBlankRequired | scripts/contact-form.js:172-183 | the first error field is the first required field (name, email, message) whose trimmed value is empty |
| ContactFormModel.FirstBlankAppend | scripts/contact-form.js:172-183 | the first blank of a longer field list is found in the prefix first |
| ContactFormModel.BlankNameFirst | scripts/contact-form.js:172-178 | an empty name is reported before everything else |
| ContactFormModel.ValidIffNoErrorField | scripts/contact-form.js:161-225 | the form is valid exactly when there is no error field |
| ContactFormModel.ValidIffNoErrorBorder | scripts/contact-form.js:161-225 | the form is valid exactly when no field gets the red error `Border` |
| ContactFormModel.FieldsMessageShown | scripts/contact-form.js:186-225 | `FieldsMessage` shows a message exactly when the e-mail or the content is rejected; rejected content shows the suspicious-content text; a valid form shows none |
| ContactFormModel.IsMissing | scripts/contact-form.js:174-176 | a field is missing exactly when its trimmed value is empty |
| ContactFormModel.CheckRequired | scripts/contact-form.js:172-183 | the loop finds the first blank required field and marks each blank one |
| ContactFormModel.ValidateForm | scripts/contact-form.js:161-225 | the result is valid exactly when the form satisfies all field rules, and the focus goes to the first error field |
| ContactFormModel.FirstFailingGate | scripts/contact-form.js:49-82 | gates are checked in order honeypot, captcha, bots, fields, rate limit: each gate is reported exactly when it fails and every earlier one passes |
| ContactFormModel.HoneypotRefusesFirst | scripts/contact-form.js:50-54 | a submission stops at the honeypot exactly when `HoneypotTripped`: the hidden field holds a non-empty value |
| ContactFormModel.BotBlockingRule | scripts/contact-form.js:65-68 | `BotSuspected` of the heuristics holds exactly for a bot user agent, `navigator.webdriver` or no interaction; the fill speed never blocks |
| ContactFormModel.ErrorMessage | scripts/contact-form.js:121-129 | status 412, 400 and 403 each have their own message; every other status gets the generic one |
| ContactFormModel.NonOkResponseIsGeneric | scripts/contact-form.js:113-129 | `SendError` of a resolved response other than 200 carries no status, so it gets the generic message |
| ContactFormModel.ResendRefusedDuringCooldown | scripts/contact-form.js:78-82 | a second submission within 30000 ms of a successful send stops at the rate limit |
| ContactFormModel.ContactForm.constructor | scripts/contact-form.js:3-19 | the configuration holds the initial service, template and public key |
| ContactFormModel.ContactForm.UpdateEmailJSConfig | scripts/contact-form.js:261-264 | only the service and template ids change; the public key is kept |
| ContactFormModel.ContactForm.RefreshCaptcha | scripts/contact-form.js:138-144 | with the captcha shown, a new challenge from the bank is current and its clock starts now; without it nothing changes |
| ContactFormModel.ContactForm.CheckGates | scripts/contact-form.js:49-82 | the gate reported is the first failing one, and for the field gate the message shown is `FieldsMessage`; it changes nothing |
| ContactFormModel.ContactForm.Conclude | scripts/contact-form.js:84-135 | the rate limit is recorded only on status 200; each failure shows its mapped message; captcha and bot failures and every send refresh the challenge, honeypot, field and rate-limit failures do not |
| ContactFormModel.ContactForm.HandleSubmit | scripts/contact-form.js:46-136 | nothing is sent unless every gate passes; the outcome and the new state follow the gate order and the send result |
| CssDebugger.FileEntry | scripts/css-debugger.js:35-43 | the name is the last `/`-segment of the href; loaded exactly when there is no sheet or it has rules |
| CssDebugger.CheckCSSFiles | scripts/css-debugger.js:30-47 | one entry per stylesheet link, in document order |
| CssDebugger.IdentifyIssues | scripts/css-debugger.js:131-171 | the loop collects exactly the issue list of the specification function |
| CssDebugger.UnloadedIssuesAppend | scripts/css-debugger.js:135-139 | the issues of a longer file list extend those of its prefix |
| CssDebugger.UnloadedIssuesEmpty | scripts/css-debugger.js:135-139 | no `CSS no cargado` issue exactly when every file is loaded |
| CssDebugger.UnloadedIssuesNameFiles | scripts/css-debugger.js:135-139 | each unloaded file contributes `CSS no cargado: <file>`, in file order |
| CssDebugger.CertIssuesIff | scripts/css-debugger.js:142-158 | an error is the only certification issue; otherwise background, grid and card issues occur exactly under their conditions |
| CssDebugger.IssuesEmptyIff | scripts/css-debugger.js:131-171 | `Issues` is empty exactly when all files load, the certification checks pass and both features are supported |
| CssDebugger.FixIssues | scripts/css-debugger.js:173-182 | fallbacks are applied exactly when the issue list is non-empty |
| CssDebugger.CriticalIssues | scripts/css-debugger.js:226-230 | the critical issues are never more than the issues |
| CssDebugger.CriticalIssuesMembers | scripts/css-debugger.js:226-230 | an issue is kept exactly when it is `Critical`: it contains `Background`, `Grid` or `CSS no cargado` |
| CssDebugger.CriticalIssuesAppend | scripts/css-debugger.js:226-230 | filtering keeps order: the filter of a concatenation is the concatenation of the filters |
| CssDebugger.FilterThree | scripts/css-debugger.js:226-230 | filtering three issues keeps exactly the critical ones |
| CssDebugger.FilterConcat3 | scripts/css-debugger.js:226-230 | filtering three issue lists concatenates their filters |
| CssDebugger.ShowUserNotification | scripts/css-debugger.js:224-236 | a notification is shown exactly when some issue is critical |
| CssDebugger.NotCritical | scripts/css-debugger.js:226-230 | an issue without the letters of the critical words is not critical |
| CssDebugger.BackgroundIssueCritical | scripts/css-debugger.js:148 | the background issue is critical |
| CssDebugger.GridIssueCritical | scripts/css-debugger.js:152 | the grid issue is critical |
| CssDebugger.GridSupportIssueCritical | scripts/css-debugger.js:167 | the grid-support issue is critical |
| CssDebugger.SectionMissingLacksCriticalLetters | scripts/css-debugger.js:54 | the missing-section message is not critical |
| CssDebugger.CardsLacksCriticalLetters | scripts/css-debugger.js:156 | the card issue is not critical |
| CssDebugger.VariablesLacksCriticalLetters | scripts/css-debugger.js:162 | the custom-property issue is not critical |
| CssDebugger.UnloadedIssueCritical | scripts/css-debugger.js:137 | each unloaded-file issue is critical |
| CssDebugger.UnloadedIssuesCritical | scripts/css-debugger.js:135-139 | all unloaded-file issues survive the critical filter |
| CssDebugger.CertCritical | scripts/css-debugger.js:142-158 | the critical certification issues are the background and grid issues that occur |
| CssDebugger.SupportCritical | scripts/css-debugger.js:161-168 | of the support issues, only the grid one is critical |
| CssDebugger.CriticalIssuesOfResults | scripts/css-debugger.js:224-232 | the critical issues are the unloaded files, then background and grid, then unsupported grid |
| CvGenerator.DetectBrowserSupport | scripts/cv-generator.js:9-19 | IE exactly for `MSIE` or `Trident/`; Safari exactly for `Safari` without `Chrome`; mobile exactly when a mobile word is in the lower-cased agent |
| CvGenerator.CvLanguage | scripts/cv-generator.js:74 | the stored `portfolio-lang` when it is non-empty, otherwise `en` |
| CvGenerator.CvFollowsSiteLanguage | scripts/cv-generator.js:74 | the CV uses the language the site stored |
| CvGenerator.FirstVisitDefaultsDiffer | scripts/cv-generator.js:74 | on a first visit the CV opens in `en` while the main page starts in `es` |
| CvGenerator.CvUrl | scripts/cv-generator.js:87 | the URL is `./cv.html?lang=` followed by the language |
| CvGenerator.CvUrlInjective | scripts/cv-generator.js:87 | two languages give the same URL exactly when they are equal |
| CvGenerator.ErrorCauseOf | scripts/cv-generator.js:125-133 | IE first, then Safari on mobile, then no popup support, then unknown |
| CvGenerator.InternetExplorerFirst | scripts/cv-generator.js:125-126 | IE is reported even when the other causes also hold |
| CvGenerator.DownloadErrorMessage | scripts/cv-generator.js:122-136 | the message starts with `Error al descargar el CV. ` and ends with the advice for the cause |
| CvGenerator.AdviceInjective | scripts/cv-generator.js:126-132 | the four advices are distinct |
| CvGenerator.DownloadErrorMessageDeterminesCause | scripts/cv-generator.js:122-135 | two browsers get the same message exactly when they have the same cause |
| CvGenerator.NotificationColor | scripts/cv-generator.js:147 | red for error, green for success, blue otherwise |
| CvGenerator.AttemptOf | scripts/cv-generator.js:55-84 | busy when a download runs; otherwise failed when storage throws, a new tab when the popup opens and a navigation when it does not, to the CV URL |
| CvGenerator.AttemptOpensCv | scripts/cv-generator.js:86-113 | every attempt that opens something opens the CV page in the stored non-empty language, or in `en` otherwise |
| CvGenerator.NoPopupNavigates | scripts/cv-generator.js:110-113 | a blocked popup falls back to navigating the page |
| CvGenerator.CVGenerator.constructor | scripts/cv-generator.js:3-7 | no download runs, and nothing was shown or opened |
| CvGenerator.CVGenerator.ShowNotification | scripts/cv-generator.js:138-147 | one notification is added, with the colour of its kind: red for error, green for success, blue otherwise |
| CvGenerator.CVGenerator.OpenCVPage | scripts/cv-generator.js:86-114 | a new tab with the CV URL and a notice, or a navigation when the popup is blocked |
| CvGenerator.CVGenerator.DownloadCV | scripts/cv-generator.js:72-84 | a storage failure is reported; otherwise the CV page opens in the language stored in localStorage when the click is handled |
| CvGenerator.CVGenerator.HandleDownloadError | scripts/cv-generator.js:122-136 | one error notification with the message for the browser |
| CvGenerator.CVGenerator.HandleCVDownload | scripts/cv-generator.js:55-70 | a busy generator only shows the info notice; otherwise it attempts the download with localStorage as it is at the click, handles a failure, and is idle again afterwards; the outcome is `AttemptOf` of that storage |
| CvGenerator.DownloadAfterSwitch | scripts/cv-generator.js:74 | a download after the site stored a language under `portfolio-lang` opens the CV page in that language |
| DevServer.LastIndex | server.py:18 | the position of the last occurrence, or -1 when there is none |
| DevServer.LastIndexAt | server.py:18 | a character with none like it after it is the last occurrence |
| DevServer.SplitExt | server.py:18 | root and extension concatenate to the path; the extension is empty or one dot followed by neither dot nor slash |
| DevServer.ExtensionOfFile | server.py:18 | `dir/stem.ext` has extension `.ext` when the stem does not start with a dot |
| DevServer.DotFileHasNoExtension | server.py:18 | `dir/.html` has no extension |
| DevServer.GuessedType | server.py:28-34 | a `text/` guess gains `; charset=utf-8`; another guess is kept; no guess gives `application/octet-stream` |
| DevServer.ContentType | server.py:16-34 | `.html`/`.htm`, `.css`, `.js` and `.json` get their fixed UTF-8 types; every other extension takes the guessed type |
| DevServer.ContentTypeNonEmpty | server.py:16-34 | a content type is always sent |
| DevServer.SuffixOfAppend | server.py:33 | appending the charset makes the type end with it |
| DevServer.NotText | server.py:24-27 | an `application/` type is not a `text/` type |
| DevServer.FixedTypes | server.py:20-27 | the two fixed `text/` types declare UTF-8; the others are not `text/` |
| DevServer.TextTypesDeclareUtf8 | server.py:16-34 | every `text/` type the server sends ends with `; charset=utf-8` |
| DevServer.UpperCaseExtensionIsGuessed | server.py:20-27 | matching is case-sensitive: `INDEX.HTML` is typed by the guess |
| DevServer.CvPageIsHtml | server.py:20-21 | the CV page is always served as UTF-8 HTML |

## Left out

- Particles, counters, parallax, the typewriter effect, `debounce`, `throttle`,
  the timers and `app.js`'s readiness polling. These are animation and timing.
  They use floating point, `Math.random`, canvas and `requestAnimationFrame`.
- The `ModernPortfolio` contact handler (`scripts/main.js:288-330`) and its
  notifications. It only simulates a send with a timer.
- `fetch` of `./lang/*.json`. Loading is an input. In `scripts/i18n-simple.js`
  it is both dictionaries or a failure. In `script.js` it is one of three
  outcomes: `LoadFailed`, `Loaded` with both dictionaries, or `EnglishOnly`
  when English parsed and then the Spanish `json()` threw; `EnglishOnly`
  installs `en` and does not call `updateContent`.
- `emailjs.send`. Its result status is an input of `HandleSubmit`.
- `scripts/gh-pages-compat-check.js` and `scripts/emailjs-setup.js`. They
  only log and hold configuration constants.
- In `server.py`:
  - `translate_path` and `guess_type` are inputs;
  - `end_headers`, the socket and `serve_forever` are I/O.
- In `scripts/css-debugger.js`:
  - the `getComputedStyle` probes (`checkCustomProperties`,
    `checkGridSupport`, the certification style reads) and
    `applyFallbackStyles` are inputs or a flag;
  - `displayResults` only writes to the console.
- `testPopupSupport` and `testDownloadSupport` are inputs. So is whether
  `window.open` returned a window.
- `generatePDFDirect` is left out. It repeats `openCVPage`.
- The 500 ms check for a closed popup and the notification's DOM styling and
  removal timer are left out.
- `getChallengeHTML` builds markup around the question.
  `AntiSpam.AntiSpamProtection.GetChallengeQuestion` returns only the
  question.
- `form.reset`, the loading state of the submit button, `showMessage`'s
  scrolling and timers, and `focus()` are shown as state fields or left out.
- The suspicious-content regexes of `validateForm`
  (`scripts/contact-form.js:199-209`) are one boolean input of the form.
  They are rebuilt on every call, so they carry no state between calls.
- Regular expressions with the `i` flag are modelled with ASCII lower-casing,
  and the user-agent regex as a list of substrings. Unicode case folding is
  not modelled.
- `Js.ParseInt` reads integers exactly. JavaScript rounds numbers beyond
  2^53 to the nearest double, and that rounding is not modelled.
- `I18nSimple.Step` renders the read number as an exact decimal. JavaScript
  prints numbers of 1e21 and above in exponent form, and that form is not
  modelled; nor are digits beyond 2^53.
- `CssDebugger.CheckCSSFiles` does not model a cross-origin stylesheet.
  Reading its `cssRules` throws a `SecurityError`, which aborts
  `runDiagnostics` before any issue or fallback
  (`scripts/css-debugger.js:36`). A link is either loaded or not.
- `ContactFormModel.ContactForm.RefreshCaptcha` does not model the challenge
  markup it re-renders or the answer box it empties. Only the new challenge
  and its start time are state.
- `Js.Prop` does not model prototype properties such as `length` or
  `toString`.
- Dictionary leaves are strings. Other JSON scalars are not modelled.
- `Dom.ElementById` searches only the modelled elements, not the whole
  document.
- `CssDebugger.CriticalIssues`: its own contract bounds only the length. What
  it keeps, and in which order, is stated by `CriticalIssuesMembers`,
  `CriticalIssuesAppend` and `CriticalIssuesOfResults`.
- `AntiSpam.AntiSpamProtection.ValidateAnswer`: the method has no contract of
  its own. It returns `AnswerAccepted` of its state and the clock, and the
  properties are stated on that function.

Behaviour of the code as written that the model follows:

- When fetching the dictionaries fails:
  - `scripts/i18n-simple.js:38-40` installs no fallback dictionary;
  - `scripts/main.js` uses built-in dictionaries and has no failure path;
  - `script.js:14-17` keeps whatever was assigned before the failure.
- A saved preference in `script.js:61-64` for a language with no button makes
  `getElementById` return `null`. `LegacySite.ReplayPreference` reports this
  case as `ButtonMissing`. The resulting `TypeError` also stops the
  `DOMContentLoaded` handler, so `initNavigation`, `initAnimations` and
  `initContactForm` never run (`script.js:146-149`).
- Python's `content_type or ...` treats an empty guess like no guess
  (`server.py:28-34`).
- The CV falls back to `en` (`scripts/cv-generator.js:74`), while the main
  page falls back to `es` (`scripts/main.js:4`).
- `isGenerating` is reset after every attempt (`scripts/cv-generator.js:62-69`).
  So the busy branch is reachable only while an attempt is running.
