/**
 * scripts/cv-generator.js: the "download CV" button. It opens `cv.html` in the
 * language stored under `portfolio-lang`, in a pop-up when the browser allows
 * one and by navigating the current page otherwise; a re-entrancy flag refuses a
 * second request while one is running, and a failure is reported with advice
 * chosen from the detected browser.
 */
module CvGenerator {
  import opened Js
  import MainPortfolio

  /** The `browserInfo` record filled by `detectBrowserSupport`. */
  datatype BrowserInfo = BrowserInfo(
    isIE: bool, isEdge: bool, isFirefox: bool, isChrome: bool,
    isSafari: bool, isMobile: bool, supportsPopup: bool, supportsDownload: bool)

  /** The alternatives of the mobile regular expression, lower-cased for its `i` flag. */
  const MobileWords := ["android", "webos", "iphone", "ipad", "ipod", "blackberry", "iemobile", "opera mini"]

  /**
   * `detectBrowserSupport` over the navigator strings; the two probes
   * (`testPopupSupport`, `testDownloadSupport`) are inputs.
   */
  function DetectBrowserSupport(userAgent: string, appVersion: string, supportsPopup: bool, supportsDownload: bool): (info: BrowserInfo)
    ensures info.isIE <==> Contains(userAgent, "MSIE") || Contains(appVersion, "Trident/")
    ensures info.isChrome <==> Contains(userAgent, "Chrome")
    ensures info.isSafari <==> Contains(userAgent, "Safari") && !Contains(userAgent, "Chrome")
    ensures info.isSafari ==> !info.isChrome
    ensures info.isMobile <==> exists i :: 0 <= i < |MobileWords| && Contains(Lower(userAgent), MobileWords[i])
    ensures info.supportsPopup == supportsPopup && info.supportsDownload == supportsDownload
  {
    BrowserInfo(
      isIE := IndexOf(userAgent, "MSIE") != -1 || IndexOf(appVersion, "Trident/") > -1,
      isEdge := IndexOf(userAgent, "Edge/") != -1,
      isFirefox := IndexOf(userAgent, "Firefox") != -1,
      isChrome := IndexOf(userAgent, "Chrome") != -1,
      isSafari := IndexOf(userAgent, "Safari") != -1 && IndexOf(userAgent, "Chrome") == -1,
      isMobile := ContainsAny(Lower(userAgent), MobileWords),
      supportsPopup := supportsPopup,
      supportsDownload := supportsDownload)
  }

  /** The language `downloadCV` asks for: the stored `portfolio-lang`, or `en`. */
  const CvDefaultLang := "en"

  function CvLanguage(storage: map<string, string>): (lang: string)
    ensures lang != ""
    ensures MainPortfolio.LangKey in storage && storage[MainPortfolio.LangKey] != "" ==> lang == storage[MainPortfolio.LangKey]
    ensures MainPortfolio.LangKey !in storage || storage[MainPortfolio.LangKey] == "" ==> lang == CvDefaultLang
  {
    MainPortfolio.StoredOr(storage, MainPortfolio.LangKey, CvDefaultLang)
  }

  /** Once the site has stored a language, the CV is requested in that language. */
  lemma CvFollowsSiteLanguage(storage: map<string, string>, lang: string)
    requires lang != ""
    ensures CvLanguage(storage[MainPortfolio.LangKey := lang]) == lang
  {
  }

  /**
   * Before anything is stored the two scripts disagree: the site starts in
   * Spanish while the CV is requested in English.
   */
  lemma FirstVisitDefaultsDiffer()
    ensures CvLanguage(map[]) == "en"
    ensures MainPortfolio.StoredOr(map[], MainPortfolio.LangKey, MainPortfolio.DefaultLang) == "es"
  {
  }

  const CvPagePrefix := "./cv.html?lang="

  /** `openCVPage`'s URL template. */
  function CvUrl(lang: string): (url: string)
    ensures StartsWith(url, CvPagePrefix)
    ensures url[|CvPagePrefix|..] == lang
  {
    CvPagePrefix + lang
  }

  /** Different languages give different URLs: the language is read back from the URL. */
  lemma CvUrlInjective(a: string, b: string)
    ensures CvUrl(a) == CvUrl(b) <==> a == b
  {
    if CvUrl(a) == CvUrl(b) {
      assert a == CvUrl(a)[|CvPagePrefix|..] == CvUrl(b)[|CvPagePrefix|..] == b;
    }
  }

  /** Why a download failed, in the order `handleDownloadError` tests the browser. */
  datatype ErrorCause = InternetExplorer | SafariMobile | PopupsBlocked | Unknown

  function ErrorCauseOf(info: BrowserInfo): (c: ErrorCause)
    ensures c == InternetExplorer <==> info.isIE
    ensures c == SafariMobile <==> !info.isIE && info.isSafari && info.isMobile
    ensures c == PopupsBlocked <==> !info.isIE && !(info.isSafari && info.isMobile) && !info.supportsPopup
    ensures c == Unknown <==> !info.isIE && !(info.isSafari && info.isMobile) && info.supportsPopup
  {
    if info.isIE then InternetExplorer
    else if info.isSafari && info.isMobile then SafariMobile
    else if !info.supportsPopup then PopupsBlocked
    else Unknown
  }

  const ErrorPrefix := "Error al descargar el CV. "
  // Each advice is one text; its first word is written apart because the
  // verifier reads characters out of a short literal but not out of a long one,
  // and `AdviceInjective` tells the advices apart by their first characters.
  const IEAdvice := "Internet " + "Explorer no es compatible. Usa Edge, Chrome o Firefox."
  const SafariAdvice := "En " + "Safari m\U{00F3}vil, toca \"Compartir\" > \"Descargar PDF\" cuando se abra el CV."
  const PopupAdvice := "Tu " + "navegador bloquea ventanas emergentes. Perm\U{00ED}telas para este sitio."
  const GenericAdvice := "Intenta " + "de nuevo o actualiza tu navegador."

  function Advice(c: ErrorCause): string {
    match c
    case InternetExplorer => IEAdvice
    case SafariMobile => SafariAdvice
    case PopupsBlocked => PopupAdvice
    case Unknown => GenericAdvice
  }

  /** The message `handleDownloadError` shows: the fixed opening, then the advice. */
  function DownloadErrorMessage(info: BrowserInfo): (msg: string)
    ensures StartsWith(msg, ErrorPrefix)
    ensures msg[|ErrorPrefix|..] == Advice(ErrorCauseOf(info))
  {
    ErrorPrefix + Advice(ErrorCauseOf(info))
  }

  /** The four advices differ, already in their first five characters. */
  lemma AdviceInjective(a: ErrorCause, b: ErrorCause)
    requires a != b
    ensures Advice(a) != Advice(b)
  {
    assert IEAdvice[0] == 'I' && IEAdvice[4] == 'r';
    assert SafariAdvice[0] == 'E';
    assert PopupAdvice[0] == 'T';
    assert GenericAdvice[0] == 'I' && GenericAdvice[4] == 'n';
  }

  /** The message tells which cause was diagnosed: two browsers get the same text only for the same cause. */
  lemma DownloadErrorMessageDeterminesCause(a: BrowserInfo, b: BrowserInfo)
    ensures DownloadErrorMessage(a) == DownloadErrorMessage(b) <==> ErrorCauseOf(a) == ErrorCauseOf(b)
  {
    if ErrorCauseOf(a) != ErrorCauseOf(b) {
      AdviceInjective(ErrorCauseOf(a), ErrorCauseOf(b));
    }
  }

  /** Internet Explorer gets the IE advice whatever else the detection says. */
  lemma InternetExplorerFirst(info: BrowserInfo)
    requires info.isIE
    ensures DownloadErrorMessage(info) == ErrorPrefix + IEAdvice
  {
  }

  const ErrorRed := "#ef4444"
  const SuccessGreen := "#10b981"
  const InfoBlue := "#3b82f6"

  /** The background colour of a local notification of type `kind`. */
  function NotificationColor(kind: string): (color: string)
    ensures color == ErrorRed <==> kind == "error"
    ensures color == SuccessGreen <==> kind == "success"
    ensures color == InfoBlue <==> kind != "error" && kind != "success"
  {
    if kind == "error" then ErrorRed else if kind == "success" then SuccessGreen else InfoBlue
  }

  /** A notification shown by `showNotification(message, type)`, with its background colour. */
  datatype Notification = Notification(message: string, kind: string, color: string)

  const BusyText := "\U{23F3} Ya se est\U{00E1} generando un PDF, por favor espera..."
  const OpenedText := "\U{1F4C4} CV abierto en nueva pesta\U{00F1}a"

  /** How a click on the button ended. */
  datatype Attempt =
    | Busy                 // a download was already running
    | Failed               // `downloadCV` threw: reading localStorage failed
    | OpenedTab(url: string)
    | Navigated(url: string)

  /**
   * The outcome of `handleCVDownload`, given the flag, whether localStorage
   * throws and whether `window.open` hands back a window. The pop-up being
   * blocked is caught inside `openCVPage`, which then navigates instead.
   */
  function AttemptOf(generating: bool, info: BrowserInfo, storage: map<string, string>, storageThrows: bool, popupOpened: bool): (a: Attempt)
    ensures a == Busy <==> generating
    ensures a == Failed <==> !generating && storageThrows
    ensures a.OpenedTab? <==> !generating && !storageThrows && info.supportsPopup && popupOpened
    ensures (a.OpenedTab? || a.Navigated?) ==> a.url == CvUrl(CvLanguage(storage))
  {
    if generating then Busy
    else if storageThrows then Failed
    else
      var url := CvUrl(CvLanguage(storage));
      if info.supportsPopup && popupOpened then OpenedTab(url) else Navigated(url)
  }

  /**
   * Every page the button opens is the CV page in the language the site
   * stored, or in English when none (or an empty one) is stored.
   */
  lemma AttemptOpensCv(generating: bool, info: BrowserInfo, storage: map<string, string>, storageThrows: bool, popupOpened: bool)
    ensures var a := AttemptOf(generating, info, storage, storageThrows, popupOpened);
      (a.OpenedTab? || a.Navigated?) ==>
        StartsWith(a.url, CvPagePrefix)
        && (MainPortfolio.LangKey in storage && storage[MainPortfolio.LangKey] != "" ==>
              a.url[|CvPagePrefix|..] == storage[MainPortfolio.LangKey])
        && (MainPortfolio.LangKey !in storage || storage[MainPortfolio.LangKey] == "" ==>
              a.url[|CvPagePrefix|..] == CvDefaultLang)
  {
  }

  /**
   * The language is read from localStorage on each click, so a download that
   * follows a language switch (which stores the new language under
   * `portfolio-lang`) opens the CV in that language.
   */
  lemma DownloadAfterSwitch(info: BrowserInfo, storage: map<string, string>, lang: string, popupOpened: bool)
    requires lang != ""
    ensures var a := AttemptOf(false, info, storage[MainPortfolio.LangKey := lang], false, popupOpened);
      (a.OpenedTab? || a.Navigated?) && a.url == CvUrl(lang)
  {
    CvFollowsSiteLanguage(storage, lang);
  }

  /** A browser without pop-ups never opens a tab: it always navigates or fails. */
  lemma NoPopupNavigates(generating: bool, info: BrowserInfo, storage: map<string, string>, storageThrows: bool, popupOpened: bool)
    requires !info.supportsPopup
    ensures !AttemptOf(generating, info, storage, storageThrows, popupOpened).OpenedTab?
  {
  }

  /** The `CVGenerator` object with the page state its methods touch. */
  class CVGenerator {
    var isGenerating: bool
    const browserInfo: BrowserInfo
    /** The notifications shown, oldest first. */
    var notifications: seq<Notification>
    /** The URLs opened in new windows. */
    var windows: seq<string>
    /** `window.location.href`. */
    var location: string

    constructor (userAgent: string, appVersion: string, supportsPopup: bool, supportsDownload: bool,
                 location: string)
      ensures !isGenerating
      ensures browserInfo == DetectBrowserSupport(userAgent, appVersion, supportsPopup, supportsDownload)
      ensures this.location == location
      ensures notifications == [] && windows == []
    {
      isGenerating := false;
      browserInfo := DetectBrowserSupport(userAgent, appVersion, supportsPopup, supportsDownload);
      notifications := [];
      windows := [];
      this.location := location;
    }

    method ShowNotification(message: string, kind: string)
      modifies this
      ensures notifications == old(notifications) + [Notification(message, kind, NotificationColor(kind))]
      ensures isGenerating == old(isGenerating) && windows == old(windows) && location == old(location)
    {
      notifications := notifications + [Notification(message, kind, NotificationColor(kind))];
    }

    /** `openCVPage(lang)`: `popupOpened` is whether `window.open` returned a window. */
    method OpenCVPage(lang: string, popupOpened: bool)
      modifies this
      ensures isGenerating == old(isGenerating)
      ensures browserInfo.supportsPopup && popupOpened ==>
        windows == old(windows) + [CvUrl(lang)] && location == old(location)
        && notifications == old(notifications) + [Notification(OpenedText, "info", InfoBlue)]
      ensures !(browserInfo.supportsPopup && popupOpened) ==>
        location == CvUrl(lang) && windows == old(windows) && notifications == old(notifications)
    {
      var url := CvUrl(lang);
      if browserInfo.supportsPopup && popupOpened {
        windows := windows + [url];
        ShowNotification(OpenedText, "info");
      } else {
        location := url;
      }
    }

    /**
     * `downloadCV()`. `storage` is localStorage as it is when the click is
     * handled, and `failed` reports that reading it threw.
     */
    method DownloadCV(storage: map<string, string>, storageThrows: bool, popupOpened: bool) returns (failed: bool)
      modifies this
      ensures failed == storageThrows
      ensures isGenerating == old(isGenerating)
      ensures failed ==> windows == old(windows) && location == old(location) && notifications == old(notifications)
      ensures !failed && browserInfo.supportsPopup && popupOpened ==>
        windows == old(windows) + [CvUrl(CvLanguage(storage))] && location == old(location)
        && notifications == old(notifications) + [Notification(OpenedText, "info", InfoBlue)]
      ensures !failed && !(browserInfo.supportsPopup && popupOpened) ==>
        location == CvUrl(CvLanguage(storage)) && windows == old(windows) && notifications == old(notifications)
    {
      if storageThrows {
        return true;
      }
      var lang := CvLanguage(storage);
      OpenCVPage(lang, popupOpened);
      return false;
    }

    /** `handleDownloadError`: one error notification with the browser's advice. */
    method HandleDownloadError()
      modifies this
      ensures notifications == old(notifications) + [Notification(DownloadErrorMessage(browserInfo), "error", ErrorRed)]
      ensures isGenerating == old(isGenerating) && windows == old(windows) && location == old(location)
    {
      var message := ErrorPrefix + Advice(ErrorCauseOf(browserInfo));
      ShowNotification(message, "error");
    }

    /**
     * `handleCVDownload()`. A busy generator only says so; otherwise the flag is
     * raised, the download runs, a failure is reported, and the flag is lowered
     * again in every case.
     */
    method HandleCVDownload(storage: map<string, string>, storageThrows: bool, popupOpened: bool) returns (attempt: Attempt)
      modifies this
      ensures attempt == AttemptOf(old(isGenerating), browserInfo, storage, storageThrows, popupOpened)
      ensures isGenerating == old(isGenerating)
      ensures attempt == Busy ==>
        notifications == old(notifications) + [Notification(BusyText, "info", InfoBlue)]
        && windows == old(windows) && location == old(location)
      ensures attempt == Failed ==>
        notifications == old(notifications) + [Notification(DownloadErrorMessage(browserInfo), "error", ErrorRed)]
        && windows == old(windows) && location == old(location)
      ensures attempt.OpenedTab? ==>
        windows == old(windows) + [attempt.url] && location == old(location)
        && notifications == old(notifications) + [Notification(OpenedText, "info", InfoBlue)]
      ensures attempt.Navigated? ==>
        location == attempt.url && windows == old(windows) && notifications == old(notifications)
    {
      if isGenerating {
        ShowNotification(BusyText, "info");
        return Busy;
      }
      isGenerating := true;
      var failed := DownloadCV(storage, storageThrows, popupOpened);
      if failed {
        HandleDownloadError();
        attempt := Failed;
      } else if browserInfo.supportsPopup && popupOpened {
        attempt := OpenedTab(CvUrl(CvLanguage(storage)));
      } else {
        attempt := Navigated(CvUrl(CvLanguage(storage)));
      }
      isGenerating := false;
    }
  }
}
