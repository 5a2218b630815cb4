/**
 * scripts/main.js: the `ModernPortfolio` application. It keeps the current
 * language and theme (defaults `es` and `dark`), embeds its two dictionaries,
 * writes translations into `data-lang` elements, toggles theme and language,
 * and marks the active navigation link on click and on scroll.
 */
module MainPortfolio {
  import opened Js
  import opened Dom
  import I18nSimple

  const LangKey := "portfolio-lang"
  const ThemeKey := "portfolio-theme"
  const DefaultLang := "es"
  const DefaultTheme := "dark"

  /** `localStorage.getItem(key) || fallback`. */
  function StoredOr(stored: map<string, string>, key: string, fallback: string): (r: string)
    ensures key in stored && stored[key] != "" ==> r == stored[key]
    ensures !(key in stored && stored[key] != "") ==> r == fallback
  {
    if key in stored && stored[key] != "" then stored[key] else fallback
  }

  // ---------------------------------------------------------------------------
  // getNestedValue: `path.split('.').reduce((current, key) => current && current[key], obj)`

  /** One step of the `reduce`: a falsy value is passed on unchanged, a truthy one is indexed. */
  function ShortCircuitStep(current: Value, key: string): Value {
    if Truthy(current) then Prop(current.node, key) else current
  }

  /** The `reduce` over the segments, left to right; a falsy value reached is the final result. */
  function ShortCircuitWalk(current: Value, keys: seq<string>): (r: Value)
    ensures !Truthy(current) ==> r == current
    decreases |keys|
  {
    if keys == [] then current else ShortCircuitWalk(ShortCircuitStep(current, keys[0]), keys[1..])
  }

  /** `getNestedValue(obj, path)`, the same expression in scripts/main.js and script.js. */
  function ShortCircuitGet(obj: Value, path: string): (r: Value)
    ensures !Truthy(obj) ==> r == obj
  {
    ShortCircuitWalk(obj, Split(path, '.'))
  }

  /** Keys that name object fields: no dot, and not an index into a string or an array. */
  predicate NameSegment(key: string) {
    '.' !in key && !IsCanonicalIndex(key)
  }

  lemma {:induction false} ShortCircuitWalkResolves(n: Node, keys: seq<string>)
    requires MapTree(n)
    requires forall i :: 0 <= i < |keys| ==> NameSegment(keys[i])
    ensures var r := ShortCircuitWalk(Found(n), keys);
      r == Resolve(n, keys) || (!Truthy(r) && !Truthy(Resolve(n, keys)))
    decreases |keys|
  {
    if keys != [] {
      var k := keys[0];
      if n.Map? && k in n.fields {
        ShortCircuitWalkResolves(n.fields[k], keys[1..]);
      }
    }
  }

  /**
   * On a dictionary of nested objects, looking up the dotted join of field names
   * yields the node stored at that path; when the path is absent the result is
   * falsy (`undefined`, or an empty string met on the way).
   */
  lemma ShortCircuitFollowsPath(n: Node, keys: seq<string>)
    requires MapTree(n) && |keys| >= 1
    requires forall i :: 0 <= i < |keys| ==> NameSegment(keys[i])
    ensures var r := ShortCircuitGet(Found(n), Join(keys, '.'));
      r == Resolve(n, keys) || (!Truthy(r) && !Truthy(Resolve(n, keys)))
  {
    SplitJoin(keys, '.');
    ShortCircuitWalkResolves(n, keys);
  }

  // ---------------------------------------------------------------------------
  // updateContent

  /** The loop body: a truthy value becomes the element's `textContent`; anything else leaves it alone. */
  function RenderText(e: Element, v: Value): (r: Element)
    ensures !Truthy(v) ==> r == e
    ensures Truthy(v) ==> r == e.(content := ToJsString(v.node))
  {
    if Truthy(v) then e.(content := ToJsString(v.node)) else e
  }

  /** Every `data-lang` element after one pass of `updateContent` with `dict`. */
  function RenderAllText(es: seq<Element>, dict: Value): (r: seq<Element>)
    ensures |r| == |es|
  {
    seq(|es|, i requires 0 <= i < |es| => RenderText(es[i], ShortCircuitGet(dict, es[i].key)))
  }

  /** A second pass with the same dictionary changes nothing further. */
  lemma RenderAllTextIdempotent(es: seq<Element>, dict: Value)
    ensures RenderAllText(RenderAllText(es, dict), dict) == RenderAllText(es, dict)
  {
  }

  /** Only `textContent` is ever written: tag, type, key, placeholder and value are kept. */
  lemma RenderAllTextOnlyContent(es: seq<Element>, dict: Value, i: int)
    requires 0 <= i < |es|
    ensures RenderAllText(es, dict)[i] == es[i].(content := RenderAllText(es, dict)[i].content)
  {
  }

  /** Element `i` of `RenderAllText` is element `i` with its text rendered. */
  lemma RenderAllTextAt(es: seq<Element>, dict: Value, i: nat)
    requires i < |es|
    ensures RenderAllText(es, dict)[i] == RenderText(es[i], ShortCircuitGet(dict, es[i].key))
  {
  }

  /** The loop of `updateContent` over the `data-lang` elements. */
  method UpdateTexts(elems: array<Element>, dict: Value)
    modifies elems
    ensures elems[..] == RenderAllText(old(elems[..]), dict)
  {
    ghost var before, target := elems[..], RenderAllText(elems[..], dict);
    for i := 0 to elems.Length
      invariant forall k :: 0 <= k < i ==> elems[k] == target[k]
      invariant forall k :: i <= k < elems.Length ==> elems[k] == before[k]
    {
      RenderAllTextAt(before, dict, i);
      elems[i] := RenderText(elems[i], ShortCircuitGet(dict, elems[i].key));
    }
    assert elems[..] == target;
  }

  // ---------------------------------------------------------------------------
  // Theme and language toggles

  /** `currentTheme === 'dark' ? 'light' : 'dark'`. */
  function FlipTheme(theme: string): (r: string)
    ensures r == "dark" || r == "light"
    ensures r == "light" <==> theme == "dark"
  {
    Other(theme, "dark", "light")
  }

  /** The icon class of the theme toggle: a sun while dark, a moon otherwise. */
  function ThemeIcon(theme: string): (c: string)
    ensures c == "fas fa-sun" <==> theme == "dark"
    ensures c == "fas fa-sun" || c == "fas fa-moon"
  {
    if theme == "dark" then "fas fa-sun" else "fas fa-moon"
  }

  /** `currentLang === 'es' ? 'en' : 'es'`. */
  function FlipLang(lang: string): (r: string)
    ensures r == "es" || r == "en"
    ensures r == "en" <==> lang == "es"
  {
    Other(lang, "es", "en")
  }

  /**
   * main.js and i18n-simple.js store the language under the same key, and
   * their toggles agree on `en` and `es`; any other stored value is sent to
   * `es` by this one and to `en` by i18n-simple.js.
   */
  lemma FlipLangAgainstToggle(lang: string)
    ensures lang == "en" || lang == "es" ==> FlipLang(lang) == I18nSimple.Toggle(lang)
    ensures lang != "en" && lang != "es" ==> FlipLang(lang) == "es" && I18nSimple.Toggle(lang) == "en"
  {
  }

  /** Two flips restore the theme and the language exactly when they are one of their two values. */
  lemma FlipTwice(theme: string, lang: string)
    ensures FlipTheme(FlipTheme(theme)) == theme <==> theme == "dark" || theme == "light"
    ensures FlipLang(FlipLang(lang)) == lang <==> lang == "es" || lang == "en"
  {
  }

  // ---------------------------------------------------------------------------
  // Navigation

  /** The visible part of a `.section`: its id and the top and bottom of its bounding box. */
  datatype SectionBox = SectionBox(id: string, top: real, bottom: real)

  /** A section counts as current when it spans the line 100px below the top of the viewport. */
  predicate InView(s: SectionBox) {
    s.top <= 100.0 && s.bottom >= 100.0
  }

  /** The id recorded by the scroll loop: that of the last section in view, or `""`. */
  ghost function LastInView(sections: seq<SectionBox>): string
    decreases |sections|
  {
    if sections == [] then ""
    else if InView(sections[|sections| - 1]) then sections[|sections| - 1].id
    else LastInView(sections[..|sections| - 1])
  }

  /** The last section in view wins; with none in view the result is `""`. */
  lemma {:induction false} LastInViewWins(sections: seq<SectionBox>, i: int)
    requires 0 <= i < |sections| && InView(sections[i])
    requires forall j :: i < j < |sections| ==> !InView(sections[j])
    ensures LastInView(sections) == sections[i].id
    decreases |sections|
  {
    if i < |sections| - 1 {
      var p := sections[..|sections| - 1];
      LastInViewWins(p, i);
    }
  }

  lemma {:induction false} NoneInView(sections: seq<SectionBox>)
    requires forall j :: 0 <= j < |sections| ==> !InView(sections[j])
    ensures LastInView(sections) == ""
    decreases |sections|
  {
    if sections != [] {
      NoneInView(sections[..|sections| - 1]);
    }
  }

  /** The loop of the scroll handler that records `currentSection`. */
  method ScrolledSection(sections: seq<SectionBox>) returns (current: string)
    ensures current == LastInView(sections)
  {
    current := "";
    for i := 0 to |sections|
      invariant current == LastInView(sections[..i])
    {
      if InView(sections[i]) {
        current := sections[i].id;
      }
      assert sections[..i + 1][..i] == sections[..i];
    }
    assert sections[..|sections|] == sections;
  }

  /** Link `l` after the scroll handler found section `current`. */
  function MarkForSection(l: NavLink, current: string): NavLink {
    NavLink(l.href, l.href == "#" + current)
  }

  /** The scroll handler: with a current section, exactly the links pointing at it become active. */
  method OnScroll(sections: seq<SectionBox>, links: array<NavLink>)
    modifies links
    ensures var current := LastInView(sections);
      if current == "" then links[..] == old(links[..])
      else forall j :: 0 <= j < links.Length ==> links[j] == MarkForSection(old(links[j]), current)
  {
    var current := ScrolledSection(sections);
    if current != "" {
      for j := 0 to links.Length
        invariant forall k :: 0 <= k < j ==> links[k] == MarkForSection(old(links[k]), current)
        invariant forall k :: j <= k < links.Length ==> links[k] == old(links[k])
      {
        links[j] := MarkForSection(links[j], current);
      }
    }
  }

  /**
   * After the scroll handler, a link is active exactly when its `href` points
   * at the current section: links sharing that `href` all become active.
   */
  lemma ScrollMarksMatching(links: seq<NavLink>, current: string)
    ensures var marked := seq(|links|, j requires 0 <= j < |links| => MarkForSection(links[j], current));
      |marked| == |links|
      && forall j :: 0 <= j < |links| ==>
        marked[j].href == links[j].href && (marked[j].active <==> links[j].href == "#" + current)
  {
  }

  /** When exactly one link points at the current section, it is the only active link afterwards. */
  lemma ScrollMarksOne(links: seq<NavLink>, current: string, i: int)
    requires 0 <= i < |links| && links[i].href == "#" + current
    requires forall j :: 0 <= j < |links| && j != i ==> links[j].href != links[i].href
    ensures OnlyActive(seq(|links|, j requires 0 <= j < |links| => MarkForSection(links[j], current)), i)
  {
  }

  /**
   * The click handler of link `i`: when the link's target exists (`targetFound`),
   * every link loses `active` and the clicked one gains it; otherwise nothing changes.
   */
  method OnNavClick(links: array<NavLink>, i: int, targetFound: bool)
    requires 0 <= i < links.Length
    modifies links
    ensures !targetFound ==> links[..] == old(links[..])
    ensures targetFound ==> OnlyActive(links[..], i)
    ensures forall j :: 0 <= j < links.Length ==> links[j].href == old(links[j].href)
  {
    if targetFound {
      for j := 0 to links.Length
        invariant forall k :: 0 <= k < j ==> links[k] == old(links[k]).(active := false)
        invariant forall k :: j <= k < links.Length ==> links[k] == old(links[k])
      {
        links[j] := links[j].(active := false);
      }
      links[i] := links[i].(active := true);
    }
  }

  // ---------------------------------------------------------------------------
  // The embedded dictionaries of loadTranslations

  /** The Spanish dictionary of `loadTranslations`. */
  const EsDict: Node :=
    Map(map[
      "nav" := Map(map[
        "home" := Leaf("Inicio"),
        "about" := Leaf("Sobre M\U{00ED}"),
        "experience" := Leaf("Experiencia"),
        "projects" := Leaf("Proyectos"),
        "contact" := Leaf("Contacto")
      ]),
      "hero" := Map(map[
        "greeting" := Leaf("Hola, soy"),
        "title" := Leaf("DevOps Engineer & Cloud Specialist"),
        "description" := Leaf("Especialista en infraestructura en la nube, automatizaci\U{00F3}n y DevOps con experiencia en AWS, Azure, Kubernetes y tecnolog\U{00ED}as de contenedores."),
        "cta1" := Leaf("Cont\U{00E1}ctame"),
        "cta2" := Leaf("Ver Proyectos"),
        "status" := Leaf("Disponible para trabajar")
      ]),
      "about" := Map(map[
        "title" := Leaf("Sobre M\U{00ED}"),
        "intro" := Leaf("Soy un DevOps Engineer apasionado por la automatizaci\U{00F3}n y la infraestructura en la nube, ubicado en Tegucigalpa, Honduras."),
        "description" := Leaf("Con experiencia en dise\U{00F1}o, implementaci\U{00F3}n y gesti\U{00F3}n de infraestructuras escalables en AWS y Azure, especializado en contenedores, orquestaci\U{00F3}n con Kubernetes y pr\U{00E1}cticas de CI/CD."),
        "stats" := Map(map[
          "experience" := Leaf("A\U{00F1}os de Experiencia"),
          "projects" := Leaf("Proyectos Completados"),
          "certifications" := Leaf("Certificaciones Cloud")
        ])
      ]),
      "contact" := Map(map[
        "title" := Leaf("\U{00A1}Conectemos!"),
        "location" := Leaf("Ubicaci\U{00F3}n"),
        "phone" := Leaf("Tel\U{00E9}fono"),
        "email" := Leaf("Email"),
        "form" := Map(map[
          "name" := Leaf("Nombre"),
          "email" := Leaf("Email"),
          "message" := Leaf("Mensaje"),
          "send" := Leaf("Enviar Mensaje")
        ])
      ])
    ])

  /** The English dictionary of `loadTranslations`. */
  const EnDict: Node :=
    Map(map[
      "nav" := Map(map[
        "home" := Leaf("Home"),
        "about" := Leaf("About"),
        "experience" := Leaf("Experience"),
        "projects" := Leaf("Projects"),
        "contact" := Leaf("Contact")
      ]),
      "hero" := Map(map[
        "greeting" := Leaf("Hi, I am"),
        "title" := Leaf("DevOps Engineer & Cloud Specialist"),
        "description" := Leaf("Cloud infrastructure specialist, automation and DevOps expert with experience in AWS, Azure, Kubernetes and container technologies."),
        "cta1" := Leaf("Contact Me"),
        "cta2" := Leaf("View Projects"),
        "status" := Leaf("Available for work")
      ]),
      "about" := Map(map[
        "title" := Leaf("About Me"),
        "intro" := Leaf("I am a DevOps Engineer passionate about automation and cloud infrastructure, located in Tegucigalpa, Honduras."),
        "description" := Leaf("With experience in designing, implementing and managing scalable infrastructures on AWS and Azure, specialized in containers, Kubernetes orchestration and CI/CD practices."),
        "stats" := Map(map[
          "experience" := Leaf("Years of Experience"),
          "projects" := Leaf("Completed Projects"),
          "certifications" := Leaf("Cloud Certifications")
        ])
      ]),
      "contact" := Map(map[
        "title" := Leaf("Let's Connect!"),
        "location" := Leaf("Location"),
        "phone" := Leaf("Phone"),
        "email" := Leaf("Email"),
        "form" := Map(map[
          "name" := Leaf("Name"),
          "email" := Leaf("Email"),
          "message" := Leaf("Message"),
          "send" := Leaf("Send Message")
        ])
      ])
    ])

  /** Following `contact.form.send` through a dictionary whose `contact.form` holds a `send` leaf. */
  lemma {:induction false} SendPath(d: map<string, Node>, text: string)
    requires "contact" in d && d["contact"].Map? && "form" in d["contact"].fields
    requires d["contact"].fields["form"].Map? && "send" in d["contact"].fields["form"].fields
    requires d["contact"].fields["form"].fields["send"] == Leaf(text) && text != ""
    ensures ShortCircuitGet(Found(Map(d)), "contact.form.send") == Found(Leaf(text))
  {
    var keys := ["contact", "form", "send"];
    assert Join(keys, '.') == "contact.form.send";
    SplitJoin(keys, '.');
    var c := d["contact"];
    var f := c.fields["form"];
    assert ShortCircuitStep(Found(Map(d)), "contact") == Found(c);
    assert ShortCircuitStep(Found(c), "form") == Found(f);
    assert ShortCircuitStep(Found(f), "send") == Found(Leaf(text));
    assert keys[1..] == ["form", "send"] && keys[1..][1..] == ["send"] && keys[1..][1..][1..] == [];
  }

  /** The Spanish and English labels of the send button. */
  lemma SendLabel()
    ensures ShortCircuitGet(Found(EsDict), "contact.form.send") == Found(Leaf("Enviar Mensaje"))
    ensures ShortCircuitGet(Found(EnDict), "contact.form.send") == Found(Leaf("Send Message"))
  {
    SendPath(EsDict.fields, "Enviar Mensaje");
    SendPath(EnDict.fields, "Send Message");
  }

  // ---------------------------------------------------------------------------
  // The application object

  class ModernPortfolio {
    var currentLang: string
    var currentTheme: string
    /** `this.translations`, a `Map` from language code to dictionary. */
    var translations: map<string, Node>
    var isLoading: bool
    /** localStorage. */
    var storage: map<string, string>
    /** The `data-theme` attribute of the document element. */
    var dataTheme: string
    /** The class of the `<i>` inside `#theme-toggle`; `None` when there is no such icon. */
    var themeIcon: Option<string>
    /** The text of `#lang-toggle`; `None` when the page has no toggle. */
    var langLabel: Option<string>

    /** The page shows the current theme: attribute and icon agree with it. */
    ghost predicate ThemeShown()
      reads this
    {
      dataTheme == currentTheme && (themeIcon.Some? ==> themeIcon.value == ThemeIcon(currentTheme))
    }

    /** The language button shows the current code in capitals. */
    ghost predicate LangShown()
      reads this
    {
      langLabel.Some? ==> langLabel.value == Upper(currentLang)
    }

    /** `translations.get(currentLang)`. */
    function CurrentDictionary(): Value
      reads this
    {
      if currentLang in translations then Found(translations[currentLang]) else Undefined
    }

    /** The constructor's field defaults. */
    constructor (stored: map<string, string>, dataTheme: string, themeIcon: Option<string>, langLabel: Option<string>)
      ensures currentLang == StoredOr(stored, LangKey, DefaultLang)
      ensures currentTheme == StoredOr(stored, ThemeKey, DefaultTheme)
      ensures LangKey !in stored ==> currentLang == "es"
      ensures ThemeKey !in stored ==> currentTheme == "dark"
      ensures translations == map[] && isLoading && storage == stored
      ensures this.dataTheme == dataTheme && this.themeIcon == themeIcon && this.langLabel == langLabel
    {
      currentLang := StoredOr(stored, LangKey, DefaultLang);
      currentTheme := StoredOr(stored, ThemeKey, DefaultTheme);
      translations := map[];
      isLoading := true;
      storage := stored;
      this.dataTheme := dataTheme;
      this.themeIcon := themeIcon;
      this.langLabel := langLabel;
    }

    /** `initTheme()`: apply the theme to the document and the icon. */
    method InitTheme()
      modifies this
      ensures ThemeShown()
      ensures currentTheme == old(currentTheme) && currentLang == old(currentLang) && storage == old(storage)
      ensures translations == old(translations) && langLabel == old(langLabel) && isLoading == old(isLoading)
      ensures themeIcon.Some? == old(themeIcon).Some?
    {
      dataTheme := currentTheme;
      if themeIcon.Some? {
        themeIcon := Some(ThemeIcon(currentTheme));
      }
    }

    /** The theme toggle's click handler. */
    method ToggleTheme()
      modifies this
      ensures ThemeShown()
      ensures currentTheme == FlipTheme(old(currentTheme))
      ensures storage == old(storage)[ThemeKey := currentTheme]
      ensures currentLang == old(currentLang) && translations == old(translations) && langLabel == old(langLabel)
      ensures themeIcon.Some? == old(themeIcon).Some? && isLoading == old(isLoading)
    {
      currentTheme := FlipTheme(currentTheme);
      dataTheme := currentTheme;
      storage := storage[ThemeKey := currentTheme];
      if themeIcon.Some? {
        themeIcon := Some(ThemeIcon(currentTheme));
      }
    }

    /** `updateContent()`: nothing without a dictionary for the current language, else one pass. */
    method UpdateContent(elems: array<Element>)
      modifies elems
      ensures !Truthy(CurrentDictionary()) ==> elems[..] == old(elems[..])
      ensures Truthy(CurrentDictionary()) ==> elems[..] == RenderAllText(old(elems[..]), CurrentDictionary())
    {
      var dict := CurrentDictionary();
      if !Truthy(dict) {
        return;
      }
      UpdateTexts(elems, dict);
    }

    /** `initLanguageToggle()`: label the button with the current code. */
    method InitLanguageToggle()
      modifies this
      ensures LangShown()
      ensures langLabel.Some? == old(langLabel).Some?
      ensures currentLang == old(currentLang) && currentTheme == old(currentTheme) && storage == old(storage)
      ensures translations == old(translations) && dataTheme == old(dataTheme) && themeIcon == old(themeIcon)
      ensures isLoading == old(isLoading)
    {
      if langLabel.Some? {
        langLabel := Some(Upper(currentLang));
      }
    }

    /** `loadTranslations()`: install the embedded dictionaries, label the toggle and render. */
    method LoadTranslations(elems: array<Element>)
      modifies this, elems
      ensures translations == map["es" := EsDict, "en" := EnDict]
      ensures LangShown()
      ensures currentLang == old(currentLang) && currentTheme == old(currentTheme) && storage == old(storage)
      ensures dataTheme == old(dataTheme) && themeIcon == old(themeIcon) && isLoading == old(isLoading)
      ensures langLabel.Some? == old(langLabel).Some?
      ensures currentLang in translations ==> elems[..] == RenderAllText(old(elems[..]), CurrentDictionary())
      ensures currentLang !in translations ==> elems[..] == old(elems[..])
    {
      translations := map["es" := EsDict, "en" := EnDict];
      InitLanguageToggle();
      UpdateContent(elems);
    }

    /** The language toggle's click handler. */
    method ToggleLanguage(elems: array<Element>)
      modifies this, elems
      ensures LangShown()
      ensures currentLang == FlipLang(old(currentLang))
      ensures storage == old(storage)[LangKey := currentLang]
      ensures langLabel.Some? == old(langLabel).Some?
      ensures currentTheme == old(currentTheme) && translations == old(translations)
      ensures dataTheme == old(dataTheme) && themeIcon == old(themeIcon) && isLoading == old(isLoading)
      ensures !Truthy(CurrentDictionary()) ==> elems[..] == old(elems[..])
      ensures Truthy(CurrentDictionary()) ==> elems[..] == RenderAllText(old(elems[..]), CurrentDictionary())
    {
      currentLang := FlipLang(currentLang);
      storage := storage[LangKey := currentLang];
      if langLabel.Some? {
        langLabel := Some(Upper(currentLang));
      }
      UpdateContent(elems);
    }
  }
}
