/**
 * script.js: the first draft of the site's behaviour. A global current language
 * (default `en`), dictionaries fetched from `lang/en.json` and `lang/es.json`,
 * `.lang-btn` buttons that switch language and remember it under
 * `preferred-language`, and `.nav-item` links that show one `.section` at a time.
 * The dotted-key lookup and the text rendering are the same expressions as in
 * scripts/main.js and reuse `MainPortfolio.ShortCircuitGet` and
 * `MainPortfolio.RenderAllText`.
 */
module LegacyScript {
  import opened Js
  import opened Dom
  import opened MainPortfolio

  const PreferenceKey := "preferred-language"
  const ButtonPrefix := "lang-"

  /**
   * What the two `fetch` calls and their `json()` parses deliver. Both files
   * are fetched before either is parsed, so a failed fetch of either file, or
   * a failed parse of the English one, installs nothing.
   */
  datatype LoadOutcome =
    | LoadFailed                 // a fetch threw, or the English parse threw
    | EnglishOnly(en: Node)      // both fetched and English parsed, then the Spanish parse threw
    | Loaded(en: Node, es: Node)

  /**
   * An element found by its `id` that can carry the `active` class: a
   * `.lang-btn` button or a `.section`.
   */
  datatype IdElement = IdElement(id: string, active: bool)

  /** A `.nav-item` link with its `data-section` attribute. */
  datatype NavItem = NavItem(section: string, active: bool)

  /** `btn.id.replace('lang-', '')`: the language a button selects. */
  function ButtonLang(id: string): (lang: string)
    ensures !Contains(id, ButtonPrefix) ==> lang == id
    ensures |lang| == |id| || |lang| == |id| - |ButtonPrefix|
  {
    ReplaceFirst(id, ButtonPrefix, "")
  }

  /** The button with id `lang-<code>` selects exactly `<code>`. */
  lemma ButtonLangOfId(code: string)
    ensures ButtonLang(ButtonPrefix + code) == code
  {
    var id := ButtonPrefix + code;
    assert StartsWith(id, ButtonPrefix);
    assert IndexOf(id, ButtonPrefix) == 0;
    assert id[|ButtonPrefix|..] == code;
  }

  /** Only the `lang-` that comes first is removed: `lang-lang-<code>` selects `lang-<code>`. */
  lemma ButtonLangFirstOnly(code: string)
    ensures ButtonLang(ButtonPrefix + ButtonPrefix + code) == ButtonPrefix + code
  {
    assert ButtonPrefix + ButtonPrefix + code == ButtonPrefix + (ButtonPrefix + code);
    ButtonLangOfId(ButtonPrefix + code);
  }

  /** The `id` attributes of the elements, the list `getElementById` searches. */
  function Ids(elements: seq<IdElement>): (ids: seq<string>)
    ensures |ids| == |elements| && forall j :: 0 <= j < |elements| ==> ids[j] == elements[j].id
  {
    seq(|elements|, j requires 0 <= j < |elements| => elements[j].id)
  }

  /** Without a dictionary every lookup is `undefined`, so rendering changes nothing. */
  lemma RenderWithoutDictionary(es: seq<Element>)
    ensures RenderAllText(es, Undefined) == es
  {
  }

  /**
   * The nav click handler on item `i`: every item and every section loses
   * `active`, item `i` gains it, and so does the first section whose id is the
   * item's `data-section`, when there is one.
   */
  method NavClick(items: array<NavItem>, sections: array<IdElement>, i: int)
    requires 0 <= i < items.Length
    modifies items, sections
    ensures forall j :: 0 <= j < items.Length ==> items[j] == old(items[j]).(active := j == i)
    ensures var k := ElementById(Ids(old(sections[..])), old(items[i].section));
      forall j :: 0 <= j < sections.Length ==> sections[j] == old(sections[j]).(active := j == k)
  {
    var target := items[i].section;
    ghost var k := ElementById(Ids(sections[..]), target);
    for j := 0 to items.Length
      modifies items
      invariant forall m :: 0 <= m < j ==> items[m] == old(items[m]).(active := false)
      invariant forall m :: j <= m < items.Length ==> items[m] == old(items[m])
    {
      items[j] := items[j].(active := false);
    }
    for j := 0 to sections.Length
      modifies sections
      invariant forall m :: 0 <= m < j ==> sections[m] == old(sections[m]).(active := false)
      invariant forall m :: j <= m < sections.Length ==> sections[m] == old(sections[m])
    {
      sections[j] := sections[j].(active := false);
    }
    items[i] := items[i].(active := true);
    assert Ids(sections[..]) == Ids(old(sections[..]));
    var s := ElementById(Ids(sections[..]), target);
    if s != -1 {
      sections[s] := sections[s].(active := true);
    }
  }

  /** The global state of script.js: `currentLanguage`, `translations` and localStorage. */
  class LegacySite {
    var currentLanguage: string
    /** The `translations` object, keyed by language code. */
    var translations: map<string, Node>
    var storage: map<string, string>

    constructor (stored: map<string, string>)
      ensures currentLanguage == "en" && translations == map[] && storage == stored
    {
      currentLanguage := "en";
      translations := map[];
      storage := stored;
    }

    /** `translations[currentLanguage]`. */
    function Dictionary(): Value
      reads this
    {
      if currentLanguage in translations then Found(translations[currentLanguage]) else Undefined
    }

    /** `updateContent()`: one text pass over the `data-lang` elements. */
    method UpdateContent(elems: array<Element>)
      modifies elems
      ensures elems[..] == RenderAllText(old(elems[..]), Dictionary())
      ensures currentLanguage !in translations ==> elems[..] == old(elems[..])
    {
      UpdateTexts(elems, Dictionary());
    }

    /** `loadTranslations()`, with the outcome of the fetches as input. */
    method LoadTranslations(outcome: LoadOutcome, elems: array<Element>)
      modifies this, elems
      ensures currentLanguage == old(currentLanguage) && storage == old(storage)
      ensures outcome.LoadFailed? ==> translations == old(translations) && elems[..] == old(elems[..])
      ensures outcome.EnglishOnly? ==>
        translations == old(translations)["en" := outcome.en] && elems[..] == old(elems[..])
      ensures outcome.Loaded? ==>
        translations == old(translations)["en" := outcome.en]["es" := outcome.es]
        && elems[..] == RenderAllText(old(elems[..]), Dictionary())
    {
      match outcome
      case LoadFailed =>
      case EnglishOnly(en) =>
        translations := translations["en" := en];
      case Loaded(en, es) =>
        translations := translations["en" := en]["es" := es];
        UpdateContent(elems);
    }

    /**
     * The click handler of language button `i`. Choosing the current language
     * changes nothing; any other choice becomes current, leaves exactly that
     * button active, re-renders and is remembered.
     */
    method ClickLanguage(buttons: array<IdElement>, i: int, elems: array<Element>)
      requires 0 <= i < buttons.Length
      modifies this, buttons, elems
      ensures translations == old(translations)
      ensures var lang := ButtonLang(old(buttons[i].id));
        if lang == old(currentLanguage) then
          currentLanguage == old(currentLanguage) && storage == old(storage)
          && buttons[..] == old(buttons[..]) && elems[..] == old(elems[..])
        else
          currentLanguage == lang && storage == old(storage)[PreferenceKey := lang]
          && (forall j :: 0 <= j < buttons.Length ==> buttons[j] == old(buttons[j]).(active := j == i))
          && elems[..] == RenderAllText(old(elems[..]), Dictionary())
    {
      var lang := ButtonLang(buttons[i].id);
      if lang != currentLanguage {
        currentLanguage := lang;
        for j := 0 to buttons.Length
          modifies buttons
          invariant forall m :: 0 <= m < j ==> buttons[m] == old(buttons[m]).(active := false)
          invariant forall m :: j <= m < buttons.Length ==> buttons[m] == old(buttons[m])
        {
          buttons[j] := buttons[j].(active := false);
        }
        buttons[i] := buttons[i].(active := true);
        UpdateContent(elems);
        storage := storage[PreferenceKey := lang];
      }
    }

    /**
     * The preference replay at the end of `initLanguageSystem`: a non-empty saved
     * language other than the current one clicks the element `lang-<saved>`.
     * When no button has that id the click is made on `null`, which throws.
     */
    method ReplayPreference(buttons: array<IdElement>, elems: array<Element>) returns (outcome: Replay)
      modifies this, buttons, elems
      ensures translations == old(translations)
      ensures var saved := if PreferenceKey in old(storage) then old(storage)[PreferenceKey] else "";
        var k := ElementById(Ids(old(buttons[..])), ButtonPrefix + saved);
        if saved == "" || saved == old(currentLanguage) then
          outcome == NotReplayed && currentLanguage == old(currentLanguage) && storage == old(storage)
          && buttons[..] == old(buttons[..]) && elems[..] == old(elems[..])
        else if k == -1 then
          outcome == ButtonMissing && currentLanguage == old(currentLanguage) && storage == old(storage)
          && buttons[..] == old(buttons[..]) && elems[..] == old(elems[..])
        else
          outcome == Replayed && currentLanguage == saved && storage == old(storage)
          && (forall j :: 0 <= j < buttons.Length ==> buttons[j] == old(buttons[j]).(active := j == k))
          && elems[..] == RenderAllText(old(elems[..]), Dictionary())
    {
      var saved := if PreferenceKey in storage then storage[PreferenceKey] else "";
      if saved == "" || saved == currentLanguage {
        return NotReplayed;
      }
      var k := ElementById(Ids(buttons[..]), ButtonPrefix + saved);
      if k == -1 {
        return ButtonMissing;
      }
      assert Ids(buttons[..])[k] == buttons[k].id == ButtonPrefix + saved;
      ButtonLangOfId(saved);
      ghost var stored := storage;
      assert stored[PreferenceKey := saved] == stored;
      ClickLanguage(buttons, k, elems);
      return Replayed;
    }
  }

  /** How the preference replay ended. */
  datatype Replay = NotReplayed | Replayed | ButtonMissing
}
