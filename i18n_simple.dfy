/**
 * scripts/i18n-simple.js: the `data-i18n` translation system. Dotted keys are
 * resolved against the dictionary of the current language, the result is
 * written to the property that suits each element, and the language toggle
 * switches between `en` and `es`, remembering the choice under `portfolio-lang`.
 */
module I18nSimple {
  import opened Js
  import opened Dom

  const StorageKey := "portfolio-lang"
  const DefaultLang := "en"

  // ---------------------------------------------------------------------------
  // getNestedValue

  /** `!isNaN(key)`: the segment converts to a number. */
  predicate IsNumericSegment(key: string) {
    NumericString(key)
  }

  /** The property name `current[parseInt(key)]` reads: `"NaN"` when no digit is read, otherwise the integer printed back. */
  function NumericKey(key: string): string {
    KeyOf(ParseInt(key))
  }

  /** `String(n)` of what `parseInt` returned: `"NaN"` for `NaN`. */
  function KeyOf(n: Option<int>): string {
    if n.None? then "NaN" else IntString(n.value)
  }

  /** One step of the `reduce`: only objects and arrays are indexed, anything else gives `undefined`. */
  function Step(current: Value, key: string): Value {
    if IsObject(current) then
      Prop(current.node, if IsNumericSegment(key) then NumericKey(key) else key)
    else Undefined
  }

  /** The `reduce` over the segments, left to right. */
  function Walk(current: Value, keys: seq<string>): Value
    decreases |keys|
  {
    if keys == [] then current else Walk(Step(current, keys[0]), keys[1..])
  }

  /** `getNestedValue(obj, path)`. */
  function GetNestedValue(obj: Value, path: string): (r: Value)
    ensures !IsObject(obj) ==> r == Undefined
    ensures '.' !in path ==> r == Step(obj, path)
  {
    var keys := Split(path, '.');
    SplitWithoutSeparator(path, '.');
    WalkSingle(obj, path);
    if IsObject(obj) then Walk(obj, keys)
    else WalkFromNonObject(obj, keys); Walk(obj, keys)
  }

  lemma WalkSingle(obj: Value, key: string)
    ensures Walk(obj, [key]) == Step(obj, key)
  {
    assert [key][1..] == [];
  }

  lemma SplitWithoutSeparator(s: string, sep: char)
    ensures sep !in s ==> Split(s, sep) == [s]
  {
    if sep !in s {
      SplitJoin([s], sep);
    }
  }

  /** Once a step reaches something that is not an object, every later step yields `undefined`. */
  lemma {:induction false} WalkFromNonObject(current: Value, keys: seq<string>)
    requires !IsObject(current) && keys != []
    ensures Walk(current, keys) == Undefined
    decreases |keys|
  {
    if |keys| > 1 {
      WalkFromNonObject(Undefined, keys[1..]);
    }
  }

  /**
   * Walking segments that fail the `!isNaN` test through a dictionary of
   * nested objects reads each segment as a property name, so it reaches the
   * node at that path, or `undefined` once a key is missing.
   */
  lemma {:induction false} WalkResolves(n: Node, keys: seq<string>)
    requires MapTree(n)
    requires forall i :: 0 <= i < |keys| ==> !IsNumericSegment(keys[i])
    ensures Walk(Found(n), keys) == Resolve(n, keys)
    decreases |keys|
  {
    if keys != [] {
      var k := keys[0];
      if n.Map? && k in n.fields {
        WalkResolves(n.fields[k], keys[1..]);
      } else if |keys| > 1 {
        WalkFromNonObject(Undefined, keys[1..]);
      }
    }
  }

  /**
   * `getNestedValue` of segments joined with `.`, none containing a `.` or
   * passing the `!isNaN` test, is the node at that path in the dictionary.
   */
  lemma LookupFollowsPath(n: Node, keys: seq<string>)
    requires MapTree(n) && |keys| >= 1
    requires forall i :: 0 <= i < |keys| ==> '.' !in keys[i] && !IsNumericSegment(keys[i])
    ensures GetNestedValue(Found(n), Join(keys, '.')) == Resolve(n, keys)
  {
    SplitJoin(keys, '.');
    WalkResolves(n, keys);
  }

  lemma TrimDigits(s: string)
    requires AllDigits(s)
    ensures Trim(s) == s
  {
    if s != [] {
      assert IsDigit(s[0]) && IsDigit(s[|s| - 1]);
    }
    TrimOfTrimmed(s);
  }

  /** A segment that is already a canonical index reads the same property by number as by name. */
  lemma CanonicalSegmentIsName(key: string)
    requires IsCanonicalIndex(key)
    ensures IsNumericSegment(key) && NumericKey(key) == key
  {
    DigitsNumeric(key);
    ParseIntDigits(key);
    DecimalOfCanonical(key);
  }

  /**
   * A canonical number followed by anything that ends the digits, other than
   * the `x` of a hexadecimal prefix, is read by `parseInt` as that number:
   * `1.5`, `1e3` and `0o7` read the properties `1`, `1` and `0`.
   */
  lemma IntegerPartRead(d: string, rest: string)
    requires IsCanonicalIndex(d) && rest != [] && !IsDigit(rest[0]) && rest[0] != 'x' && rest[0] != 'X'
    ensures NumericKey(d + rest) == d
  {
    ParseIntDigitsThen(d, rest);
    DecimalOfCanonical(d);
  }

  /** A segment with a fraction, such as `1.5`, passes the number test and reads the property of its integer part. */
  lemma FractionSegment(d: string, f: string)
    requires IsCanonicalIndex(d) && AllDigits(f)
    ensures IsNumericSegment(d + "." + f) && NumericKey(d + "." + f) == d
  {
    assert d + "." + f == d + ("." + f);
    IntegerPartRead(d, "." + f);
    FractionNumeric(d, f);
  }

  /** A segment with an exponent, such as `1e3`, passes the number test and reads the property of its mantissa. */
  lemma ExponentSegment(d: string, e: string)
    requires IsCanonicalIndex(d) && AllDigits(e) && e != []
    ensures IsNumericSegment(d + "e" + e) && NumericKey(d + "e" + e) == d
  {
    assert d + "e" + e == d + ("e" + e);
    IntegerPartRead(d, "e" + e);
    ExponentNumeric(d, e);
  }

  /** A signed number passes the number test; `+` is dropped, and `-0` reads the property `0`. */
  lemma SignedSegment(d: string)
    requires IsCanonicalIndex(d)
    ensures IsNumericSegment("+" + d) && NumericKey("+" + d) == d
    ensures IsNumericSegment("-" + d) && NumericKey("-" + d) == (if d == "0" then "0" else "-" + d)
  {
    SignedNumeric(d);
    var plus, minus := "+" + d, "-" + d;
    assert plus[1..] == d && minus[1..] == d;
    PlusSegment(plus);
    MinusSegment(minus);
  }

  /** A segment `+<d>` reads the index `<d>` itself. */
  lemma PlusSegment(s: string)
    requires |s| >= 2 && s[0] == '+' && IsCanonicalIndex(s[1..])
    ensures NumericKey(s) == s[1..]
  {
    ParseIntPlus(s);
    DecimalOfCanonical(s[1..]);
  }

  /** A segment `-<d>` reads itself, except that `-0` reads `0`. */
  lemma MinusSegment(s: string)
    requires |s| >= 2 && s[0] == '-' && IsCanonicalIndex(s[1..])
    ensures NumericKey(s) == (if s[1..] == "0" then "0" else s)
  {
    if s[1..] != "0" {
      MinusNonZeroSegment(s);
    } else {
      ParseIntMinus(s);
      ZeroKey(s);
    }
  }

  /** A segment `-<d>` with `<d>` not `0` reads itself. */
  lemma MinusNonZeroSegment(s: string)
    requires |s| >= 2 && s[0] == '-' && IsCanonicalIndex(s[1..]) && s[1..] != "0"
    ensures NumericKey(s) == s
  {
    var v := NonZeroIndexValue(s[1..]);
    NegativeKey(s, v);
  }

  /** A canonical index other than `0` reads as a positive number that renders as the index. */
  lemma NonZeroIndexValue(d: string) returns (v: nat)
    requires IsCanonicalIndex(d) && d != "0"
    ensures v > 0 && ParseDigits(d) == Some(v) && DecimalString(v) == d
  {
    v := DigitsValue(d);
    assert v > 0 by {
      if |d| > 1 { CanonicalDigitsPositive(d); } else { assert d[0] != '0'; }
    }
    ParseDigitsAll(d);
    DecimalOfCanonical(d);
  }

  /**
   * A segment `-` followed by digits that read as a positive number and are
   * that number's decimal rendering reads itself.
   */
  lemma NegativeKey(s: string, v: nat)
    requires |s| >= 2 && s[0] == '-' && ParseDigits(s[1..]) == Some(v) && v > 0 && DecimalString(v) == s[1..]
    ensures NumericKey(s) == s
  {
    ParseIntNegated(s, v);
    NegativeKeyOf(v, s[1..]);
    assert s == "-" + s[1..];
  }

  /** A negative number prints as `-` and the rendering of its magnitude. */
  lemma NegativeKeyOf(v: nat, k: string)
    requires v > 0 && DecimalString(v) == k
    ensures KeyOf(Some(-(v as int))) == "-" + k
  {
  }

  /** A segment `parseInt` reads as zero reads `0`. */
  lemma ZeroKey(s: string)
    requires ParseInt(s) == Some(0)
    ensures NumericKey(s) == "0"
  {
  }

  /** A hexadecimal segment such as `0x10` passes the number test and reads the property its value prints as (`16`). */
  lemma HexSegment(h: string)
    requires h != [] && forall i :: 0 <= i < |h| ==> IsHexDigit(h[i])
    ensures IsNumericSegment("0x" + h) && NumericKey("0x" + h) == DecimalString(HexValue(h))
  {
    HexNumeric(h);
    ParseIntHex(h);
  }

  /** `Infinity` passes the number test, but `parseInt` reads no digit, so the property `NaN` is read. */
  lemma InfinitySegment()
    ensures IsNumericSegment("Infinity") && NumericKey("Infinity") == "NaN"
  {
    var key := "Infinity";
    assert UnsignedDecimal(key);
    TrimmedNumeric(key);
    assert TrimStart(key) == key;
    assert !HasHexPrefix(key);
    assert DigitPrefix(key) == [];
  }

  /**
   * A numeric segment with a leading zero, such as `01`, reads the property its
   * number prints as (`1`), not the one it is spelled as.
   */
  lemma LeadingZeroReadsNumber(m: map<string, Node>, d: string)
    requires IsCanonicalIndex(d) && d in m
    ensures GetNestedValue(Found(Map(m)), "0" + d) == Found(m[d])
  {
    var key := "0" + d;
    assert AllDigits(key) && key[1..] == d;
    assert '.' !in key;
    DigitsNumeric(key);
    LeadingZeroValue(key);
    ParseIntDigits(key);
    DecimalOfCanonical(d);
    assert NumericKey(key) == d;
  }

  // ---------------------------------------------------------------------------
  // applyTranslations

  /** Where a translation goes: a submit button's value, a text field's placeholder, otherwise the markup. */
  function TargetSlot(e: Element): (s: Slot)
    ensures s == ValueSlot <==> e.tag == "INPUT" && e.inputType == "submit"
    ensures s == PlaceholderSlot <==> (e.tag == "INPUT" && e.inputType != "submit") || e.tag == "TEXTAREA"
  {
    if e.tag == "INPUT" then
      if e.inputType == "submit" then ValueSlot else PlaceholderSlot
    else if e.tag == "TEXTAREA" then PlaceholderSlot
    else ContentSlot
  }

  /** The effect of the loop body on one element, given what its key resolved to. */
  function Render(e: Element, translation: Value): (r: Element)
    ensures !Truthy(translation) ==> r == e
    ensures Truthy(translation) ==>
      Get(r, TargetSlot(e)) == ToJsString(translation.node)
      && (forall o: Slot :: o != TargetSlot(e) ==> Get(r, o) == Get(e, o))
    ensures r.tag == e.tag && r.inputType == e.inputType && r.key == e.key
  {
    if Truthy(translation) then Set(e, TargetSlot(e), ToJsString(translation.node)) else e
  }

  /** Every bound element after one pass of `applyTranslations` with dictionary `dict`. */
  function RenderAll(es: seq<Element>, dict: Node): (r: seq<Element>)
    ensures |r| == |es|
  {
    seq(|es|, i requires 0 <= i < |es| => Render(es[i], GetNestedValue(Found(dict), es[i].key)))
  }

  /** Element `i` of `RenderAll` is element `i` with its translation applied. */
  lemma RenderAllAt(es: seq<Element>, dict: Node, i: nat)
    requires i < |es|
    ensures RenderAll(es, dict)[i] == Render(es[i], GetNestedValue(Found(dict), es[i].key))
  {
  }

  /** The `forEach` of `applyTranslations` over the `data-i18n` elements. */
  method RenderElements(elems: array<Element>, dict: Node)
    modifies elems
    ensures elems[..] == RenderAll(old(elems[..]), dict)
  {
    ghost var before, target := elems[..], RenderAll(elems[..], dict);
    for i := 0 to elems.Length
      invariant forall k :: 0 <= k < i ==> elems[k] == target[k]
      invariant forall k :: i <= k < elems.Length ==> elems[k] == before[k]
    {
      RenderAllAt(before, dict, i);
      elems[i] := Render(elems[i], GetNestedValue(Found(dict), elems[i].key));
    }
    assert elems[..] == target;
  }

  /** A second pass with the same dictionary changes nothing further. */
  lemma RenderAllIdempotent(es: seq<Element>, dict: Node)
    ensures RenderAll(RenderAll(es, dict), dict) == RenderAll(es, dict)
  {
    var once := RenderAll(es, dict);
    forall i | 0 <= i < |es|
      ensures RenderAll(once, dict)[i] == once[i]
    {
      var t := GetNestedValue(Found(dict), es[i].key);
      assert once[i] == Render(es[i], t);
      if Truthy(t) {
        var s := TargetSlot(es[i]);
        assert TargetSlot(once[i]) == s;
        assert Render(once[i], t) == Set(once[i], s, ToJsString(t.node));
      }
    }
  }

  /**
   * Switching from `a` to `b` and back restores every element whose key has a
   * truthy translation in `a` or none in `b`; an element whose key only `b`
   * translates keeps `b`'s text.
   */
  lemma {:induction false} RenderRoundTrip(es: seq<Element>, a: Node, b: Node)
    requires forall i :: 0 <= i < |es| ==>
      Truthy(GetNestedValue(Found(a), es[i].key)) || !Truthy(GetNestedValue(Found(b), es[i].key))
    ensures RenderAll(RenderAll(RenderAll(es, a), b), a) == RenderAll(es, a)
  {
    var ra := RenderAll(es, a);
    var rb := RenderAll(ra, b);
    forall i | 0 <= i < |es|
      ensures RenderAll(rb, a)[i] == ra[i]
    {
      var ta := GetNestedValue(Found(a), es[i].key);
      var tb := GetNestedValue(Found(b), es[i].key);
      var s := TargetSlot(es[i]);
      if Truthy(ta) {
        assert TargetSlot(rb[i]) == s;
        assert Render(rb[i], ta) == Set(rb[i], s, ToJsString(ta.node));
        assert ra[i] == Set(es[i], s, ToJsString(ta.node));
      }
    }
  }

  /** The document title after the meta update: `meta.title` when both are truthy. */
  function UpdatedTitle(dict: Node, title: string): string {
    var meta := Prop(dict, "meta");
    if Truthy(meta) then
      var t := Prop(meta.node, "title");
      if Truthy(t) then ToJsString(t.node) else title
    else title
  }

  /** The description meta tag after the meta update; `None` when the page has no such tag. */
  function UpdatedDescription(dict: Node, description: Option<string>): Option<string> {
    var meta := Prop(dict, "meta");
    if Truthy(meta) && description.Some? then
      var d := Prop(meta.node, "description");
      if Truthy(d) then Some(ToJsString(d.node)) else description
    else description
  }

  // ---------------------------------------------------------------------------
  // switchLanguage

  /** `currentLang === 'en' ? 'es' : 'en'`. */
  function Toggle(lang: string): (r: string)
    ensures r == "en" || r == "es"
    ensures r == "es" <==> lang == "en"
  {
    Other(lang, "en", "es")
  }

  /** Two switches restore the starting language exactly when it is one of the two codes. */
  lemma ToggleTwice(lang: string)
    ensures Toggle(Toggle(lang)) == lang <==> lang == "en" || lang == "es"
  {
  }

  /** The toggle button's markup for a language. */
  function ButtonLabel(lang: string): string {
    "<span>" + Upper(lang) + "</span>"
  }

  /** The language the page starts in: the stored preference when it is a non-empty string, else `en`. */
  function InitialLang(stored: map<string, string>): (lang: string)
    ensures StorageKey !in stored ==> lang == DefaultLang
    ensures lang != ""
  {
    if StorageKey in stored && stored[StorageKey] != "" then stored[StorageKey] else DefaultLang
  }

  /** The module-level state of the script and the parts of the page it writes. */
  class SimpleI18n {
    var currentLang: string
    var translations: map<string, Node>
    /** localStorage. */
    var storage: map<string, string>
    /** `document.title`. */
    var title: string
    /** The `content` of `<meta name="description">`; `None` when the page has no such tag. */
    var description: Option<string>
    /** The markup of `#lang-toggle`; `None` when the page has no toggle. */
    var toggleLabel: Option<string>

    /** The stored preference always names the current language. */
    ghost predicate Valid()
      reads this
    {
      StorageKey in storage && storage[StorageKey] == currentLang
    }

    /** The dictionary of the current language, as `translations[currentLang]` reads it. */
    function CurrentDictionary(): Value
      reads this
    {
      if currentLang in translations then Found(translations[currentLang]) else Undefined
    }

    /** Script start: read the preference, forcing and storing `en` on a first visit. */
    constructor (stored: map<string, string>, title: string, description: Option<string>, toggleLabel: Option<string>)
      ensures Valid()
      ensures currentLang == InitialLang(stored)
      ensures storage == if StorageKey in stored && stored[StorageKey] != "" then stored else stored[StorageKey := DefaultLang]
      ensures translations == map[]
      ensures this.title == title && this.description == description && this.toggleLabel == toggleLabel
    {
      currentLang := InitialLang(stored);
      storage := if StorageKey in stored && stored[StorageKey] != "" then stored else stored[StorageKey := DefaultLang];
      translations := map[];
      this.title := title;
      this.description := description;
      this.toggleLabel := toggleLabel;
    }

    /** `applyTranslations()`: a no-op without a dictionary, else one pass over the bound elements and the meta update. */
    method ApplyTranslations(elems: array<Element>)
      modifies this, elems
      ensures currentLang == old(currentLang) && translations == old(translations)
      ensures storage == old(storage) && toggleLabel == old(toggleLabel)
      ensures !Truthy(CurrentDictionary()) ==>
        elems[..] == old(elems[..]) && title == old(title) && description == old(description)
      ensures Truthy(CurrentDictionary()) ==>
        var dict := CurrentDictionary().node;
        elems[..] == RenderAll(old(elems[..]), dict)
        && title == UpdatedTitle(dict, old(title))
        && description == UpdatedDescription(dict, old(description))
    {
      var current := CurrentDictionary();
      if !Truthy(current) {
        return;
      }
      var dict := current.node;
      RenderElements(elems, dict);
      title := UpdatedTitle(dict, title);
      description := UpdatedDescription(dict, description);
    }

    /** `updateLanguageButton()`. */
    method UpdateLanguageButton()
      modifies this
      ensures toggleLabel == if old(toggleLabel).Some? then Some(ButtonLabel(currentLang)) else None
      ensures currentLang == old(currentLang) && translations == old(translations) && storage == old(storage)
      ensures title == old(title) && description == old(description)
    {
      if toggleLabel.Some? {
        toggleLabel := Some(ButtonLabel(currentLang));
      }
    }

    /** `switchLanguage()`: flip the language, store it, relabel the toggle and re-render. */
    method SwitchLanguage(elems: array<Element>)
      requires Valid()
      modifies this, elems
      ensures Valid()
      ensures currentLang == Toggle(old(currentLang))
      ensures storage == old(storage)[StorageKey := currentLang]
      ensures translations == old(translations)
      ensures toggleLabel == if old(toggleLabel).Some? then Some(ButtonLabel(currentLang)) else None
      ensures !Truthy(CurrentDictionary()) ==>
        elems[..] == old(elems[..]) && title == old(title) && description == old(description)
      ensures Truthy(CurrentDictionary()) ==>
        var dict := CurrentDictionary().node;
        elems[..] == RenderAll(old(elems[..]), dict)
        && title == UpdatedTitle(dict, old(title))
        && description == UpdatedDescription(dict, old(description))
    {
      currentLang := Toggle(currentLang);
      storage := storage[StorageKey := currentLang];
      UpdateLanguageButton();
      ApplyTranslations(elems);
    }

    /**
     * `loadTranslations()` once both files have been fetched and parsed (`Some`),
     * or after a failure (`None`), which is only logged.
     */
    method LoadTranslations(loaded: Option<(Node, Node)>, elems: array<Element>)
      modifies this, elems
      ensures currentLang == old(currentLang) && storage == old(storage)
      ensures loaded.None? ==>
        translations == old(translations) && elems[..] == old(elems[..]) && toggleLabel == old(toggleLabel)
        && title == old(title) && description == old(description)
      ensures loaded.Some? ==> translations == map["en" := loaded.value.0, "es" := loaded.value.1]
      ensures loaded.Some? && !Truthy(CurrentDictionary()) ==>
        elems[..] == old(elems[..]) && title == old(title) && description == old(description)
      ensures loaded.Some? && Truthy(CurrentDictionary()) ==>
        var dict := CurrentDictionary().node;
        elems[..] == RenderAll(old(elems[..]), dict)
        && title == UpdatedTitle(dict, old(title))
        && description == UpdatedDescription(dict, old(description))
      ensures loaded.Some? ==>
        toggleLabel == if old(toggleLabel).Some? then Some(ButtonLabel(currentLang)) else None
    {
      if loaded.Some? {
        translations := map["en" := loaded.value.0, "es" := loaded.value.1];
        ApplyTranslations(elems);
        UpdateLanguageButton();
      }
    }
  }
}
