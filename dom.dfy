/**
 * The document elements the scripts read and write, reduced to the properties
 * they touch.
 */
module Dom {

  /**
   * An element bound to a translation key (`data-i18n` or `data-lang`).
   * `content` is its markup/text content (`innerHTML` or `textContent`);
   * `inputType` is the `type` property, meaningful for `INPUT` elements.
   */
  datatype Element = Element(
    tag: string,
    inputType: string,
    key: string,
    content: string,
    placeholder: string,
    value: string)

  /** The three element properties a translation can be written to. */
  datatype Slot = ContentSlot | PlaceholderSlot | ValueSlot

  function Get(e: Element, s: Slot): string {
    match s
    case ContentSlot => e.content
    case PlaceholderSlot => e.placeholder
    case ValueSlot => e.value
  }

  /** Writes `text` to one property and leaves every other property as it was. */
  function Set(e: Element, s: Slot, text: string): (r: Element)
    ensures Get(r, s) == text
    ensures forall o: Slot :: o != s ==> Get(r, o) == Get(e, o)
    ensures r.tag == e.tag && r.inputType == e.inputType && r.key == e.key
  {
    match s
    case ContentSlot => e.(content := text)
    case PlaceholderSlot => e.(placeholder := text)
    case ValueSlot => e.(value := text)
  }

  /** A navigation link (`.nav-link`) with its `href` and whether it carries the `active` class. */
  datatype NavLink = NavLink(href: string, active: bool)

  /** Whether exactly the element at index `i` is active. */
  ghost predicate OnlyActive(links: seq<NavLink>, i: int) {
    forall j :: 0 <= j < |links| ==> links[j].active == (j == i)
  }

  /**
   * `document.getElementById(id)` over the ids of a list of elements in document
   * order: the index of the first element with that id, or -1 when there is none.
   */
  function ElementById(ids: seq<string>, id: string): (r: int)
    ensures -1 <= r < |ids|
    ensures r == -1 <==> id !in ids
    ensures r >= 0 ==> ids[r] == id && forall j :: 0 <= j < r ==> ids[j] != id
    decreases |ids|
  {
    if ids == [] then -1
    else if ids[0] == id then 0
    else
      var k := ElementById(ids[1..], id);
      assert forall x :: x in ids[1..] ==> x in ids;
      if k == -1 then -1 else k + 1
  }
}
