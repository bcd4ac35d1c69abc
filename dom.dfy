/**
 * What the scraper reads through Selenium, as plain values: an element's
 * visible text and attributes, a job card's sub-elements by CSS selector,
 * and a page's card lists by CSS selector.
 */
module Dom {
  import opened Wrappers

  /**
   * A web element: `.text` and the attributes `get_attribute` can return
   * (`innerHTML`, `href`, `datetime`); an absent attribute reads as `None`.
   */
  datatype Element = Element(text: string, attributes: map<string, string>)

  /** `element.get_attribute(name)`. */
  function Attribute(e: Element, name: string): (r: Option<string>)
    ensures r.Some? <==> name in e.attributes
    ensures r.Some? ==> r.value == e.attributes[name]
  {
    if name in e.attributes then Some(e.attributes[name]) else None
  }

  /**
   * A job card. `elements[sel]` is what `card.find_element(By.CSS_SELECTOR, sel)`
   * returns; a selector missing from the map raises `NoSuchElementException`.
   * `lists[sel]` is what `card.find_elements(...)` returns; a selector missing
   * from that map stands for a call that raised. `text` is `card.text`.
   */
  datatype Card = Card(elements: map<string, Element>, lists: map<string, seq<Element>>, text: string)

  /** `card.find_element(By.CSS_SELECTOR, sel)`, `None` for `NoSuchElementException`. */
  function Find(card: Card, sel: string): (r: Option<Element>)
    ensures r.Some? <==> sel in card.elements
    ensures r.Some? ==> r.value == card.elements[sel]
  {
    if sel in card.elements then Some(card.elements[sel]) else None
  }

  /**
   * A page after `driver.get(url)`: the card lists `driver.find_elements`
   * returns per selector (a selector not in the map finds nothing), or a
   * navigation or page-load wait that raised.
   */
  datatype Page = Loaded(cardLists: map<string, seq<Card>>) | NavFailed

  /** `driver.find_elements(By.CSS_SELECTOR, sel)` on a loaded page. */
  function FindAll(cardLists: map<string, seq<Card>>, sel: string): (r: seq<Card>)
    ensures sel in cardLists ==> r == cardLists[sel]
    ensures sel !in cardLists ==> r == []
  {
    if sel in cardLists then cardLists[sel] else []
  }
}
