/**
 * The two text extractors of XmlUtils. Each installs a SAX handler that keeps a single boolean
 * "inside the target element" flag: a start tag whose local name matches sets it, an end tag whose
 * local name matches clears it, and character data is buffered only while it is set. Any parse
 * error makes the extractor return null instead of throwing.
 */
module XmlUtils {
  import opened Wrappers
  import opened Xml

  /* ---------- getTextForElements: one string per matching close ---------- */

  /** The anonymous handler's fields, plus the list it adds to. */
  datatype ElementsHandler = ElementsHandler(foundElement: bool, buffer: string, elements: seq<string>)

  const ElementsStart := ElementsHandler(false, "", [])

  function ElementsStep(h: ElementsHandler, e: Event, element: string): (r: ElementsHandler)
    // character data is collected only while inside a matching element
    ensures e.Characters? && !h.foundElement ==> r == h
    // every matching close emits the buffer and resets it
    ensures e.EndElement? && e.localName == element ==> r == ElementsHandler(false, "", h.elements + [h.buffer])
  {
    match e
    case StartElement(_, ln, _) => if ln == element then h.(foundElement := true) else h
    case EndElement(_, ln) => if ln == element then ElementsHandler(false, "", h.elements + [h.buffer]) else h
    case Characters(t) => if h.foundElement then h.(buffer := h.buffer + t) else h
  }

  /** The handler's state after the parser delivered `evs`, starting from `h`. */
  function ElementsRun(h: ElementsHandler, evs: seq<Event>, element: string): ElementsHandler {
    if evs == [] then h
    else ElementsStep(ElementsRun(h, evs[..|evs| - 1], element), evs[|evs| - 1], element)
  }

  /** What `getTextForElements` returns for a parse: the list, or null on a parse error. */
  function TextForElements(doc: XmlParse, element: string): Option<seq<string>> {
    if doc.Malformed? then None else Some(ElementsRun(ElementsStart, doc.events, element).elements)
  }

  /** `getTextForElements`, with the parser's callbacks as the loop over the events. */
  method GetTextForElements(doc: XmlParse, element: string) returns (r: Option<seq<string>>)
    ensures r == TextForElements(doc, element)
  {
    var foundElement, buffer, elements := false, "", [];
    var i := 0;
    while i < |doc.events|
      invariant 0 <= i <= |doc.events|
      invariant ElementsHandler(foundElement, buffer, elements) == ElementsRun(ElementsStart, doc.events[..i], element)
    {
      assert doc.events[..i + 1][..i] == doc.events[..i];
      match doc.events[i] {
        case StartElement(_, ln, _) =>
          if ln == element { foundElement := true; }
        case EndElement(_, ln) =>
          if ln == element {
            foundElement := false;
            elements := elements + [buffer];
            buffer := "";
          }
        case Characters(t) =>
          if foundElement { buffer := buffer + t; }
      }
      i := i + 1;
    }
    assert doc.events[..i] == doc.events;
    if doc.Malformed? {
      r := None;
    } else {
      r := Some(elements);
    }
  }

  /* ---------- getTextForElement: one buffer, never reset ---------- */

  datatype ElementHandler = ElementHandler(foundElement: bool, buffer: string)

  const ElementStart := ElementHandler(false, "")

  function ElementStep(h: ElementHandler, e: Event, element: string): (r: ElementHandler)
    ensures e.Characters? && !h.foundElement ==> r == h
    // the buffer only ever grows
    ensures |h.buffer| <= |r.buffer| && r.buffer[..|h.buffer|] == h.buffer
  {
    match e
    case StartElement(_, ln, _) => if ln == element then h.(foundElement := true) else h
    case EndElement(_, ln) => if ln == element then h.(foundElement := false) else h
    case Characters(t) => if h.foundElement then h.(buffer := h.buffer + t) else h
  }

  function ElementRun(h: ElementHandler, evs: seq<Event>, element: string): ElementHandler {
    if evs == [] then h
    else ElementStep(ElementRun(h, evs[..|evs| - 1], element), evs[|evs| - 1], element)
  }

  /** What `getTextForElement` returns for a parse: the buffer, or null on a parse error. */
  function TextForElement(doc: XmlParse, element: string): Option<string> {
    if doc.Malformed? then None else Some(ElementRun(ElementStart, doc.events, element).buffer)
  }

  method GetTextForElement(doc: XmlParse, element: string) returns (r: Option<string>)
    ensures r == TextForElement(doc, element)
  {
    var foundElement, buffer := false, "";
    var i := 0;
    while i < |doc.events|
      invariant 0 <= i <= |doc.events|
      invariant ElementHandler(foundElement, buffer) == ElementRun(ElementStart, doc.events[..i], element)
    {
      assert doc.events[..i + 1][..i] == doc.events[..i];
      match doc.events[i] {
        case StartElement(_, ln, _) =>
          if ln == element { foundElement := true; }
        case EndElement(_, ln) =>
          if ln == element { foundElement := false; }
        case Characters(t) =>
          if foundElement { buffer := buffer + t; }
      }
      i := i + 1;
    }
    assert doc.events[..i] == doc.events;
    if doc.Malformed? {
      r := None;
    } else {
      r := Some(buffer);
    }
  }

  /* ---------- properties ---------- */

  /** Number of end tags whose local name is `element`. */
  function Closes(evs: seq<Event>, element: string): nat {
    if evs == [] then 0
    else Closes(evs[..|evs| - 1], element)
         + (if evs[|evs| - 1].EndElement? && evs[|evs| - 1].localName == element then 1 else 0)
  }

  /** getTextForElements yields exactly one string per matching close, appended in document order. */
  lemma {:induction false} ElementsOnePerClose(h: ElementsHandler, evs: seq<Event>, element: string)
    ensures |ElementsRun(h, evs, element).elements| == |h.elements| + Closes(evs, element)
    ensures ElementsRun(h, evs, element).elements[..|h.elements|] == h.elements
  {
    if evs != [] {
      ElementsOnePerClose(h, evs[..|evs| - 1], element);
      var before := ElementsRun(h, evs[..|evs| - 1], element);
      assert (before.elements + [before.buffer])[..|h.elements|] == before.elements[..|h.elements|];
    }
  }

  function Concat(ss: seq<string>): string {
    if ss == [] then "" else Concat(ss[..|ss| - 1]) + ss[|ss| - 1]
  }

  /** The two extractors see the same character data: everything getTextForElements emitted, followed by
      what it still buffers, is exactly what getTextForElement accumulates (it never resets its buffer). */
  lemma {:induction false} ElementsAgreeWithElement(evs: seq<Event>, element: string)
    ensures var many := ElementsRun(ElementsStart, evs, element);
            var one := ElementRun(ElementStart, evs, element);
            Concat(many.elements) + many.buffer == one.buffer && many.foundElement == one.foundElement
  {
    if evs != [] {
      var init := evs[..|evs| - 1];
      ElementsAgreeWithElement(init, element);
      var many := ElementsRun(ElementsStart, init, element);
      var e := evs[|evs| - 1];
      if e.EndElement? && e.localName == element {
        assert (many.elements + [many.buffer])[..|many.elements|] == many.elements;
        assert Concat(many.elements + [many.buffer]) == Concat(many.elements) + many.buffer;
      } else if e.Characters? && many.foundElement {
        assert Concat(many.elements) + (many.buffer + e.text) == (Concat(many.elements) + many.buffer) + e.text;
      }
    }
  }

  /** Running over a concatenation is running over each part in turn. */
  lemma {:induction false} ElementRunAppend(h: ElementHandler, a: seq<Event>, b: seq<Event>, element: string)
    ensures ElementRun(h, a + b, element) == ElementRun(ElementRun(h, a, element), b, element)
  {
    if b == [] {
      assert a + b == a;
    } else {
      assert (a + b)[..|a + b| - 1] == a + b[..|b| - 1];
      ElementRunAppend(h, a, b[..|b| - 1], element);
    }
  }

  lemma ElementRunSnoc(h: ElementHandler, s: seq<Event>, e: Event, element: string)
    ensures ElementRun(h, s + [e], element) == ElementStep(ElementRun(h, s, element), e, element)
  {
    assert (s + [e])[..|s|] == s;
  }

  lemma ElementsRunSnoc(h: ElementsHandler, s: seq<Event>, e: Event, element: string)
    ensures ElementsRun(h, s + [e], element) == ElementsStep(ElementsRun(h, s, element), e, element)
  {
    assert (s + [e])[..|s|] == s;
  }

  predicate OpensElement(e: Event, element: string) {
    e.StartElement? && e.localName == element
  }

  /** Outside the target element, events that do not open it change nothing. */
  lemma {:induction false} ElementRunOutside(h: ElementHandler, evs: seq<Event>, element: string)
    requires !h.foundElement
    requires forall i :: 0 <= i < |evs| ==> !OpensElement(evs[i], element)
    ensures ElementRun(h, evs, element) == h
  {
    if evs != [] {
      ElementRunOutside(h, evs[..|evs| - 1], element);
    }
  }

  /** When no start tag has the target name, getTextForElement yields the empty string. */
  lemma NoMatchGivesEmpty(evs: seq<Event>, element: string)
    requires forall i :: 0 <= i < |evs| ==> !OpensElement(evs[i], element)
    ensures TextForElement(Document(evs), element) == Some("")
  {
    ElementRunOutside(ElementStart, evs, element);
  }

  /** A document with one target element holding one run of text yields that text: the SessionIndex case. */
  lemma SingleElementText(pre: seq<Event>, post: seq<Event>, q: string, attrs: map<string, string>, q': string,
                          element: string, text: string)
    requires forall i :: 0 <= i < |pre| ==> !OpensElement(pre[i], element)
    requires forall i :: 0 <= i < |post| ==> !OpensElement(post[i], element)
    ensures TextForElement(Document(pre + [StartElement(q, element, attrs), Characters(text), EndElement(q', element)] + post), element)
            == Some(text)
  {
    var open, close := StartElement(q, element, attrs), EndElement(q', element);
    var mid := [open, Characters(text), close];
    ElementRunAppend(ElementStart, pre + mid, post, element);
    ElementRunAppend(ElementStart, pre, mid, element);
    ElementRunOutside(ElementStart, pre, element);
    assert mid == [] + [open] + [Characters(text)] + [close];
    ElementRunSnoc(ElementStart, [], open, element);
    ElementRunSnoc(ElementStart, [open], Characters(text), element);
    ElementRunSnoc(ElementStart, [open, Characters(text)], close, element);
    ElementRunOutside(ElementHandler(false, text), post, element);
  }

  /** getTextForElement on `<a><a>x</a>y</a>`: the inner close clears the flag, so `y` is never buffered. */
  lemma NestedElementRun(open: Event, close: Event, x: string, y: string, a: string, q: string, attrs: map<string, string>)
    requires open == StartElement(q, a, attrs) && close == EndElement(q, a)
    ensures ElementRun(ElementStart, [open, open, Characters(x), close, Characters(y), close], a) == ElementHandler(false, x)
  {
    var cx, cy := Characters(x), Characters(y);
    var e2: seq<Event> := [open, open];
    var e3 := e2 + [cx];
    var e4 := e3 + [close];
    var e5 := e4 + [cy];
    ElementRunSnoc(ElementStart, [], open, a);
    assert [] + [open] == [open];
    ElementRunSnoc(ElementStart, [open], open, a);
    assert [open] + [open] == e2;
    assert ElementRun(ElementStart, e2, a) == ElementHandler(true, "");
    ElementRunSnoc(ElementStart, e2, cx, a);
    assert "" + x == x;
    ElementRunSnoc(ElementStart, e3, close, a);
    ElementRunSnoc(ElementStart, e4, cy, a);
    ElementRunSnoc(ElementStart, e5, close, a);
    assert e5 + [close] == [open, open, cx, close, cy, close];
  }

  /** getTextForElements on `<a><a>x</a>y</a>`: the inner close emits `x`, the outer one an empty buffer. */
  lemma NestedElementsRun(open: Event, close: Event, x: string, y: string, a: string, q: string, attrs: map<string, string>)
    requires open == StartElement(q, a, attrs) && close == EndElement(q, a)
    ensures ElementsRun(ElementsStart, [open, open, Characters(x), close, Characters(y), close], a).elements == [x, ""]
  {
    var cx, cy := Characters(x), Characters(y);
    var e2: seq<Event> := [open, open];
    var e3 := e2 + [cx];
    var e4 := e3 + [close];
    var e5 := e4 + [cy];
    ElementsRunSnoc(ElementsStart, [], open, a);
    assert [] + [open] == [open];
    ElementsRunSnoc(ElementsStart, [open], open, a);
    assert [open] + [open] == e2;
    assert ElementsRun(ElementsStart, e2, a) == ElementsHandler(true, "", []);
    ElementsRunSnoc(ElementsStart, e2, cx, a);
    assert "" + x == x;
    ElementsRunSnoc(ElementsStart, e3, close, a);
    assert ElementsRun(ElementsStart, e4, a) == ElementsHandler(false, "", [x]);
    ElementsRunSnoc(ElementsStart, e4, cy, a);
    ElementsRunSnoc(ElementsStart, e5, close, a);
    assert [x] + [""] == [x, ""];
    assert e5 + [close] == [open, open, cx, close, cy, close];
  }

  /** The flag is a boolean, not a depth: with nested elements of the same name the inner close clears it,
      so text between the inner and the outer close is dropped. */
  lemma NestedSameNameDropsText(q: string, a: string, x: string, y: string)
    ensures var evs := [StartElement(q, a, map[]), StartElement(q, a, map[]), Characters(x), EndElement(q, a),
                        Characters(y), EndElement(q, a)];
            TextForElement(Document(evs), a) == Some(x)
            && TextForElements(Document(evs), a) == Some([x, ""])
  {
    NestedElementRun(StartElement(q, a, map[]), EndElement(q, a), x, y, a, q, map[]);
    NestedElementsRun(StartElement(q, a, map[]), EndElement(q, a), x, y, a, q, map[]);
  }

  /** A parse error yields null from both extractors, whatever was delivered before it. */
  lemma ParseErrorGivesNull(evs: seq<Event>, element: string)
    ensures TextForElement(Malformed(evs), element) == None
    ensures TextForElements(Malformed(evs), element) == None
  {
  }
}
