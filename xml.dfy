/**
 * What a SAX parser reports to a content handler. Tokenising the document is the XML library's
 * job and is not modelled: a parse is given as the events it delivered, in document order, plus
 * whether it ended normally (the parser then calls `endDocument`) or with a parse error.
 */
module Xml {

  /** A SAX callback. Both names are carried: with namespace processing on a handler reads
      `localName`; with it off (as in the ticket validator) it reads the raw qualified name. */
  datatype Event =
    | StartElement(qName: string, localName: string, attributes: map<string, string>)
    | Characters(text: string)
    | EndElement(qName: string, localName: string)

  datatype XmlParse =
    | Document(events: seq<Event>)   // parsed to the end; `endDocument` follows the events
    | Malformed(events: seq<Event>)  // the events delivered before the parser threw a SAXException

  /** All character data of the events, concatenated. */
  function CharData(evs: seq<Event>): string {
    if evs == [] then ""
    else CharData(evs[..|evs| - 1]) + (if evs[|evs| - 1].Characters? then evs[|evs| - 1].text else "")
  }
}
