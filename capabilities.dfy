/**
 * The shape of a parsed SOS GetCapabilities document, as far as the layer
 * reads it, and the choice of response body handed to the parser.
 */
module SosCapabilities {
  import opened Wrappers

  /** One offering: its name and its feature-of-interest identifiers, in order. */
  datatype Offering = Offering(name: string, featureOfInterestIds: seq<string>)

  /**
   * `capabilities.contents.offeringList`. The source keeps the offerings in
   * an object keyed by name and walks it with `for…in`; here the offerings
   * are a sequence in declaration order.
   */
  datatype Contents = Contents(offeringList: seq<Offering>)

  datatype Capabilities = Capabilities(contents: Contents)

  /** The transport's response: an XML document when one was built, and the raw text. */
  datatype Response = Response(responseXML: Option<string>, responseText: string)

  /** What the capabilities reader is given. */
  datatype Body = XmlDocument(document: string) | Text(text: string)

  /**
   * `response.responseXML || response.responseText`: the document when the
   * transport built one, the raw text otherwise.
   */
  function ResponseBody(response: Response): Body {
    match response.responseXML
    case Some(doc) => XmlDocument(doc)
    case None => Text(response.responseText)
  }
}
