/** The parsed NetOwl annotation document, as typed records. A field the code tests with `in` before reading
    is an `Option` (present or absent); a list the code indexes is a sequence, where an absent key and an
    empty list fail alike. */
module Annotations {
  import opened Wrappers

  /** A coordinate value. The source parses geodetic strings with `float()`; the model copies them through. */
  type Coord = real

  /** One `entity-arg` of a link-ref, a document-level link or an event. */
  datatype RawArg = RawArg(
    role: Option<string>,
    roleType: Option<string>,
    value: Option<string>,
    valueType: Option<string>,
    idref: Option<string>,
    ontology: Option<string>)

  /** One entry of an entity's `link-ref` list. */
  datatype RawLinkRef = RawLinkRef(
    ontology: Option<string>,
    role: Option<string>,
    roleType: Option<string>,
    entityArgs: seq<RawArg>)

  datatype Geodetic = Geodetic(latitude: Coord, longitude: Coord)

  /** One `entity-mention`: character offsets of the mention in the document text. */
  datatype RawMention = RawMention(head: Option<int>, tail: Option<int>)

  datatype RawEntity = RawEntity(
    id: Option<string>,
    ontology: Option<string>,
    value: Option<string>,
    norm: Option<string>,
    geodetic: Option<Geodetic>,
    mentions: Option<seq<RawMention>>,
    linkRefs: Option<seq<RawLinkRef>>)

  /** A document-level `link` entry. */
  datatype RawLink = RawLink(ontology: Option<string>, entityArgs: seq<RawArg>)

  datatype RawProperty = RawProperty(value: Option<string>)

  /** A document-level `event` entry. */
  datatype RawEvent = RawEvent(entityArgs: seq<RawArg>, properties: seq<RawProperty>)

  datatype RawText = RawText(content: Option<string>)

  datatype RawDocument = RawDocument(
    text: Option<seq<RawText>>,
    entities: Option<seq<RawEntity>>,
    links: Option<seq<RawLink>>,
    events: Option<seq<RawEvent>>)

  /** The whole parsed JSON: only its `document` list is read. */
  datatype NetOwlJson = NetOwlJson(document: Option<seq<RawDocument>>)

  /** A geocoder candidate location: `x` is the longitude, `y` the latitude. */
  datatype Location = Location(x: Coord, y: Coord)
}
