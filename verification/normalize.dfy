/** `process_netowl_json`: one parsed NetOwl document becomes ordered lists of entity, link and event records.
    Every key the code reads without testing it first is a precondition here (a `*Readable` predicate): the
    source raises on such input and skips nothing. */
module Normalize {
  import opened Wrappers
  import opened Seqs
  import opened Text
  import opened Ids
  import opened Geo
  import opened Annotations
  import opened Records

  /** Width of the head and tail context windows. */
  const ContextWidth := 255
  const MailOntology := "entity:address:mail"

  /** `geocode_address`: the first candidate location for a free-text address, or `None` when the lookup
      fails (where the source raises). */
  type Geocoder = string -> Option<Location>

  /** What every record of one document shares: the id prefix, the document text if any, and the caller's
      metadata. */
  datatype DocContext = DocContext(prefix: string, content: Option<string>, docLink: string, query: string, category: string)

  // ================================================================ entities

  predicate MentionReadsText(m: RawMention) {
    m.head.Some? || m.tail.Some?
  }

  /** Only the first mention is used; it must exist, and it may use `content` only when the document has text. */
  predicate MentionsReadable(content: Option<string>, mentions: Option<seq<RawMention>>) {
    mentions.Some? ==> |mentions.value| > 0 && (MentionReadsText(mentions.value[0]) ==> content.Some?)
  }

  /** The (head, tail) context windows of an entity's first mention. */
  function ContextWindow(content: Option<string>, mentions: Option<seq<RawMention>>): (w: (Option<string>, Option<string>))
    requires MentionsReadable(content, mentions)
    ensures w.0.Some? <==> mentions.Some? && mentions.value[0].head.Some?
    ensures w.1.Some? <==> mentions.Some? && mentions.value[0].tail.Some?
    ensures w.0.Some? && mentions.value[0].head.value >= 0 ==> |w.0.value| <= ContextWidth
    ensures w.1.Some? && mentions.value[0].tail.value >= 0 ==> |w.1.value| <= ContextWidth
    ensures w.0.Some? ==> w.0.value == GetHead(content.value, mentions.value[0].head.value, ContextWidth)
    ensures w.1.Some? ==> w.1.value == GetTail(content.value, mentions.value[0].tail.value, ContextWidth)
  {
    if mentions.None? then (None, None)
    else
      var em := mentions.value[0];
      (if em.head.Some? then Some(GetHead(content.value, em.head.value, ContextWidth)) else None,
       if em.tail.Some? then Some(GetTail(content.value, em.tail.value, ContextWidth)) else None)
  }

  /** The keys of one raw entity the loop body reads: `id`, `value` and `ontology` unconditionally, the
      geocoder's first candidate for a mail address, the first mention, and every link-ref's shared dict. */
  predicate RawEntityReadable(prefix: string, content: Option<string>, e: RawEntity, geocode: Geocoder) {
    && e.id.Some? && e.value.Some? && e.ontology.Some?
    && (e.ontology.value == MailOntology ==> geocode(e.value.value).Some?)
    && MentionsReadable(content, e.mentions)
    && (e.linkRefs.Some? ==> RefsReadable(prefix, e, e.linkRefs.value))
  }

  /** The `base_entity` dict the loop body builds for `e`. */
  function EntityBase(ctx: DocContext, e: RawEntity, geocode: Geocoder): (b: BaseEntity)
    requires RawEntityReadable(ctx.prefix, ctx.content, e, geocode)
    ensures EntityReadable(b)
  {
    var ontology := e.ontology.value;
    // geodetic coordinates first, then a mail address overrides them with the geocoder's y/x
    var fromGeodetic: Option<(Coord, Coord)> :=
      if e.geodetic.Some? then Some((e.geodetic.value.latitude, e.geodetic.value.longitude)) else None;
    var latLong: Option<(Coord, Coord)> :=
      if ontology == MailOntology then
        var location := geocode(e.value.value).value;
        Some((location.y, location.x))
      else fromGeodetic;
    var geoType := GeoTypeOf(ontology);
    var window := ContextWindow(ctx.content, e.mentions);
    BaseEntity(
      id := Some(MintId(ctx.prefix, e.id.value)),
      ontology := e.ontology,
      value := e.value,
      norm := e.norm,
      head := window.0,
      tail := window.1,
      docLink := Some(ctx.docLink),
      query := Some(ctx.query),
      category := Some(ctx.category),
      geoEntity := if latLong.Some? then Some(true) else None,
      lat := if latLong.Some? then Some(latLong.value.0) else None,
      long := if latLong.Some? then Some(latLong.value.1) else None,
      geoType := if latLong.Some? then Some(geoType.0) else None,
      geoSubtype := if latLong.Some? then Some(geoType.1) else None)
  }

  /** The entity record built for one raw entity. */
  function EntityRecord(ctx: DocContext, e: RawEntity, geocode: Geocoder): (r: Entity)
    requires RawEntityReadable(ctx.prefix, ctx.content, e, geocode)
    ensures r.id == Some(MintId(ctx.prefix, e.id.value))
    ensures r.ontology == e.ontology && r.value == e.value && r.norm == e.norm
    ensures r.docLink == Some(ctx.docLink) && r.query == Some(ctx.query) && r.category == Some(ctx.category)
    ensures r.geoEntity <==> e.geodetic.Some? || e.ontology.value == MailOntology
    ensures r.geo.Some? <==> r.geoEntity
    ensures r.geo.Some? ==> r.geo.value.loc == [r.geo.value.long, r.geo.value.lat]
    ensures r.geo.Some? && e.ontology.value in GeoTable ==>
              (r.geo.value.geoType, r.geo.value.geoSubtype) == GeoTable[e.ontology.value]
    ensures r.geo.Some? && e.ontology.value !in GeoTable ==>
              (r.geo.value.geoType, r.geo.value.geoSubtype) == DefaultGeoType
    ensures e.ontology.value == MailOntology ==>
              r.geo.value.lat == geocode(e.value.value).value.y && r.geo.value.long == geocode(e.value.value).value.x
    ensures e.ontology.value != MailOntology && e.geodetic.Some? ==>
              r.geo.value.lat == e.geodetic.value.latitude && r.geo.value.long == e.geodetic.value.longitude
    ensures r.preText.Some? <==> e.mentions.Some? && e.mentions.value[0].head.Some?
    ensures r.postText.Some? <==> e.mentions.Some? && e.mentions.value[0].tail.Some?
    ensures r.preText.Some? && e.mentions.value[0].head.value >= 0 ==> |r.preText.value| <= ContextWidth
    ensures r.postText.Some? && e.mentions.value[0].tail.value >= 0 ==> |r.postText.value| <= ContextWidth
    ensures r.preText.Some? ==> r.preText.value == GetHead(ctx.content.value, e.mentions.value[0].head.value, ContextWidth)
    ensures r.postText.Some? ==> r.postText.value == GetTail(ctx.content.value, e.mentions.value[0].tail.value, ContextWidth)
  {
    NetOwlEntity(EntityBase(ctx, e, geocode))
  }

  // ================================================================ links embedded in entities

  /** The `base_link` dict created once per entity, before its link-refs are visited. */
  function RefBase(prefix: string, e: RawEntity): (d: LinkDict)
    requires e.id.Some?
  {
    EmptyLinkDict.(id := Some(MintId(prefix, e.id.value)), value := e.value, norm := e.norm)
  }

  /** A link-ref's first argument must exist; when the link-ref has an ontology, so must that argument and
      the owning entity. */
  predicate RefShapeOk(e: RawEntity, ref: RawLinkRef) {
    |ref.entityArgs| > 0 && (ref.ontology.Some? ==> ref.entityArgs[0].ontology.Some? && e.ontology.Some?)
  }

  /** One iteration of the link-ref loop on the shared `base_link`: each key is overwritten when the link-ref
      supplies it and otherwise keeps whatever the entity or an earlier iteration left there. A link-ref never
      writes 'id', 'value', 'norm', 'idref' or 'value-type'. */
  function Absorb(prefix: string, e: RawEntity, d: LinkDict, ref: RawLinkRef): (d': LinkDict)
    requires RefShapeOk(e, ref)
    ensures d'.id == d.id && d'.value == d.value && d'.norm == d.norm
    ensures d'.idref == d.idref && d'.valueType == d.valueType
    ensures d'.ontology == Overwrite(ref.ontology, d.ontology)
    ensures d'.role == Overwrite(ref.role, d.role)
    ensures d'.roleType == Overwrite(ref.roleType, d.roleType)
    ensures var a := ref.entityArgs[0];
            && d'.linkRole == Overwrite(a.role, d.linkRole)
            && d'.linkRoleType == Overwrite(a.roleType, d.linkRoleType)
            && d'.linkValue == Overwrite(a.value, d.linkValue)
            && d'.linkValueType == Overwrite(a.valueType, d.linkValueType)
    ensures var a := ref.entityArgs[0];
            && (a.idref.Some? ==> d'.linkId == Some(MintId(prefix, a.idref.value)))
            && (a.idref.None? ==> d'.linkId == d.linkId)
    ensures ref.ontology.Some? ==> d'.linkOntology == ref.entityArgs[0].ontology && d'.entOntology == e.ontology
    ensures ref.ontology.None? ==> d'.linkOntology == d.linkOntology && d'.entOntology == d.entOntology
  {
    var a := ref.entityArgs[0];
    d.(
      ontology := Overwrite(ref.ontology, d.ontology),
      role := Overwrite(ref.role, d.role),
      roleType := Overwrite(ref.roleType, d.roleType),
      linkRole := Overwrite(a.role, d.linkRole),
      linkRoleType := Overwrite(a.roleType, d.linkRoleType),
      linkValue := Overwrite(a.value, d.linkValue),
      linkValueType := Overwrite(a.valueType, d.linkValueType),
      linkId := Overwrite(if a.idref.Some? then Some(MintId(prefix, a.idref.value)) else None, d.linkId),
      linkOntology := if ref.ontology.Some? then a.ontology else d.linkOntology,
      entOntology := if ref.ontology.Some? then e.ontology else d.entOntology)
  }

  /** The successive states of the shared `base_link` dict, one after each link-ref. */
  function RefDicts(prefix: string, e: RawEntity, d: LinkDict, refs: seq<RawLinkRef>): (ds: seq<LinkDict>)
    requires forall k :: 0 <= k < |refs| ==> RefShapeOk(e, refs[k])
    ensures |ds| == |refs|
    ensures |refs| > 0 ==> ds[0] == Absorb(prefix, e, d, refs[0])
    ensures forall k {:trigger refs[k]} :: 0 < k < |refs| ==> ds[k] == Absorb(prefix, e, ds[k - 1], refs[k])
    decreases |refs|
  {
    if refs == [] then []
    else
      var d' := Absorb(prefix, e, d, refs[0]);
      [d'] + RefDicts(prefix, e, d', refs[1..])
  }

  /** The link-refs of `e` are well shaped and `NetOwl_Link` can read every dict state they produce. */
  predicate RefsReadable(prefix: string, e: RawEntity, refs: seq<RawLinkRef>) {
    && e.id.Some?
    && (forall k :: 0 <= k < |refs| ==> RefShapeOk(e, refs[k]))
    && (forall k :: 0 <= k < |refs| ==> LinkReadable(RefDicts(prefix, e, RefBase(prefix, e), refs)[k]))
  }

  /** The links of one entity: one `NetOwl_Link` per link-ref, built from the dict state after that link-ref. */
  function RefLinks(prefix: string, e: RawEntity, refs: seq<RawLinkRef>): (r: seq<Link>)
    requires RefsReadable(prefix, e, refs)
    ensures |r| == |refs|
    ensures forall k :: 0 <= k < |r| ==> r[k] == NetOwlLink(RefDicts(prefix, e, RefBase(prefix, e), refs)[k])
  {
    var ds := RefDicts(prefix, e, RefBase(prefix, e), refs);
    seq(|refs|, k requires 0 <= k < |refs| => NetOwlLink(ds[k]))
  }

  function RefCount(e: RawEntity): (n: nat) {
    if e.linkRefs.Some? then |e.linkRefs.value| else 0
  }

  function EntityLinks(prefix: string, e: RawEntity): (r: seq<Link>)
    requires e.linkRefs.Some? ==> RefsReadable(prefix, e, e.linkRefs.value)
    ensures |r| == RefCount(e)
    ensures e.linkRefs.Some? ==> r == RefLinks(prefix, e, e.linkRefs.value)
    ensures e.linkRefs.None? ==> r == []
  {
    if e.linkRefs.Some? then RefLinks(prefix, e, e.linkRefs.value) else []
  }

  // ================================================================ document-level links

  /** A document-level link: its ontology and two arguments, with the fields the code reads from each. */
  predicate DocLinkReadable(l: RawLink) {
    && l.ontology.Some?
    && |l.entityArgs| >= 2
    && var a1 := l.entityArgs[0];
       var a2 := l.entityArgs[1];
       && a1.role.Some? && a1.roleType.Some? && a1.value.Some? && a1.idref.Some? && a1.ontology.Some?
       && a2.role.Some? && a2.value.Some? && a2.valueType.Some? && a2.idref.Some? && a2.ontology.Some?
  }

  /** The fresh `base_link` dict built for a document-level link. */
  function DocLinkDict(prefix: string, l: RawLink): (d: LinkDict)
    requires DocLinkReadable(l)
  {
    var a1 := l.entityArgs[0];
    var a2 := l.entityArgs[1];
    EmptyLinkDict.(
      ontology := l.ontology,
      role := a1.role,
      roleType := a1.roleType,
      value := a1.value,
      id := Some(MintId(prefix, a1.idref.value)),
      entOntology := a1.ontology,
      linkRole := a2.role,
      linkRoleType := a2.role,
      linkValue := a2.value,
      linkValueType := a2.valueType,
      linkId := Some(MintId(prefix, a2.idref.value)),
      linkOntology := a2.ontology)
  }

  /** The link record of a document-level link: argument 0 is the anchor, argument 1 the target. The target's
      role type is its role, the anchor carries argument 0's ontology, and no norm, target value type or
      target id reaches the record. */
  function DocLink(prefix: string, l: RawLink): (r: Link)
    requires DocLinkReadable(l)
    ensures r.ontology == l.ontology
    ensures r.role == l.entityArgs[0].role && r.roleType == l.entityArgs[0].roleType
    ensures r.value == l.entityArgs[0].value && r.entOntology == l.entityArgs[0].ontology
    ensures r.linkRole == l.entityArgs[1].role && r.linkRoleType == l.entityArgs[1].role
    ensures r.linkValue == l.entityArgs[1].value && r.linkOntology == l.entityArgs[1].ontology
    ensures r.norm.None? && r.linkValueType.None? && r.linkId.None?
  {
    NetOwlLink(DocLinkDict(prefix, l))
  }

  function DocLinks(prefix: string, links: seq<RawLink>): (r: seq<Link>)
    requires forall k :: 0 <= k < |links| ==> DocLinkReadable(links[k])
    ensures |r| == |links|
    ensures forall k :: 0 <= k < |r| ==> r[k] == DocLink(prefix, links[k])
  {
    seq(|links|, k requires 0 <= k < |links| => DocLink(prefix, links[k]))
  }

  // ================================================================ events

  predicate EventArgReadable(a: RawArg) {
    a.role.Some? && a.value.Some? && a.valueType.Some? && a.idref.Some? && a.ontology.Some?
  }

  /** An event needs an anchor argument, a first property with a value, and the five fields of every argument. */
  predicate RawEventReadable(ev: RawEvent) {
    && |ev.entityArgs| > 0
    && |ev.properties| > 0 && ev.properties[0].value.Some?
    && forall k :: 0 <= k < |ev.entityArgs| ==> EventArgReadable(ev.entityArgs[k])
  }

  /** The `base_event` dict: the anchor argument's fields and the predicate. */
  function EventAnchorDict(prefix: string, ev: RawEvent): (m: map<string, string>)
    requires RawEventReadable(ev)
    ensures m.Keys == AnchorKeys
  {
    var a := ev.entityArgs[0];
    map[
      "event-role" := a.role.value,
      "event-value" := a.value.value,
      "event-value-type" := a.valueType.value,
      "event-id" := MintId(prefix, a.idref.value),
      "ent-ontology" := a.ontology.value,
      "predicate" := ev.properties[0].value.value]
  }

  /** The fields one non-anchor argument adds to its copy of `base_event`. */
  function ArgDict(prefix: string, a: RawArg): (m: map<string, string>)
    requires EventArgReadable(a)
    ensures m.Keys == ArgKeys
  {
    map[
      "arg-role" := a.role.value,
      "arg-value" := a.value.value,
      "arg-value-type" := a.valueType.value,
      "arg-id" := MintId(prefix, a.idref.value),
      "arg-ontology" := a.ontology.value]
  }

  /** The argument part an event record should carry for raw argument `a`. */
  function EventArgOf(prefix: string, a: RawArg): (arg: EventArg)
    requires EventArgReadable(a)
  {
    EventArg(a.role.value, a.value.value, a.valueType.value, MintId(prefix, a.idref.value), a.ontology.value)
  }

  /** The anchor and predicate fields of an event record. */
  function AnchorOf(r: Event): (anchor: (string, string, string, string, string, string)) {
    (r.eventRole, r.eventValue, r.eventValueType, r.eventId, r.eventPredicate, r.entOntology)
  }

  /** The anchor and predicate fields an event record should carry for raw event `ev`. */
  function RawAnchor(prefix: string, ev: RawEvent): (anchor: (string, string, string, string, string, string))
    requires RawEventReadable(ev)
  {
    var a := ev.entityArgs[0];
    (a.role.value, a.value.value, a.valueType.value, MintId(prefix, a.idref.value), ev.properties[0].value.value,
     a.ontology.value)
  }

  /** The record of one non-anchor argument: a copy of `base_event` extended with the argument's fields and
      `triple = True`. */
  function ArgEvent(prefix: string, ev: RawEvent, a: RawArg): (r: Event)
    requires RawEventReadable(ev) && EventArgReadable(a)
    ensures r.triple && r.arg == Some(EventArgOf(prefix, a)) && AnchorOf(r) == RawAnchor(prefix, ev)
  {
    var base := EventAnchorDict(prefix, ev);
    var argDict := base + ArgDict(prefix, a);
    assert argDict.Keys == AnchorKeys + ArgKeys;
    assert forall k :: k in AnchorKeys ==> argDict[k] == base[k];
    NetOwlEvent(EventDict(argDict, Some(true)))
  }

  /** The loop over arguments 1..N-1: one record per argument, each from a copy of `base_event` extended with
      that argument's fields and `triple`. */
  function FanOut(prefix: string, ev: RawEvent, rest: seq<RawArg>): (r: seq<Event>)
    requires RawEventReadable(ev)
    requires forall k :: 0 <= k < |rest| ==> EventArgReadable(rest[k])
    ensures |r| == |rest|
    ensures forall k :: 0 <= k < |r| ==>
              r[k].triple && r[k].arg == Some(EventArgOf(prefix, rest[k])) && AnchorOf(r[k]) == RawAnchor(prefix, ev)
  {
    if rest == [] then []
    else
      [ArgEvent(prefix, ev, rest[0])] + FanOut(prefix, ev, rest[1..])
  }

  /** The records of one event. One argument: a single record without `triple`. N > 1 arguments: N-1 records
      in argument order, one per non-anchor argument, all with `triple` and the same anchor fields. */
  function EventRecords(prefix: string, ev: RawEvent): (r: seq<Event>)
    requires RawEventReadable(ev)
    ensures |ev.entityArgs| == 1 ==> |r| == 1 && !r[0].triple && r[0].arg.None?
    ensures |ev.entityArgs| > 1 ==> |r| == |ev.entityArgs| - 1
    ensures |ev.entityArgs| > 1 ==>
              forall k :: 0 <= k < |r| ==> r[k].triple && r[k].arg == Some(EventArgOf(prefix, ev.entityArgs[k + 1]))
    ensures forall k :: 0 <= k < |r| ==> AnchorOf(r[k]) == RawAnchor(prefix, ev)
  {
    var args := ev.entityArgs;
    if |args| > 1 then
      FanOut(prefix, ev, args[1..])
    else
      [NetOwlEvent(EventDict(EventAnchorDict(prefix, ev), None))]
  }

  /** How many records an event yields. */
  function EventRecordCount(ev: RawEvent): (n: nat) {
    if |ev.entityArgs| > 1 then |ev.entityArgs| - 1 else 1
  }

  // ================================================================ one document

  datatype Output = Output(entities: seq<Entity>, links: seq<Link>, events: seq<Event>)

  /** `document['text'][0]['content']` is read only when the document has a `text` section. */
  predicate TextReadable(doc: RawDocument) {
    doc.text.Some? ==> |doc.text.value| > 0 && doc.text.value[0].content.Some?
  }

  function ContentOf(doc: RawDocument): (content: Option<string>)
    requires TextReadable(doc)
  {
    if doc.text.Some? then doc.text.value[0].content else None
  }

  function EntitiesOf(doc: RawDocument): (ents: seq<RawEntity>) { doc.entities.GetOr([]) }
  function LinksOf(doc: RawDocument): (links: seq<RawLink>) { doc.links.GetOr([]) }
  function EventsOf(doc: RawDocument): (events: seq<RawEvent>) { doc.events.GetOr([]) }

  predicate DocumentReadable(prefix: string, doc: RawDocument, geocode: Geocoder) {
    && TextReadable(doc)
    && (forall k :: 0 <= k < |EntitiesOf(doc)| ==> RawEntityReadable(prefix, ContentOf(doc), EntitiesOf(doc)[k], geocode))
    && (forall k :: 0 <= k < |LinksOf(doc)| ==> DocLinkReadable(LinksOf(doc)[k]))
    && (forall k :: 0 <= k < |EventsOf(doc)| ==> RawEventReadable(EventsOf(doc)[k]))
  }

  /** The input `process_netowl_json` handles without raising: when there is a `document` list, its first
      document is readable. */
  predicate ProcessReadable(file: string, json: NetOwlJson, geocode: Geocoder) {
    json.document.Some? ==>
      |json.document.value| > 0 && DocumentReadable(DocPrefix(file), json.document.value[0], geocode)
  }

  function ContextOf(file: string, doc: RawDocument, url: string, query: string, category: string): (ctx: DocContext)
    requires TextReadable(doc)
  {
    DocContext(DocPrefix(file), ContentOf(doc), url, query, category)
  }

  function Entities(ctx: DocContext, ents: seq<RawEntity>, geocode: Geocoder): (r: seq<Entity>)
    requires forall k :: 0 <= k < |ents| ==> RawEntityReadable(ctx.prefix, ctx.content, ents[k], geocode)
    ensures |r| == |ents|
    ensures forall k :: 0 <= k < |r| ==> r[k] == EntityRecord(ctx, ents[k], geocode)
  {
    seq(|ents|, k requires 0 <= k < |ents| => EntityRecord(ctx, ents[k], geocode))
  }

  function TotalRefs(ents: seq<RawEntity>): (n: nat) {
    if ents == [] then 0 else RefCount(ents[0]) + TotalRefs(ents[1..])
  }

  /** Each entity's links, entity by entity. */
  function LinkParts(prefix: string, ents: seq<RawEntity>): (ps: seq<seq<Link>>)
    requires forall k :: 0 <= k < |ents| ==> ents[k].linkRefs.Some? ==> RefsReadable(prefix, ents[k], ents[k].linkRefs.value)
    ensures |ps| == |ents|
    ensures forall k :: 0 <= k < |ps| ==> ps[k] == EntityLinks(prefix, ents[k])
  {
    seq(|ents|, k requires 0 <= k < |ents| => EntityLinks(prefix, ents[k]))
  }

  /** The links of all entities: each entity's links in link-ref order, entity after entity. */
  function AllEntityLinks(prefix: string, ents: seq<RawEntity>): (r: seq<Link>)
    requires forall k :: 0 <= k < |ents| ==> ents[k].linkRefs.Some? ==> RefsReadable(prefix, ents[k], ents[k].linkRefs.value)
    ensures |r| == TotalRefs(ents)
    ensures r == Concat(LinkParts(prefix, ents))
  {
    if ents == [] then []
    else
      assert LinkParts(prefix, ents)[1..] == LinkParts(prefix, ents[1..]);
      EntityLinks(prefix, ents[0]) + AllEntityLinks(prefix, ents[1..])
  }

  function TotalEventRecords(events: seq<RawEvent>): (n: nat) {
    if events == [] then 0 else EventRecordCount(events[0]) + TotalEventRecords(events[1..])
  }

  /** Each event's records, event by event. */
  function EventParts(prefix: string, events: seq<RawEvent>): (ps: seq<seq<Event>>)
    requires forall k :: 0 <= k < |events| ==> RawEventReadable(events[k])
    ensures |ps| == |events|
    ensures forall k :: 0 <= k < |ps| ==> ps[k] == EventRecords(prefix, events[k])
  {
    seq(|events|, k requires 0 <= k < |events| => EventRecords(prefix, events[k]))
  }

  /** The records of all events: each event's records, event after event. */
  function AllEvents(prefix: string, events: seq<RawEvent>): (r: seq<Event>)
    requires forall k :: 0 <= k < |events| ==> RawEventReadable(events[k])
    ensures |r| == TotalEventRecords(events)
    ensures r == Concat(EventParts(prefix, events))
  {
    if events == [] then []
    else
      assert EventParts(prefix, events)[1..] == EventParts(prefix, events[1..]);
      EventRecords(prefix, events[0]) + AllEvents(prefix, events[1..])
  }

  /** `process_netowl_json(document_file, json_data, web_url, query_string, category)`. Without a `document`
      section the function falls off its end and returns `None`. Otherwise: one entity per raw entity in input
      order; each entity's embedded links, entity after entity, followed by the document-level links; each
      event's records, event after event. */
  function ProcessNetowlJson(file: string, json: NetOwlJson, url: string, query: string, category: string,
                             geocode: Geocoder): (r: Option<Output>)
    requires ProcessReadable(file, json, geocode)
    ensures r.Some? <==> json.document.Some?
    ensures r.Some? ==>
              var doc := json.document.value[0];
              var ctx := ContextOf(file, doc, url, query, category);
              && |r.value.entities| == |EntitiesOf(doc)|
              && (forall k :: 0 <= k < |r.value.entities| ==>
                    r.value.entities[k] == EntityRecord(ctx, EntitiesOf(doc)[k], geocode))
              && |r.value.links| == TotalRefs(EntitiesOf(doc)) + |LinksOf(doc)|
              && r.value.links[..TotalRefs(EntitiesOf(doc))] == AllEntityLinks(ctx.prefix, EntitiesOf(doc))
              && r.value.links[TotalRefs(EntitiesOf(doc))..] == DocLinks(ctx.prefix, LinksOf(doc))
              && r.value.links == Concat(LinkParts(ctx.prefix, EntitiesOf(doc))) + DocLinks(ctx.prefix, LinksOf(doc))
              && |r.value.events| == TotalEventRecords(EventsOf(doc))
              && r.value.events == Concat(EventParts(ctx.prefix, EventsOf(doc)))
  {
    if json.document.None? then None
    else
      var doc := json.document.value[0];
      var ctx := ContextOf(file, doc, url, query, category);
      var ents := EntitiesOf(doc);
      var entityLinks := AllEntityLinks(ctx.prefix, ents);
      Some(Output(
        Entities(ctx, ents, geocode),
        entityLinks + DocLinks(ctx.prefix, LinksOf(doc)),
        AllEvents(ctx.prefix, EventsOf(doc))))
  }
}
