/** The three output record classes of bucketize.py and their constructors, which copy a field only when a
    gating key is present in the mapping they are given. */
module Records {
  import opened Wrappers
  import opened Annotations

  // ---------------------------------------------------------------- NetOwl_Entity

  /** The `base_entity` dict: one `Option` per key it may hold. */
  datatype BaseEntity = BaseEntity(
    id: Option<string>,
    ontology: Option<string>,
    value: Option<string>,
    norm: Option<string>,
    head: Option<string>,
    tail: Option<string>,
    docLink: Option<string>,
    query: Option<string>,
    category: Option<string>,
    geoEntity: Option<bool>,
    lat: Option<Coord>,
    long: Option<Coord>,
    geoType: Option<string>,
    geoSubtype: Option<string>)

  /** The geo attributes of an entity; `loc` is the `[long, lat]` list. */
  datatype GeoFields = GeoFields(loc: seq<Coord>, lat: Coord, long: Coord, geoType: string, geoSubtype: string)

  datatype Entity = Entity(
    id: Option<string>,
    ontology: Option<string>,
    value: Option<string>,
    norm: Option<string>,
    preText: Option<string>,
    postText: Option<string>,
    docLink: Option<string>,
    query: Option<string>,
    category: Option<string>,
    geoEntity: bool,
    geo: Option<GeoFields>)

  /** The keys `NetOwl_Entity` reads once `geo_entity` is present. */
  predicate EntityReadable(b: BaseEntity) {
    b.geoEntity.Some? ==> b.lat.Some? && b.long.Some? && b.geoType.Some? && b.geoSubtype.Some?
  }

  /** `NetOwl_Entity(value_dict)`. */
  function NetOwlEntity(b: BaseEntity): (r: Entity)
    requires EntityReadable(b)
    ensures r.id == b.id && r.ontology == b.ontology && r.value == b.value && r.norm == b.norm
    ensures r.preText == b.head && r.postText == b.tail
    ensures r.docLink == b.docLink && r.query == b.query && r.category == b.category
    ensures WellFormedEntity(r)
    ensures r.geo.Some? <==> b.geoEntity.Some?
    ensures r.geoEntity <==> b.geoEntity == Some(true)
    ensures r.geo.Some? ==> r.geo.value.loc == [r.geo.value.long, r.geo.value.lat]
    ensures r.geo.Some? ==> r.geo.value.lat == b.lat.value && r.geo.value.long == b.long.value
    ensures r.geo.Some? ==> r.geo.value.geoType == b.geoType.value && r.geo.value.geoSubtype == b.geoSubtype.value
  {
    Entity(b.id, b.ontology, b.value, b.norm, b.head, b.tail, b.docLink, b.query, b.category,
      b.geoEntity.GetOr(false),
      if b.geoEntity.Some? then
        Some(GeoFields([b.long.value, b.lat.value], b.lat.value, b.long.value, b.geoType.value, b.geoSubtype.value))
      else None)
  }

  /** An entity record `NetOwl_Entity` can produce: a non-geo record has `geo_entity` False, and `loc` is
      always `[long, lat]`. */
  predicate WellFormedEntity(e: Entity) {
    && (e.geo.None? ==> !e.geoEntity)
    && (e.geo.Some? ==> e.geo.value.loc == [e.geo.value.long, e.geo.value.lat])
  }

  /** The dict a record's attributes spell out: each attribute present on the record becomes its key. */
  function EntityDict(e: Entity): (b: BaseEntity)
    ensures EntityReadable(b)
    ensures b.geoEntity.Some? <==> e.geo.Some?
  {
    BaseEntity(e.id, e.ontology, e.value, e.norm, e.preText, e.postText, e.docLink, e.query, e.category,
      if e.geo.Some? then Some(e.geoEntity) else None,
      if e.geo.Some? then Some(e.geo.value.lat) else None,
      if e.geo.Some? then Some(e.geo.value.long) else None,
      if e.geo.Some? then Some(e.geo.value.geoType) else None,
      if e.geo.Some? then Some(e.geo.value.geoSubtype) else None)
  }

  /** `NetOwl_Entity` loses nothing: every well-formed record is rebuilt from the dict of its attributes. */
  lemma NetOwlEntityRoundTrip(e: Entity)
    requires WellFormedEntity(e)
    ensures NetOwlEntity(EntityDict(e)) == e
  {
  }

  /** Conversely a dict whose geo keys appear only together with `geo_entity` is recovered from its record. */
  lemma EntityDictRoundTrip(b: BaseEntity)
    requires EntityReadable(b)
    requires b.geoEntity.None? ==> b.lat.None? && b.long.None? && b.geoType.None? && b.geoSubtype.None?
    ensures EntityDict(NetOwlEntity(b)) == b
  {
  }

  // ---------------------------------------------------------------- NetOwl_Link

  /** The `base_link` dict: one `Option` per key it may hold, `Some` when the key is present. The fields are
      named after the Python keys ('link-role-type' is `linkRoleType`); `idref` and `valueType` stand for
      the keys 'idref' and 'value-type', which `NetOwl_Link` tests but no caller ever stores. */
  datatype LinkDict = LinkDict(
    id: Option<string>,
    value: Option<string>,
    norm: Option<string>,
    ontology: Option<string>,
    role: Option<string>,
    roleType: Option<string>,
    linkRole: Option<string>,
    linkRoleType: Option<string>,
    linkValue: Option<string>,
    linkValueType: Option<string>,
    linkId: Option<string>,
    linkOntology: Option<string>,
    entOntology: Option<string>,
    idref: Option<string>,
    valueType: Option<string>)

  /** The empty dict `{}`. */
  const EmptyLinkDict := LinkDict(None, None, None, None, None, None, None, None, None, None, None, None, None, None, None)

  /** The value a key holds after `if present: d[key] = v`: the new value when there is one, else the old. */
  function Overwrite(v: Option<string>, prev: Option<string>): (r: Option<string>) {
    if v.Some? then v else prev
  }

  datatype Link = Link(
    value: Option<string>,
    norm: Option<string>,
    ontology: Option<string>,
    role: Option<string>,
    roleType: Option<string>,
    linkRole: Option<string>,
    linkRoleType: Option<string>,
    linkValue: Option<string>,
    linkValueType: Option<string>,
    linkId: Option<string>,
    entOntology: Option<string>,
    linkOntology: Option<string>)

  /** `NetOwl_Link` tests one key and reads another: whenever the tested key is there, the read key must be
      too, or the constructor raises `KeyError`. */
  predicate LinkReadable(d: LinkDict) {
    && (d.role.Some? ==> d.linkRole.Some?)
    && (d.roleType.Some? ==> d.linkRoleType.Some?)
    && (d.value.Some? ==> d.linkValue.Some?)
    && (d.valueType.Some? ==> d.linkValueType.Some?)
    && (d.idref.Some? ==> d.linkId.Some?)
  }

  /** `NetOwl_Link(value_dict)`. Each `link_*` field is set exactly when its gate key ('role', 'role-type',
      'value', 'value-type', 'idref') is present, and it then holds the value stored under the differently
      named 'link-*' key; `id` is never read. */
  function NetOwlLink(d: LinkDict): (r: Link)
    requires LinkReadable(d)
    ensures r.value == d.value && r.norm == d.norm && r.ontology == d.ontology
    ensures r.role == d.role && r.roleType == d.roleType
    ensures r.entOntology == d.entOntology && r.linkOntology == d.linkOntology
    ensures r.linkRole.Some? <==> d.role.Some?
    ensures r.linkRoleType.Some? <==> d.roleType.Some?
    ensures r.linkValue.Some? <==> d.value.Some?
    ensures r.linkValueType.Some? <==> d.valueType.Some?
    ensures r.linkId.Some? <==> d.idref.Some?
    ensures r.linkRole.Some? ==> r.linkRole == d.linkRole
    ensures r.linkRoleType.Some? ==> r.linkRoleType == d.linkRoleType
    ensures r.linkValue.Some? ==> r.linkValue == d.linkValue
    ensures r.linkValueType.Some? ==> r.linkValueType == d.linkValueType
    ensures r.linkId.Some? ==> r.linkId == d.linkId
  {
    Link(
      value := d.value,
      norm := d.norm,
      ontology := d.ontology,
      role := d.role,
      roleType := d.roleType,
      linkRole := if d.role.Some? then d.linkRole else None,
      linkRoleType := if d.roleType.Some? then d.linkRoleType else None,
      linkValue := if d.value.Some? then d.linkValue else None,
      linkValueType := if d.valueType.Some? then d.linkValueType else None,
      linkId := if d.idref.Some? then d.linkId else None,
      entOntology := d.entOntology,
      linkOntology := d.linkOntology)
  }

  // ---------------------------------------------------------------- NetOwl_Event

  /** The non-anchor argument of a multi-argument event. */
  datatype EventArg = EventArg(role: string, value: string, valueType: string, id: string, ontology: string)

  datatype Event = Event(
    eventRole: string,
    eventValue: string,
    eventValueType: string,
    eventId: string,
    eventPredicate: string,
    entOntology: string,
    arg: Option<EventArg>,
    triple: bool)

  /** The `base_event` / `arg_dict` dict: its string entries and its optional boolean `triple` entry. */
  datatype EventDict = EventDict(fields: map<string, string>, triple: Option<bool>)

  const AnchorKeys := {"event-role", "event-value", "event-value-type", "event-id", "predicate", "ent-ontology"}
  const ArgKeys := {"arg-role", "arg-value", "arg-value-type", "arg-id", "arg-ontology"}

  /** `NetOwl_Event` reads the anchor keys unconditionally, and the argument keys when `triple` is present. */
  predicate EventReadable(d: EventDict) {
    && AnchorKeys <= d.fields.Keys
    && (d.triple.Some? ==> ArgKeys <= d.fields.Keys)
  }

  /** `NetOwl_Event(value_dict)`. The argument fields exist exactly when `triple` does; without it the record's
      `triple` is `False`. */
  function NetOwlEvent(d: EventDict): (r: Event)
    requires EventReadable(d)
    ensures r.triple <==> d.triple == Some(true)
    ensures r.arg.Some? <==> d.triple.Some?
    ensures r.eventRole == d.fields["event-role"] && r.eventValue == d.fields["event-value"]
    ensures r.eventValueType == d.fields["event-value-type"] && r.eventId == d.fields["event-id"]
    ensures r.eventPredicate == d.fields["predicate"] && r.entOntology == d.fields["ent-ontology"]
    ensures r.arg.Some? ==> r.arg.value == EventArg(d.fields["arg-role"], d.fields["arg-value"],
      d.fields["arg-value-type"], d.fields["arg-id"], d.fields["arg-ontology"])
  {
    var f := d.fields;
    Event(f["event-role"], f["event-value"], f["event-value-type"], f["event-id"], f["predicate"], f["ent-ontology"],
      if d.triple.Some? then Some(EventArg(f["arg-role"], f["arg-value"], f["arg-value-type"], f["arg-id"], f["arg-ontology"]))
      else None,
      d.triple.GetOr(false))
  }
}
