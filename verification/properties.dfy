/** Properties of `process_netowl_json` that relate several records or several calls. */
module Properties {
  import opened Wrappers
  import opened Seqs
  import opened Text
  import opened Ids
  import opened Annotations
  import opened Records
  import opened Normalize

  // ---------------------------------------------------------------- identifiers

  /** Within one document, entities with distinct local ids get distinct ids. */
  lemma EntityIdsDistinct(file: string, json: NetOwlJson, url: string, query: string, category: string,
                          geocode: Geocoder)
    requires ProcessReadable(file, json, geocode) && json.document.Some?
    requires var ents := EntitiesOf(json.document.value[0]);
             forall i, j :: 0 <= i < j < |ents| ==> ents[i].id != ents[j].id
    ensures var out := ProcessNetowlJson(file, json, url, query, category, geocode).value.entities;
            forall i, j :: 0 <= i < j < |out| ==> out[i].id != out[j].id
  {
    var doc := json.document.value[0];
    var ents := EntitiesOf(doc);
    var prefix := DocPrefix(file);
    var out := ProcessNetowlJson(file, json, url, query, category, geocode).value.entities;
    forall i, j | 0 <= i < j < |out| ensures out[i].id != out[j].id {
      assert out[i].id == Some(MintId(prefix, ents[i].id.value));
      assert out[j].id == Some(MintId(prefix, ents[j].id.value));
    }
  }

  /** An event whose anchor names an entity's local id carries the id that entity's record received. */
  lemma EventAnchorResolves(ctx: DocContext, e: RawEntity, ev: RawEvent, geocode: Geocoder)
    requires RawEntityReadable(ctx.prefix, ctx.content, e, geocode) && RawEventReadable(ev)
    requires ev.entityArgs[0].idref == e.id
    ensures forall k :: 0 <= k < |EventRecords(ctx.prefix, ev)| ==>
              Some(EventRecords(ctx.prefix, ev)[k].eventId) == EntityRecord(ctx, e, geocode).id
  {
  }

  // ---------------------------------------------------------------- output order

  /** The parts of a prefix of the entities are that prefix of the parts. */
  lemma LinkPartsPrefix(prefix: string, ents: seq<RawEntity>, k: int)
    requires forall j :: 0 <= j < |ents| ==> ents[j].linkRefs.Some? ==> RefsReadable(prefix, ents[j], ents[j].linkRefs.value)
    requires 0 <= k <= |ents|
    ensures LinkParts(prefix, ents)[..k] == LinkParts(prefix, ents[..k])
    ensures |Concat(LinkParts(prefix, ents)[..k])| == TotalRefs(ents[..k])
  {
    var ps, qs := LinkParts(prefix, ents)[..k], LinkParts(prefix, ents[..k]);
    forall j | 0 <= j < k ensures ps[j] == qs[j] {
      assert ents[..k][j] == ents[j];
    }
    assert ps == qs;
    assert AllEntityLinks(prefix, ents[..k]) == Concat(qs);
  }

  /** Entity `k`'s links follow the links of the entities before it. */
  lemma AllEntityLinksSlice(prefix: string, ents: seq<RawEntity>, k: int)
    requires forall j :: 0 <= j < |ents| ==> ents[j].linkRefs.Some? ==> RefsReadable(prefix, ents[j], ents[j].linkRefs.value)
    requires 0 <= k < |ents|
    ensures TotalRefs(ents[..k]) + RefCount(ents[k]) == TotalRefs(ents[..k + 1]) <= TotalRefs(ents)
    ensures AllEntityLinks(prefix, ents)[TotalRefs(ents[..k])..TotalRefs(ents[..k + 1])] == EntityLinks(prefix, ents[k])
  {
    var parts := LinkParts(prefix, ents);
    ConcatSlice(parts, k);
    LinkPartsPrefix(prefix, ents, k);
    LinkPartsPrefix(prefix, ents, k + 1);
    assert Concat(parts) == AllEntityLinks(prefix, ents);
    assert parts[k] == EntityLinks(prefix, ents[k]);
  }

  /** The parts of a prefix of the events are that prefix of the parts. */
  lemma EventPartsPrefix(prefix: string, events: seq<RawEvent>, k: int)
    requires forall j :: 0 <= j < |events| ==> RawEventReadable(events[j])
    requires 0 <= k <= |events|
    ensures EventParts(prefix, events)[..k] == EventParts(prefix, events[..k])
    ensures |Concat(EventParts(prefix, events)[..k])| == TotalEventRecords(events[..k])
  {
    var ps, qs := EventParts(prefix, events)[..k], EventParts(prefix, events[..k]);
    forall j | 0 <= j < k ensures ps[j] == qs[j] {
      assert events[..k][j] == events[j];
    }
    assert ps == qs;
    assert AllEvents(prefix, events[..k]) == Concat(qs);
  }

  /** Event `k`'s records follow the records of the events before it. */
  lemma AllEventsSlice(prefix: string, events: seq<RawEvent>, k: int)
    requires forall j :: 0 <= j < |events| ==> RawEventReadable(events[j])
    requires 0 <= k < |events|
    ensures TotalEventRecords(events[..k]) + EventRecordCount(events[k]) == TotalEventRecords(events[..k + 1])
              <= TotalEventRecords(events)
    ensures AllEvents(prefix, events)[TotalEventRecords(events[..k])..TotalEventRecords(events[..k + 1])]
              == EventRecords(prefix, events[k])
  {
    var parts := EventParts(prefix, events);
    ConcatSlice(parts, k);
    EventPartsPrefix(prefix, events, k);
    EventPartsPrefix(prefix, events, k + 1);
    assert Concat(parts) == AllEvents(prefix, events);
    assert parts[k] == EventRecords(prefix, events[k]);
  }

  /** In the output, the links of entity `k` occupy the stretch of the link list that follows the links of
      the entities before it. */
  lemma EntityLinksInOrder(file: string, json: NetOwlJson, url: string, query: string, category: string,
                           geocode: Geocoder, k: int)
    requires ProcessReadable(file, json, geocode) && json.document.Some?
    requires 0 <= k < |EntitiesOf(json.document.value[0])|
    ensures var ents := EntitiesOf(json.document.value[0]);
            var links := ProcessNetowlJson(file, json, url, query, category, geocode).value.links;
            && TotalRefs(ents[..k]) + RefCount(ents[k]) == TotalRefs(ents[..k + 1]) <= |links|
            && links[TotalRefs(ents[..k])..TotalRefs(ents[..k + 1])] == EntityLinks(DocPrefix(file), ents[k])
  {
    var doc := json.document.value[0];
    var ents := EntitiesOf(doc);
    var prefix := DocPrefix(file);
    var entityLinks := AllEntityLinks(prefix, ents);
    var links := ProcessNetowlJson(file, json, url, query, category, geocode).value.links;
    assert links == entityLinks + DocLinks(prefix, LinksOf(doc));
    AllEntityLinksSlice(prefix, ents, k);
    SliceOfAppendFirst(entityLinks, DocLinks(prefix, LinksOf(doc)), TotalRefs(ents[..k]), TotalRefs(ents[..k + 1]));
  }

  /** In the output, the records of event `k` occupy the stretch of the event list that follows the records
      of the events before it. */
  lemma EventsInOrder(file: string, json: NetOwlJson, url: string, query: string, category: string,
                      geocode: Geocoder, k: int)
    requires ProcessReadable(file, json, geocode) && json.document.Some?
    requires 0 <= k < |EventsOf(json.document.value[0])|
    ensures var events := EventsOf(json.document.value[0]);
            var out := ProcessNetowlJson(file, json, url, query, category, geocode).value.events;
            && TotalEventRecords(events[..k]) + EventRecordCount(events[k]) == TotalEventRecords(events[..k + 1]) <= |out|
            && out[TotalEventRecords(events[..k])..TotalEventRecords(events[..k + 1])] == EventRecords(DocPrefix(file), events[k])
  {
    var events := EventsOf(json.document.value[0]);
    var out := ProcessNetowlJson(file, json, url, query, category, geocode).value.events;
    assert out == AllEvents(DocPrefix(file), events);
    AllEventsSlice(DocPrefix(file), events, k);
  }

  // ---------------------------------------------------------------- links never carry ids

  /** No state of the shared `base_link` dict ever holds the `idref` or `value-type` keys. */
  lemma {:induction false} RefDictsLackGateKeys(prefix: string, e: RawEntity, d: LinkDict, refs: seq<RawLinkRef>)
    requires forall k :: 0 <= k < |refs| ==> RefShapeOk(e, refs[k])
    requires d.idref.None? && d.valueType.None?
    ensures forall k :: 0 <= k < |refs| ==>
              RefDicts(prefix, e, d, refs)[k].idref.None? && RefDicts(prefix, e, d, refs)[k].valueType.None?
    decreases |refs|
  {
    if refs != [] {
      var d' := Absorb(prefix, e, d, refs[0]);
      RefDictsLackGateKeys(prefix, e, d', refs[1..]);
      var ds := RefDicts(prefix, e, d, refs);
      assert ds == [d'] + RefDicts(prefix, e, d', refs[1..]);
      forall k | 0 < k < |refs| ensures ds[k].idref.None? && ds[k].valueType.None? {
        assert ds[k] == RefDicts(prefix, e, d', refs[1..])[k - 1];
      }
    }
  }

  /** The links of one entity carry no target id and no target value type. */
  lemma RefLinksCarryNoIds(prefix: string, e: RawEntity)
    requires e.linkRefs.Some? ==> RefsReadable(prefix, e, e.linkRefs.value)
    ensures forall k :: 0 <= k < |EntityLinks(prefix, e)| ==>
              EntityLinks(prefix, e)[k].linkId.None? && EntityLinks(prefix, e)[k].linkValueType.None?
  {
    if e.linkRefs.Some? {
      var refs := e.linkRefs.value;
      RefDictsLackGateKeys(prefix, e, RefBase(prefix, e), refs);
      var ds := RefDicts(prefix, e, RefBase(prefix, e), refs);
      forall k | 0 <= k < |refs|
        ensures EntityLinks(prefix, e)[k].linkId.None? && EntityLinks(prefix, e)[k].linkValueType.None?
      {
        assert EntityLinks(prefix, e)[k] == NetOwlLink(ds[k]);
      }
    }
  }

  lemma {:induction false} EntityLinksCarryNoIds(prefix: string, ents: seq<RawEntity>)
    requires forall k :: 0 <= k < |ents| ==> ents[k].linkRefs.Some? ==> RefsReadable(prefix, ents[k], ents[k].linkRefs.value)
    ensures forall k :: 0 <= k < |AllEntityLinks(prefix, ents)| ==>
              AllEntityLinks(prefix, ents)[k].linkId.None? && AllEntityLinks(prefix, ents)[k].linkValueType.None?
  {
    if ents != [] {
      EntityLinksCarryNoIds(prefix, ents[1..]);
      RefLinksCarryNoIds(prefix, ents[0]);
      var head := EntityLinks(prefix, ents[0]);
      var rest := AllEntityLinks(prefix, ents[1..]);
      var all := AllEntityLinks(prefix, ents);
      assert all == head + rest;
      forall k | 0 <= k < |all| ensures all[k].linkId.None? && all[k].linkValueType.None? {
        if k < |head| {
          assert all[k] == head[k];
        } else {
          assert all[k] == rest[k - |head|];
        }
      }
    }
  }

  /** `NetOwl_Link` gates `link_id` on `idref` and `link_value_type` on `value-type`, keys neither link path
      ever puts in its dict: no link record of a document carries a target id or a target value type. */
  lemma LinksCarryNoIds(file: string, json: NetOwlJson, url: string, query: string, category: string,
                        geocode: Geocoder)
    requires ProcessReadable(file, json, geocode) && json.document.Some?
    ensures var links := ProcessNetowlJson(file, json, url, query, category, geocode).value.links;
            forall k :: 0 <= k < |links| ==> links[k].linkId.None? && links[k].linkValueType.None?
  {
    var doc := json.document.value[0];
    var prefix := DocPrefix(file);
    var links := ProcessNetowlJson(file, json, url, query, category, geocode).value.links;
    var n := TotalRefs(EntitiesOf(doc));
    EntityLinksCarryNoIds(prefix, EntitiesOf(doc));
    forall k | 0 <= k < |links| ensures links[k].linkId.None? && links[k].linkValueType.None? {
      if k < n {
        assert links[k] == links[..n][k];
      } else {
        assert links[k] == links[n..][k - n];
      }
    }
  }

  // ---------------------------------------------------------------- the shared base_link

  /** One `base_link` dict serves all link-refs of an entity, so a field a link-ref does not supply keeps the
      value an earlier link-ref left: each link repeats the previous link's role, role type, ontology, target
      value, target role and role type (once their gates are open), target ontology and anchor ontology unless
      its own link-ref supplies them, and all links keep the entity's value and norm. */
  lemma RefLinksCarryOver(prefix: string, e: RawEntity, refs: seq<RawLinkRef>, k: int)
    requires RefsReadable(prefix, e, refs) && e.value.Some?
    requires 0 < k < |refs|
    ensures var r := RefLinks(prefix, e, refs);
            var a := refs[k].entityArgs[0];
            && r[k].role == (if refs[k].role.Some? then refs[k].role else r[k - 1].role)
            && r[k].roleType == (if refs[k].roleType.Some? then refs[k].roleType else r[k - 1].roleType)
            && r[k].ontology == (if refs[k].ontology.Some? then refs[k].ontology else r[k - 1].ontology)
            && r[k].linkValue == (if a.value.Some? then a.value else r[k - 1].linkValue)
            && r[k].value == r[k - 1].value && r[k].norm == r[k - 1].norm
            && (r[k - 1].role.Some? ==> r[k].linkRole == (if a.role.Some? then a.role else r[k - 1].linkRole))
            && (r[k - 1].roleType.Some? ==>
                  r[k].linkRoleType == (if a.roleType.Some? then a.roleType else r[k - 1].linkRoleType))
            && r[k].linkOntology == (if refs[k].ontology.Some? then a.ontology else r[k - 1].linkOntology)
            && r[k].entOntology == (if refs[k].ontology.Some? then e.ontology else r[k - 1].entOntology)
  {
    var base := RefBase(prefix, e);
    var ds := RefDicts(prefix, e, base, refs);
    var r := RefLinks(prefix, e, refs);
    assert r[k] == NetOwlLink(ds[k]) && r[k - 1] == NetOwlLink(ds[k - 1]);
    assert ds[k] == Absorb(prefix, e, ds[k - 1], refs[k]);
    assert ds[k - 1].value == e.value by {
      RefDictsKeepValue(prefix, e, base, refs, k - 1);
    }
  }

  /** The first link of an entity is built from the entity's fresh dict: it has exactly what the first
      link-ref supplies, plus the entity's value and norm. Its target role (role type) is present only when
      the link-ref has a role (role type). */
  lemma FirstRefLink(prefix: string, e: RawEntity, refs: seq<RawLinkRef>)
    requires RefsReadable(prefix, e, refs) && e.value.Some? && |refs| > 0
    ensures var r := RefLinks(prefix, e, refs)[0];
            var a := refs[0].entityArgs[0];
            && r.value == e.value && r.norm == e.norm
            && r.role == refs[0].role && r.roleType == refs[0].roleType && r.ontology == refs[0].ontology
            && r.linkValue == a.value
            && r.linkRole == (if refs[0].role.Some? then a.role else None)
            && r.linkRoleType == (if refs[0].roleType.Some? then a.roleType else None)
            && r.linkOntology == (if refs[0].ontology.Some? then a.ontology else None)
            && r.entOntology == (if refs[0].ontology.Some? then e.ontology else None)
            && r.linkId.None? && r.linkValueType.None?
  {
    var base := RefBase(prefix, e);
    var ds := RefDicts(prefix, e, base, refs);
    assert ds[0] == Absorb(prefix, e, base, refs[0]);
    assert RefLinks(prefix, e, refs)[0] == NetOwlLink(ds[0]);
  }

  /** Link-refs never write `value`: every state of the shared dict keeps the entity's. */
  lemma {:induction false} RefDictsKeepValue(prefix: string, e: RawEntity, d: LinkDict, refs: seq<RawLinkRef>, k: int)
    requires forall j :: 0 <= j < |refs| ==> RefShapeOk(e, refs[j])
    requires 0 <= k < |refs|
    ensures RefDicts(prefix, e, d, refs)[k].value == d.value
    decreases k
  {
    var ds := RefDicts(prefix, e, d, refs);
    if k > 0 {
      RefDictsKeepValue(prefix, e, d, refs, k - 1);
      assert ds[k] == Absorb(prefix, e, ds[k - 1], refs[k]);
    } else {
      assert ds[0] == Absorb(prefix, e, d, refs[0]);
    }
  }

  /** The entity's `value` is in `base_link` from the start, so `NetOwl_Link` reads `link-value` for the very
      first link-ref: that link-ref's first argument must carry a value, or the source raises. */
  lemma FirstRefNeedsTargetValue(prefix: string, e: RawEntity, refs: seq<RawLinkRef>)
    requires RefsReadable(prefix, e, refs) && e.value.Some? && |refs| > 0
    ensures refs[0].entityArgs[0].value.Some?
  {
    var base := RefBase(prefix, e);
    var ds := RefDicts(prefix, e, base, refs);
    assert ds[0] == Absorb(prefix, e, base, refs[0]);
    assert LinkReadable(ds[0]);
  }

  // ---------------------------------------------------------------- sanitisation

  /** `cleanup_text`'s result is discarded: an entity whose value holds a double quote keeps it in its record,
      although the cleaned value would not. */
  lemma CleanedValueNotStored(ctx: DocContext, e: RawEntity, geocode: Geocoder)
    requires RawEntityReadable(ctx.prefix, ctx.content, e, geocode)
    requires '"' in e.value.value
    ensures CleanupText(e.value.value) != e.value.value
    ensures EntityRecord(ctx, e, geocode).value == Some(e.value.value)
  {
    var v := e.value.value;
    CleanupFixedPoint(v);
    var i :| 0 <= i < |v| && v[i] == '"';
    assert !IsClean(v[i]);
  }
}
