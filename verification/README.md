# NetOwl annotation normaliser

This project models the core of `bucketize.py`: `process_netowl_json` turns one parsed NetOwl annotation
document into three ordered lists of records.

- **Entities**: one per raw entity, in input order. Each carries a globally scoped id, the raw value and
  the caller's metadata. A head (tail) context window is present when the first mention has a `head`
  (`tail`) offset; it has at most 255 characters when the offset is non-negative, while a negative offset
  counts from the end of the text. An entity is geo when it has geodetic coordinates or is a mail address,
  and only a geo entity carries geo attributes; a mail address is geocoded.
- **Links**: first one per `link-ref` embedded in an entity, then one per document-level `link`.
- **Events**: one record for a one-argument event; otherwise one record per non-anchor argument.

The model also covers:

- the helpers `get_head`, `get_tail` and `cleanup_text`;
- the id scheme `document_file.split(".")[0] + "_e_" + idref`;
- the ontology to (geo type, geo subtype) classification;
- the record constructors `NetOwl_Entity`, `NetOwl_Link` and `NetOwl_Event`, which copy a field only when a
  gating key is present;
- the selection `main` applies before publishing entities (geo, and a coordinate, an address or a city).

## How the model is built

- Modules:
  - `Wrappers`, `Seqs`: `Option`, filter and subsequence;
  - `Text`: Python slicing, `get_head`/`get_tail`, `cleanup_text`;
  - `Ids`: the id scheme;
  - `Geo`: classification;
  - `Annotations`: the raw NetOwl JSON shapes;
  - `Records`: the three constructors;
  - `Normalize`: `process_netowl_json`;
  - `Publish`: the selection in `main`;
  - `Properties`: lemmas that span several records.
- A key's presence in a Python dict is an `Option` field. The `base_link` dict is a record with one `Option`
  per key. The `base_event` dict is a string map plus an optional `triple`.
- A read the source does without a test first (`e['value']`, `link['entity-arg'][1]`,
  `value_dict['link-role']`, the geocoder's first candidate, `content` when there is no `text` section)
  raises in the source. Here it is a precondition, through the `*Readable` predicates. The source skips
  nothing per record, so the model has no skip path.
- `geocode_address` is a parameter `string -> Option<Location>`. A mail-address entity requires `Some`.
- Python slice semantics are modelled exactly, including negative bounds, which count from the end.
- The model keeps the source's quirks as written:
  - the result of `cleanup_text` is discarded, and the entity keeps its raw value;
  - `link_id` and `link_value_type` are gated on `idref` and `value-type`, keys no caller stores, so they are
    never set;
  - one `base_link` dict is shared by all link-refs of an entity, so a field keeps an earlier link-ref's
    value when a later link-ref does not supply it;
  - a document-level link's `link-role-type` is its second argument's `role`.
- Three behaviours of the code that are easy to misread:
  - the classification has no "unclassified" outcome: a geo entity with an unlisted ontology gets
    `("placename", "unknown")`, and a non-geo entity gets no type at all;
  - a document-level link's `ent-ontology` comes from argument 0, the anchor;
  - a geocoding failure or a malformed record raises and aborts the whole document; no record is skipped.

## Model

| member | source | states |
|---|---|---|
| Text.Slice | bucketize.py:405 | Python `s[i:j]` never indexes outside `s`, is no longer than `s`, is Dafny's `s[i..j]` for in-range bounds, and is empty when `0 <= j <= i` (a negative `j` counts from the end) |
| Text.GetHead | bucketize.py:400-406 | For a non-negative `headpos`: the window is `text[max(0, headpos-n) .. min(headpos, len)]`, has at most `n` characters (exactly `n` when it fits), and is a suffix of the text before `headpos` |
| Text.GetTail | bucketize.py:408-414 | For a non-negative `tailpos`: the window is `text[tailpos .. min(tailpos+n, len)]`, has at most `n` characters (exactly `n` when it fits), and is a prefix of the text from `tailpos` on |
| Text.HeadNegativeOffset | bucketize.py:400-406 | With a negative `headpos` Python counts from the end, so `get_head("abcdef", -1, 2)` has 5 characters, more than `numchars` |
| Text.CleanupText | bucketize.py:381-386 | The result holds only `string.printable` characters and no double quote, equals a one-pass filter by "printable and not a quote", and is no longer than the input |
| Text.CleanupIsSubsequence | bucketize.py:381-386 | `cleanup_text` only deletes characters: the result is a subsequence of the input |
| Text.CleanupIdempotent | bucketize.py:381-386 | Cleaning an already cleaned string changes nothing |
| Text.CleanupFixedPoint | bucketize.py:381-386 | `cleanup_text(s) == s` exactly when every character of `s` is printable and not a double quote |
| Seqs.Filter | bucketize.py:384 | `filter` keeps only elements satisfying the predicate and never lengthens the sequence |
| Seqs.FilterMembership | bucketize.py:384 | An element is in the filtered sequence exactly when it is in the input and satisfies the predicate |
| Seqs.FilterMultiplicity | bucketize.py:384 | A filter keeps every copy of an element that satisfies the predicate and no copy of one that does not |
| Seqs.FilterIsSubsequence | bucketize.py:384 | Filtering yields a subsequence of the input |
| Seqs.FilterFilter | bucketize.py:384-385 | Filtering by `p` then by `q` equals one filter by `p and q`, so `filter` followed by `replace('"', "")` is one filter |
| Seqs.FilterFixedPoint | bucketize.py:384 | A filter leaves its input unchanged exactly when every element satisfies the predicate |
| Seqs.FilterIdempotent | bucketize.py:384 | Filtering twice by the same predicate equals filtering once |
| Ids.DocPrefix | bucketize.py:163 | `document_file.split(".")[0]` is a prefix of the file name with no `.`, followed in the file name by a `.` or by nothing |
| Ids.MintId | bucketize.py:163 | A minted id is the prefix, then `_e_`, then the local id, and each part can be read back at its position |
| Ids.MintIdInjective | bucketize.py:163 | Within one document, two local ids that mint the same id are equal |
| Ids.MintIdCrossDocumentCollision | bucketize.py:163 | Across documents ids can collide: prefix `a_e_b` with local id `c` and prefix `a` with local id `b_e_c` mint the same id |
| Geo.GeoTypeOf | bucketize.py:191-230 | The chain of independent `if`s yields the 12-entry table's (type, subtype) for a listed ontology and `("placename", "unknown")` for any other |
| Records.NetOwlEntity | bucketize.py:22-51 | `id`, `ontology`, `value`, `norm`, `doc_link`, `query` and `category` are copied exactly when present, `pre_text` from `head` and `post_text` from `tail`; the geo fields exist exactly when `geo_entity` is present, `geo_entity` is False otherwise, and `loc` is `[long, lat]` of the copied lat/long and types |
| Records.NetOwlEntityRoundTrip | bucketize.py:22-51 | The constructor loses nothing: every record whose `loc` is `[long, lat]` and whose `geo_entity` is False without geo fields is rebuilt from the dict of its own attributes |
| Records.EntityDictRoundTrip | bucketize.py:22-51 | A dict whose geo keys appear only with `geo_entity` is recovered from the record built from it |
| Records.NetOwlLink | bucketize.py:62-87 | Each `link_*` field is set exactly when its gate key (`role`, `role-type`, `value`, `value-type`, `idref`) is present, and then holds the value of the separately named `link-*` key |
| Records.NetOwlEvent | bucketize.py:97-115 | The six anchor fields always hold the values of `event-role`, `event-value`, `event-value-type`, `event-id`, `predicate` and `ent-ontology`; the argument fields exist exactly when `triple` is present and then hold `arg-role`, `arg-value`, `arg-value-type`, `arg-id` and `arg-ontology`; `triple` is False when absent |
| Normalize.ContextWindow | bucketize.py:232-237 | Head and tail windows exist exactly when the first mention has `head` or `tail`; they are `get_head`/`get_tail` of the document text at that offset with width 255, so each has at most 255 characters for non-negative offsets |
| Normalize.EntityBase | bucketize.py:157-241 | The `base_entity` dict built for an entity is always readable by `NetOwl_Entity` |
| Normalize.EntityRecord | bucketize.py:157-245 | Entity id is the minted id; value, ontology and norm are raw. It is geo iff geodetic or mail; geo type/subtype come from the table or the default; a mail address takes the geocoder's y/x, overriding geodetic; `pre_text`/`post_text` are `get_head`/`get_tail` of the document text at the first mention's offsets, at most 255 characters |
| Normalize.Absorb | bucketize.py:259-279 | One link-ref overwrites `ontology`, `role`, `role-type` and, from its first argument, `link-role`, `link-role-type`, `link-value`, `link-value-type` and the minted `link-id`, each only when supplied; `link-ontology` and `ent-ontology` only when the link-ref has an ontology; every other key keeps its value, and `id`, `value`, `norm`, `idref`, `value-type` are never written |
| Normalize.RefDicts | bucketize.py:248-282 | The shared `base_link` has one state per link-ref, each the previous state absorbed with that link-ref |
| Normalize.RefLinks | bucketize.py:259-282 | One link per link-ref, each `NetOwl_Link` of the dict state after that link-ref |
| Normalize.EntityLinks | bucketize.py:248-282 | An entity with link-refs yields its `RefLinks`, one per link-ref; an entity without yields none |
| Normalize.LinkParts | bucketize.py:157-282 | The per-entity link lists, one per entity in input order |
| Normalize.EventParts | bucketize.py:311-348 | The per-event record lists, one per event in input order |
| Normalize.DocLink | bucketize.py:288-307 | A document-level link takes ontology from the link, role/role type/value/ent-ontology from argument 0, link role, value and ontology from argument 1, link role type from argument 1's role, and has no norm, link value type or link id |
| Normalize.DocLinks | bucketize.py:285-308 | One link per document-level link, in order |
| Normalize.EventAnchorDict | bucketize.py:314-325 | `base_event` holds exactly the six anchor and predicate keys |
| Normalize.ArgDict | bucketize.py:336-340 | Each argument adds exactly the five argument keys |
| Normalize.ArgEvent | bucketize.py:334-343 | An argument's record has `triple`, that argument's fields with a minted id, and the anchor fields unchanged |
| Normalize.FanOut | bucketize.py:327-344 | The argument loop yields one record per argument in order, each with `triple`, its argument and the common anchor |
| Normalize.EventRecords | bucketize.py:313-348 | One argument: one record, `triple` False, no argument fields. N > 1 arguments: N-1 records, record k carries argument k+1; every record has the same anchor and predicate |
| Normalize.Entities | bucketize.py:157-245 | One entity record per raw entity, in input order |
| Normalize.AllEntityLinks | bucketize.py:157-282 | The entities' links are each entity's links joined in entity order, and number the sum of the link-ref counts |
| Normalize.AllEvents | bucketize.py:311-348 | The events' records are each event's records joined in event order, and number the sum of each event's record count |
| Normalize.ProcessNetowlJson | bucketize.py:137-350 | Returns a value exactly when there is a `document` section. Entities map one to one in input order. Links are each entity's links in entity order, then the document-level links in order; events are each event's records in event order |
| Properties.AllEntityLinksSlice | bucketize.py:157-282 | Entity `k`'s links sit in the joined list right after the links of entities `0..k-1` |
| Properties.AllEventsSlice | bucketize.py:311-348 | Event `k`'s records sit in the joined list right after the records of events `0..k-1` |
| Properties.EntityLinksInOrder | bucketize.py:157-308 | In the output link list, entity `k`'s links occupy the stretch after the links of entities `0..k-1` |
| Properties.EventsInOrder | bucketize.py:311-348 | In the output event list, event `k`'s records occupy the stretch after the records of events `0..k-1` |
| Properties.EntityIdsDistinct | bucketize.py:157-165 | Entities with distinct local ids get distinct ids |
| Properties.EventAnchorResolves | bucketize.py:320-325 | An event whose anchor references an entity carries exactly the id that entity's record received |
| Properties.RefDictsLackGateKeys | bucketize.py:251-279 | No state of the shared `base_link` ever holds `idref` or `value-type` |
| Properties.RefLinksCarryNoIds | bucketize.py:80-83 | No link of one entity has a link id or a link value type |
| Properties.EntityLinksCarryNoIds | bucketize.py:80-83 | No entity-embedded link has a link id or a link value type |
| Properties.LinksCarryNoIds | bucketize.py:80-83 | No link of the output has a link id or a link value type |
| Properties.RefLinksCarryOver | bucketize.py:251-282 | Because `base_link` is shared, each link repeats the previous link's role, role type, ontology, link value, link ontology and ent-ontology unless its own link-ref supplies them, and its link role and link role type once their gates are open; all keep the entity's value and norm |
| Properties.FirstRefLink | bucketize.py:251-282 | The first link carries exactly what the first link-ref supplies plus the entity's value and norm; its link role (role type) appears only when the link-ref has a role (role type); no link id or link value type |
| Properties.RefDictsKeepValue | bucketize.py:253-256 | Every state of the shared dict keeps the entity's `value` |
| Properties.FirstRefNeedsTargetValue | bucketize.py:76-79 | Because the entity's `value` is in `base_link`, the first link-ref's argument must carry a `value`, else `NetOwl_Link` raises |
| Properties.CleanedValueNotStored | bucketize.py:161-171 | The cleaned value is discarded: an entity value with a double quote keeps it in the record, although cleaning would change it |
| Publish.SpatialEntities | bucketize.py:479-482 | The published entities are in their original order, all publishable, and are exactly the publishable input entities with their multiplicity (every copy kept) |
| Publish.PublishedIff | bucketize.py:175-230 | A built entity is published exactly when it is geo and its ontology is an MGRS or lat/long coordinate, a mail address or a city |

## Left out

- `main`: the search loop, `search_news`, HTTP via `requests`, BeautifulSoup, file writes and removals,
  `time.sleep`, logging. These are orchestration and I/O.
- `netowl_curl` and `post_to_geoevent`: HTTP calls.
- The body of `geocode_address`: an HTTP call. It is the `Geocoder` parameter.
- `toJSON`: library serialisation through `json.dumps`.
- `float()` on geodetic strings and `int()` on mention offsets: parsing. Coordinates are a `real` copied through,
  and offsets are integers already.
- `Text_Item`: built but never returned.
- `gui_test.py`: a user-interface event loop.
- The in-place rewrite `e['id'] = rdfid` on the input: nothing reads it afterwards.
- Text.GetHead: the length bound and the suffix property are stated only for a non-negative `headpos`. A
  negative one counts from the end of the text (see `Text.HeadNegativeOffset`).
- Text.GetTail: the length bound and the prefix property are stated only for non-negative `tailpos` and
  `numchars`.
