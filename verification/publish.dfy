/** The selection `main` applies to a document's entities before publishing them: geo entities that are
    coordinates, addresses or cities. */
module Publish {
  import opened Wrappers
  import opened Seqs
  import opened Geo
  import opened Annotations
  import opened Records
  import opened Normalize

  predicate Publishable(e: Entity) {
    && e.geoEntity
    && e.geo.Some?
    && (e.geo.value.geoType == "coordinate" || e.geo.value.geoType == "address" || e.geo.value.geoSubtype == "city")
  }

  /** The entities kept for publication, in their original order: every copy of a publishable entity and
      nothing else. */
  function SpatialEntities(es: seq<Entity>): (r: seq<Entity>)
    ensures forall i :: 0 <= i < |r| ==> Publishable(r[i])
    ensures forall x :: x in r <==> x in es && Publishable(x)
    ensures forall x :: multiset(r)[x] == if Publishable(x) then multiset(es)[x] else 0
    ensures IsSubsequence(r, es)
  {
    FilterIsSubsequence(es, Publishable);
    assert forall x :: x in Filter(es, Publishable) <==> x in es && Publishable(x) by {
      forall x ensures x in Filter(es, Publishable) <==> x in es && Publishable(x) {
        FilterMembership(es, Publishable, x);
      }
    }
    assert forall x :: multiset(Filter(es, Publishable))[x] == if Publishable(x) then multiset(es)[x] else 0 by {
      forall x ensures multiset(Filter(es, Publishable))[x] == if Publishable(x) then multiset(es)[x] else 0 {
        FilterMultiplicity(es, Publishable, x);
      }
    }
    Filter(es, Publishable)
  }

  /** The ontologies whose geo entities are published. */
  const PublishedOntologies := {
    "entity:numeric:coordinate:mgrs", "entity:numeric:coordinate:latlong", "entity:address:mail", "entity:place:city"}

  /** An entity built from a raw entity is published exactly when it is geo (it has geodetic coordinates or
      is a mail address) and its ontology is an MGRS or lat/long coordinate, a mail address or a city. */
  lemma PublishedIff(ctx: DocContext, e: RawEntity, geocode: Geocoder)
    requires RawEntityReadable(ctx.prefix, ctx.content, e, geocode)
    ensures Publishable(EntityRecord(ctx, e, geocode)) <==>
              (e.geodetic.Some? || e.ontology.value == MailOntology) && e.ontology.value in PublishedOntologies
  {
    var r := EntityRecord(ctx, e, geocode);
    var o := e.ontology.value;
    if r.geo.Some? {
      var t := (r.geo.value.geoType, r.geo.value.geoSubtype);
      if o in GeoTable {
        assert t == GeoTable[o];
        if o !in PublishedOntologies {
          assert t.0 == "placename" && t.1 != "city";
        }
      } else {
        assert t == DefaultGeoType;
      }
    }
  }
}
