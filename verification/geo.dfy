/** The ontology to (geo_type, geo_subtype) classification of bucketize.py. */
module Geo {

  /** The twelve classified ontology tags. */
  const GeoTable: map<string, (string, string)> := map[
    "entity:place:city" := ("placename", "city"),
    "entity:place:country" := ("placename", "country"),
    "entity:place:province" := ("placename", "province"),
    "entity:place:continent" := ("placename", "continent"),
    "entity:numeric:coordinate:mgrs" := ("coordinate", "MGRS"),
    "entity:numeric:coordinate:latlong" := ("coordinate", "latlong"),
    "entity:address:mail" := ("address", "mail"),
    "entity:place:other" := ("placename", "descriptor"),
    "entity:place:landform" := ("placename", "landform"),
    "entity:organization:facility" := ("placename", "facility"),
    "entity:place:water" := ("placename", "water"),
    "entity:place:county" := ("placename", "county")
  ]

  /** The pair every geo entity starts with, kept when its ontology is not in the table. */
  const DefaultGeoType := ("placename", "unknown")

  /** The classification as the source performs it: start from the default, then a chain of independent
      `if`s, each overwriting the pair when the ontology equals its tag. It agrees with the table. */
  function GeoTypeOf(ontology: string): (t: (string, string))
    ensures ontology in GeoTable ==> t == GeoTable[ontology]
    ensures ontology !in GeoTable ==> t == DefaultGeoType
  {
    var t0 := DefaultGeoType;
    var t1 := if ontology == "entity:place:city" then ("placename", "city") else t0;
    var t2 := if ontology == "entity:place:country" then ("placename", "country") else t1;
    var t3 := if ontology == "entity:place:province" then ("placename", "province") else t2;
    var t4 := if ontology == "entity:place:continent" then ("placename", "continent") else t3;
    var t5 := if ontology == "entity:numeric:coordinate:mgrs" then ("coordinate", "MGRS") else t4;
    var t6 := if ontology == "entity:numeric:coordinate:latlong" then ("coordinate", "latlong") else t5;
    var t7 := if ontology == "entity:address:mail" then ("address", "mail") else t6;
    var t8 := if ontology == "entity:place:other" then ("placename", "descriptor") else t7;
    var t9 := if ontology == "entity:place:landform" then ("placename", "landform") else t8;
    var t10 := if ontology == "entity:organization:facility" then ("placename", "facility") else t9;
    var t11 := if ontology == "entity:place:water" then ("placename", "water") else t10;
    var t12 := if ontology == "entity:place:county" then ("placename", "county") else t11;
    t12
  }
}
