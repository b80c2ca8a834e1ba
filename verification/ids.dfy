/** The identifier scheme shared by every record of one document: `split(document_file, '.')[0] + "_e_" + idref`. */
module Ids {

  /** `document_file.split(".")[0]`: the longest prefix of the file name that holds no '.'. */
  function DocPrefix(file: string): (p: string)
    ensures p <= file
    ensures '.' !in p
    ensures |p| < |file| ==> file[|p|] == '.'
  {
    if file == [] || file[0] == '.' then []
    else [file[0]] + DocPrefix(file[1..])
  }

  const Infix := "_e_"

  /** The globally scoped id of the annotation whose local id is `idref`. The prefix, the infix and the local
      id can be read back off the result. */
  function MintId(prefix: string, idref: string): (id: string)
    ensures |id| == |prefix| + |Infix| + |idref|
    ensures id[..|prefix|] == prefix
    ensures id[|prefix|..|prefix| + |Infix|] == Infix
    ensures id[|prefix| + |Infix|..] == idref
  {
    prefix + Infix + idref
  }

  /** Within one document, distinct local ids give distinct minted ids. */
  lemma MintIdInjective(prefix: string, a: string, b: string)
    requires MintId(prefix, a) == MintId(prefix, b)
    ensures a == b
  {
    var n := |prefix| + |Infix|;
    assert a == MintId(prefix, a)[n..];
    assert b == MintId(prefix, b)[n..];
  }

  /** Across documents the scheme alone does not keep ids apart: a prefix that itself contains the infix
      collides with a shorter prefix whose local id carries the rest. */
  lemma MintIdCrossDocumentCollision()
    ensures "a_e_b" != "a" && MintId("a_e_b", "c") == MintId("a", "b_e_c")
  {
  }
}
