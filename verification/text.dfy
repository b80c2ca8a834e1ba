/** String helpers of bucketize.py: Python slicing, the head/tail context windows and the character filter. */
module Text {
  import opened Seqs

  /** Python's clamping of one slice bound: a negative bound counts from the end, then it is held inside [0, |s|]. */
  function SliceBound(s: string, i: int): (k: nat)
    ensures k <= |s|
    ensures 0 <= i <= |s| ==> k == i
    ensures i > |s| ==> k == |s|
  {
    if i < 0 then (if i + |s| < 0 then 0 else i + |s|)
    else if i > |s| then |s|
    else i
  }

  /** Python's `s[i:j]` with step 1. It never indexes outside `s`, and in range it is Dafny's `s[i..j]`. */
  function Slice(s: string, i: int, j: int): (r: string)
    ensures |r| <= |s|
    ensures 0 <= i <= j <= |s| ==> r == s[i..j]
    ensures 0 <= j <= i ==> r == []
  {
    var a := SliceBound(s, i);
    var b := SliceBound(s, j);
    if a < b then s[a..b] else []
  }

  function Min(a: int, b: int): (m: int) { if a <= b then a else b }
  function Max(a: int, b: int): (m: int) { if a <= b then b else a }

  /** Up to `numchars` characters of `text` that end where the mention starts (`get_head`). */
  function GetHead(text: string, headpos: int, numchars: int): (r: string)
    ensures 0 <= headpos && 0 <= numchars ==> |r| <= numchars
    ensures 0 <= headpos ==> r == text[Min(Max(0, headpos - numchars), Min(headpos, |text|))..Min(headpos, |text|)]
    ensures 0 <= numchars <= headpos <= |text| ==> |r| == numchars
    ensures 0 <= headpos ==> var before := text[..Min(headpos, |text|)];
                             |r| <= |before| && r == before[|before| - |r|..]
  {
    var wheretostart := if headpos - numchars < 0 then 0 else headpos - numchars;
    Slice(text, wheretostart, headpos)
  }

  /** Up to `numchars` characters of `text` that start where the mention ends (`get_tail`). */
  function GetTail(text: string, tailpos: int, numchars: int): (r: string)
    ensures 0 <= tailpos && 0 <= numchars ==> |r| <= numchars
    ensures 0 <= tailpos && 0 <= numchars ==> r == text[Min(tailpos, |text|)..Min(tailpos + numchars, |text|)]
    ensures 0 <= tailpos <= |text| - numchars && 0 <= numchars ==> |r| == numchars
    ensures 0 <= tailpos && 0 <= numchars ==> var after := text[Min(tailpos, |text|)..];
                                               |r| <= |after| && r == after[..|r|]
  {
    var wheretoend := if tailpos + numchars > |text| then |text| else tailpos + numchars;
    Slice(text, tailpos, wheretoend)
  }

  /** With a negative offset Python counts from the end of the text, so the head window is not bounded. */
  lemma HeadNegativeOffset()
    ensures |GetHead("abcdef", -1, 2)| == 5
  {
    assert GetHead("abcdef", -1, 2) == "abcde";
  }

  /** Membership in Python's `string.printable`: the 95 characters ' '..'~' (digits, ASCII letters,
      punctuation and the space) and the whitespace '\t', '\n', '\x0b', '\x0c', '\r' ('\t'..'\r'). */
  predicate IsPrintable(c: char) {
    (' ' <= c <= '~') || ('\t' <= c <= '\r')
  }

  predicate IsNotQuote(c: char) { c != '"' }

  /** A character `cleanup_text` lets through. */
  predicate IsClean(c: char) { IsPrintable(c) && c != '"' }

  /** `cleanup_text`: keep the printable characters, then remove every double quote. The result is the
      one-pass filter by `IsClean` */
  function CleanupText(intext: string): (r: string)
    ensures forall i :: 0 <= i < |r| ==> IsPrintable(r[i]) && r[i] != '"'
    ensures r == Filter(intext, IsClean)
    ensures |r| <= |intext|
  {
    FilterFilter(intext, IsPrintable, IsNotQuote, IsClean);
    var p := Filter(intext, IsPrintable);
    Filter(p, IsNotQuote)
  }

  /** `cleanup_text` only deletes characters: its result is a subsequence of its input. */
  lemma CleanupIsSubsequence(s: string)
    ensures IsSubsequence(CleanupText(s), s)
  {
    FilterIsSubsequence(s, IsClean);
  }

  /** Cleaning clean text changes nothing. */
  lemma CleanupIdempotent(s: string)
    ensures CleanupText(CleanupText(s)) == CleanupText(s)
  {
    FilterIdempotent(s, IsClean);
  }

  /** `cleanup_text` leaves a string unchanged exactly when it is already all printable and quote-free. */
  lemma CleanupFixedPoint(s: string)
    ensures CleanupText(s) == s <==> forall i :: 0 <= i < |s| ==> IsClean(s[i])
  {
    FilterFixedPoint(s, IsClean);
  }
}
