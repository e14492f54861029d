/**
 * The position `std::max_element` reports: the first index holding the
 * largest value, or 0 (the end of an empty range) when there is none.
 */
module MaxElement {

  /** `k` is the first position of a largest element of `s`. */
  ghost predicate IsFirstMax(s: seq<real>, k: nat)
  {
    k < |s| && (forall j :: 0 <= j < |s| ==> s[j] <= s[k]) && (forall j :: 0 <= j < k ==> s[j] < s[k])
  }

  /** Scans left to right and moves only on a strictly larger value, as `std::max_element` does. */
  function FirstMaxIndex(s: seq<real>): (k: nat)
    ensures |s| == 0 ==> k == 0
    ensures |s| > 0 ==> IsFirstMax(s, k)
  {
    if |s| <= 1 then 0
    else
      var k := FirstMaxIndex(s[..|s| - 1]);
      if s[k] < s[|s| - 1] then |s| - 1 else k
  }

  /** Two first-maximum positions of one sequence coincide. */
  lemma FirstMaxUnique(s: seq<real>, k1: nat, k2: nat)
    requires IsFirstMax(s, k1) && IsFirstMax(s, k2)
    ensures k1 == k2
  {
    assert s[k1] == s[k2];
  }

  /** The value at the first-maximum position bounds every element and occurs in `s`. */
  lemma FirstMaxIsMaximum(s: seq<real>)
    requires |s| > 0
    ensures s[FirstMaxIndex(s)] in s
    ensures forall v :: v in s ==> v <= s[FirstMaxIndex(s)]
  {
    var k := FirstMaxIndex(s);
    forall v | v in s ensures v <= s[k] {
      var j :| 0 <= j < |s| && s[j] == v;
    }
  }
}
