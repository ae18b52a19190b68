/** Searching in strings, as std::string::find does. A byte string is a string whose characters are bytes. */
module Text {
  import opened Wrappers

  predicate MatchesAt(hay: string, needle: string, i: nat) {
    i + |needle| <= |hay| && hay[i..i + |needle|] == needle
  }

  ghost predicate Contains(hay: string, needle: string) {
    exists i: nat :: MatchesAt(hay, needle, i)
  }

  /** The first match at or after `from`, or None where find answers npos. */
  function Find(hay: string, needle: string, from: nat): (r: Option<nat>)
    ensures r.Some? ==> from <= r.value && MatchesAt(hay, needle, r.value)
    ensures r.Some? ==> forall i: nat :: from <= i < r.value ==> !MatchesAt(hay, needle, i)
    ensures r.None? ==> forall i: nat :: from <= i ==> !MatchesAt(hay, needle, i)
    decreases |hay| - from
  {
    if from + |needle| > |hay| then None
    else if hay[from..from + |needle|] == needle then Some(from)
    else Find(hay, needle, from + 1)
  }

  /** A match with no match before it is the one found. */
  lemma FindFirst(hay: string, needle: string, from: nat, k: nat)
    requires from <= k && MatchesAt(hay, needle, k)
    requires forall i: nat :: from <= i < k ==> !MatchesAt(hay, needle, i)
    ensures Find(hay, needle, from) == Some(k)
  {
    var r := Find(hay, needle, from);
    assert r.Some? && !(r.value < k) && !(k < r.value);
  }

  lemma MatchInSuffix(hay: string, needle: string, from: nat, i: nat)
    requires from <= |hay|
    ensures MatchesAt(hay[from..], needle, i) <==> MatchesAt(hay, needle, from + i)
  {
    if from + i + |needle| <= |hay| {
      assert hay[from..][i..i + |needle|] == hay[from + i..from + i + |needle|];
    }
  }

  /** Searching from a position is searching the rest of the string. */
  lemma FindInSuffix(hay: string, needle: string, from: nat)
    requires from <= |hay|
    ensures Find(hay, needle, from)
         == (match Find(hay[from..], needle, 0) case None => None case Some(i) => Some(from + i))
  {
    var r := Find(hay[from..], needle, 0);
    if r.Some? {
      forall i: nat | from <= i < from + r.value ensures !MatchesAt(hay, needle, i) {
        MatchInSuffix(hay, needle, from, i - from);
      }
      MatchInSuffix(hay, needle, from, r.value);
      FindFirst(hay, needle, from, from + r.value);
    } else {
      forall i: nat | from <= i ensures !MatchesAt(hay, needle, i) {
        MatchInSuffix(hay, needle, from, i - from);
      }
    }
  }

  /** A part of a string contains nothing the string does not contain. */
  lemma PartContainsLess(hay: string, lo: nat, hi: nat, needle: string)
    requires lo <= hi <= |hay| && Contains(hay[lo..hi], needle)
    ensures Contains(hay, needle)
  {
    var i: nat :| MatchesAt(hay[lo..hi], needle, i);
    var part := hay[lo..hi];
    forall k | 0 <= k < |needle| ensures needle[k] == hay[lo + i + k] {
      assert part[i..i + |needle|][k] == part[i + k];
    }
    assert hay[lo + i..lo + i + |needle|] == needle;
    assert MatchesAt(hay, needle, lo + i);
  }

  /** What precedes the first match contains no match. */
  lemma BeforeFirstMatch(hay: string, needle: string, k: nat)
    requires Find(hay, needle, 0) == Some(k) && |needle| > 0
    ensures !Contains(hay[..k], needle)
  {
    if Contains(hay[..k], needle) {
      var i: nat :| MatchesAt(hay[..k], needle, i);
      assert hay[..k][i..i + |needle|] == hay[i..i + |needle|];
      assert MatchesAt(hay, needle, i);
    }
  }
}
