/**
 * Tier resolution: the first threshold of the scan that the parsed nicoru
 * count reaches.
 */
module Tier {
  import opened Wrappers
  import opened NicoruTables

  /**
   * `cnt >= t` on the parsed count; `None` stands for NaN, which compares
   * false with every number.
   */
  predicate Reaches(cnt: Option<int>, t: int)
  {
    cnt.Some? && cnt.value >= t
  }

  /** Index of the first threshold the count reaches, `|counts|` if none. */
  function FirstReachedIndex(counts: seq<int>, cnt: Option<int>): (k: nat)
    ensures k <= |counts|
    ensures forall j :: 0 <= j < k ==> !Reaches(cnt, counts[j])
    ensures k < |counts| ==> Reaches(cnt, counts[k])
    decreases |counts|
  {
    if |counts| == 0 then 0
    else if Reaches(cnt, counts[0]) then 0
    else 1 + FirstReachedIndex(counts[1..], cnt)
  }

  /** The tier a count falls into under a threshold list, if any. */
  function ResolveTier(counts: seq<int>, cnt: Option<int>): (id: Option<int>)
    ensures id.Some? ==> id.value in counts && Reaches(cnt, id.value)
    ensures id.None? <==> forall t :: t in counts ==> !Reaches(cnt, t)
  {
    var k := FirstReachedIndex(counts, cnt);
    if k < |counts| then Some(counts[k]) else None
  }

  /**
   * On a strictly descending list the first threshold reached is the
   * greatest threshold not above the count (a floor match).
   */
  lemma FloorMatch(counts: seq<int>, cnt: Option<int>)
    requires StrictlyDescending(counts)
    ensures ResolveTier(counts, cnt).Some? ==>
              forall t :: t in counts && Reaches(cnt, t) ==> t <= ResolveTier(counts, cnt).value
  {
    var k := FirstReachedIndex(counts, cnt);
    if k < |counts| {
      forall t | t in counts && Reaches(cnt, t)
        ensures t <= counts[k]
      {
        var i :| 0 <= i < |counts| && counts[i] == t;
        if i < k {
          assert !Reaches(cnt, counts[i]);
        }
      }
    }
  }

  /** The scan of the userscript's own loop: return the first threshold reached. */
  method FindTier(counts: seq<int>, cnt: Option<int>) returns (id: Option<int>)
    ensures id == ResolveTier(counts, cnt)
  {
    var i := 0;
    while i < |counts|
      invariant 0 <= i <= |counts|
      invariant forall j :: 0 <= j < i ==> !Reaches(cnt, counts[j])
    {
      if Reaches(cnt, counts[i]) {
        return Some(counts[i]);
      }
      i := i + 1;
    }
    return None;
  }

  /** The tier of a parsed count under the userscript's fixed threshold list. */
  function NicoruTier(cnt: Option<int>): (id: Option<int>)
    ensures id.Some? ==> id.value in NicoruCounts() && cnt.Some? && id.value <= cnt.value
    ensures id.None? <==> cnt.None? || cnt.value < 15
    ensures cnt.Some? && cnt.value >= 300 ==> id == Some(300)
    ensures cnt.Some? && 200 <= cnt.value < 300 ==> id == Some(200)
    ensures cnt.Some? && 100 <= cnt.value < 200 ==> id == Some(100)
    ensures cnt.Some? && 50 <= cnt.value < 100 ==> id == Some(50)
    ensures cnt.Some? && 30 <= cnt.value < 50 ==> id == Some(30)
    ensures cnt.Some? && 15 <= cnt.value < 30 ==> id == Some(15)
  {
    FloorMatch(NicoruCounts(), cnt);
    ResolveTier(NicoruCounts(), cnt)
  }
}
