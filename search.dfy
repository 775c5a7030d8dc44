/**
 * Finding the chip-select assertion that starts a decode, and choosing the
 * decode window from the cursors, the trigger or the whole capture.
 */
module SlaveSelect {
  import opened Signals

  datatype Option<T> = None | Some(value: T)

  /** CS falls at sample j: the masked CS level at j-1 compares greater than at j. */
  predicate IsFall(values: seq<int>, cs: int, j: int)
    requires ValidChannel(cs) && 0 < j < |values|
  {
    Masked(values[j - 1], cs) > Masked(values[j], cs)
  }

  /** A fall of the masked level is the CS line going from high to low. */
  lemma FallIsHighToLow(values: seq<int>, cs: int, j: int)
    requires ValidChannel(cs) && 0 < j < |values|
    ensures IsFall(values, cs, j) <==> High(values[j - 1], cs) && !High(values[j], cs)
  {
    MaskedEdge(values[j - 1], values[j], cs);
  }

  /** The forward walk: the first sample in (lo, hi) at which CS falls, or -1. */
  function FindFall(values: seq<int>, cs: int, lo: int, hi: int): (r: int)
    requires ValidChannel(cs) && 0 <= lo && hi <= |values|
    ensures r == -1 <==> forall j :: lo < j < hi ==> !IsFall(values, cs, j)
    ensures r != -1 ==> lo < r < hi && IsFall(values, cs, r)
    ensures r != -1 ==> forall j :: lo < j < r ==> !IsFall(values, cs, j)
    decreases hi - lo
  {
    if lo + 1 >= hi then -1
    else if IsFall(values, cs, lo + 1) then lo + 1
    else FindFall(values, cs, lo + 1, hi)
  }

  /**
   * The backward walk: the last sample i in [lo, hi) such that CS falls at
   * i + 1, or -1. The walk reports the sample before the fall, where CS is
   * still high, and never reports hi itself.
   */
  function FindDrop(values: seq<int>, cs: int, lo: int, hi: int): (r: int)
    requires ValidChannel(cs) && 0 <= lo && hi < |values|
    ensures r == -1 <==> forall j :: lo < j <= hi ==> !IsFall(values, cs, j)
    ensures r != -1 ==> lo <= r < hi && IsFall(values, cs, r + 1)
    ensures r != -1 ==> forall j :: r + 1 < j <= hi ==> !IsFall(values, cs, j)
    decreases hi - lo
  {
    if hi <= lo then -1
    else if IsFall(values, cs, hi) then hi - 1
    else FindDrop(values, cs, lo, hi - 1)
  }

  /** The first fall after lo is the only answer of the forward walk. */
  lemma FindFallIsFirst(values: seq<int>, cs: int, lo: int, hi: int, i: int)
    requires ValidChannel(cs) && 0 <= lo < i < hi <= |values|
    requires IsFall(values, cs, i) && forall j :: lo < j < i ==> !IsFall(values, cs, j)
    ensures FindFall(values, cs, lo, hi) == i
  {
  }

  /** The sample before the last fall up to hi is the only answer of the backward walk. */
  lemma FindDropIsLast(values: seq<int>, cs: int, lo: int, hi: int, i: int)
    requires ValidChannel(cs) && 0 <= lo <= i < hi < |values|
    requires IsFall(values, cs, i + 1) && forall j :: i + 1 < j <= hi ==> !IsFall(values, cs, j)
    ensures FindDrop(values, cs, lo, hi) == i
  {
  }

  /** What the worker's search computes: backwards when start > end, forwards otherwise. */
  predicate SearchArgs(values: seq<int>, cs: int, start: int, end: int) {
    && ValidChannel(cs) && 0 <= start < |values| && 0 <= end
    && (start <= end ==> end <= |values|)
  }

  function Search(values: seq<int>, cs: int, start: int, end: int): (r: int)
    requires SearchArgs(values, cs, start, end)
    ensures start > end ==>
      && (r == -1 <==> forall j :: end < j <= start ==> !IsFall(values, cs, j))
      && (r != -1 ==> end <= r < start && IsFall(values, cs, r + 1))
    ensures start <= end ==>
      && (r == -1 <==> forall j :: start < j < end ==> !IsFall(values, cs, j))
      && (r != -1 ==> start < r < end && IsFall(values, cs, r))
  {
    if start > end then FindDrop(values, cs, end, start) else FindFall(values, cs, start, end)
  }

  /**
   * The decoder's view of the capture's markers: the sample indices of the
   * two cursors (the second one past its position), present only when
   * cursors are enabled and both are set, and the trigger's sample index.
   */
  datatype Markers = Markers(cursors: Option<(int, int)>, trigger: Option<int>)

  /** The markers lie inside the capture, and a capture without them is not empty. */
  predicate ValidMarkers(values: seq<int>, m: Markers) {
    match m.cursors
    case Some(cur) => 0 <= cur.0 < |values| && 0 <= cur.1 <= |values|
    case None =>
      match m.trigger
      case Some(t) => 0 <= t < |values|
      case None => 0 < |values|
  }

  /**
   * A window anchored at a marker: it is kept when a CS fall is found
   * backwards or forwards from its start and it is not empty.
   */
  function Anchored(values: seq<int>, cs: int, start: int, end: int): (r: Option<(int, int)>)
    requires ValidChannel(cs) && 0 <= start < |values| && 0 <= end <= |values|
    ensures r.Some? ==> r.value == (start, end) && start < end
  {
    var selected := Search(values, cs, start, 0) >= 0 || Search(values, cs, start, end) >= 0;
    if !selected || start >= end then None else Some((start, end))
  }

  /**
   * The decode window [start, end), or None when the decode is aborted: the
   * cursors first, then the trigger, and otherwise the whole capture from
   * its first CS fall on.
   */
  function DecodeWindow(values: seq<int>, cs: int, m: Markers): (r: Option<(int, int)>)
    requires ValidChannel(cs) && ValidMarkers(values, m)
    ensures r.Some? ==> 0 <= r.value.0 < r.value.1 <= |values|
  {
    if m.cursors.Some? then Anchored(values, cs, m.cursors.value.0, m.cursors.value.1)
    else if m.trigger.Some? then Anchored(values, cs, m.trigger.value, |values|)
    else
      var start := Search(values, cs, 0, |values|);
      if !(start > 0) || start >= |values| then None else Some((start, |values|))
  }

  /** CS falls somewhere in [1, end). */
  predicate FallBefore(values: seq<int>, cs: int, end: int)
    requires ValidChannel(cs) && end <= |values|
  {
    exists j :: 0 < j < end && IsFall(values, cs, j)
  }

  /**
   * A window anchored at a marker is kept exactly when it is not empty and
   * CS falls somewhere before its end: the backward walk covers the falls
   * up to start, the forward walk those after it. Its start is not moved.
   */
  lemma AnchoredWindow(values: seq<int>, cs: int, start: int, end: int)
    requires ValidChannel(cs) && 0 <= start < |values| && 0 <= end <= |values|
    ensures Anchored(values, cs, start, end)
         == if start < end && FallBefore(values, cs, end) then Some((start, end)) else None
  {
    if start < end && FallBefore(values, cs, end) {
      var j :| 0 < j < end && IsFall(values, cs, j);
      if j <= start {
        assert Search(values, cs, start, 0) != -1;
      } else {
        assert Search(values, cs, start, end) != -1;
      }
    } else if start < end {
      assert Search(values, cs, start, 0) == -1;
      assert Search(values, cs, start, end) == -1;
    }
  }

  /**
   * Window priority: the cursors win over the trigger, and the trigger over
   * a scan of the whole capture; only the scan moves the start, to the first
   * CS fall of the capture.
   */
  lemma WindowSelection(values: seq<int>, cs: int, m: Markers)
    requires ValidChannel(cs) && ValidMarkers(values, m)
    ensures m.cursors.Some? ==>
      var cur := m.cursors.value;
      DecodeWindow(values, cs, m)
        == if cur.0 < cur.1 && FallBefore(values, cs, cur.1) then Some(cur) else None
    ensures m.cursors.None? && m.trigger.Some? ==>
      var t := m.trigger.value;
      DecodeWindow(values, cs, m)
        == if t < |values| && FallBefore(values, cs, |values|) then Some((t, |values|)) else None
    ensures m.cursors.None? && m.trigger.None? ==>
      (DecodeWindow(values, cs, m).Some? <==> FallBefore(values, cs, |values|))
    ensures m.cursors.None? && m.trigger.None? && DecodeWindow(values, cs, m).Some? ==>
      var w := DecodeWindow(values, cs, m).value;
      && w.1 == |values| && IsFall(values, cs, w.0)
      && forall j :: 0 < j < w.0 ==> !IsFall(values, cs, j)
  {
    if m.cursors.Some? {
      AnchoredWindow(values, cs, m.cursors.value.0, m.cursors.value.1);
    } else if m.trigger.Some? {
      AnchoredWindow(values, cs, m.trigger.value, |values|);
    } else {
      var start := Search(values, cs, 0, |values|);
      if FallBefore(values, cs, |values|) {
        var j :| 0 < j < |values| && IsFall(values, cs, j);
        assert start != -1;
      }
    }
  }
}
