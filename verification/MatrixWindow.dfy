/** The sliding window behind range selectors.  From one step to the next it keeps the points that are
    still in range, reads only newer samples from a buffered iterator, and reuses histogram objects.
    It is proved to equal the window built afresh at every step. */
module MatrixWindow {
  import opened Basics

  /** Contents of a native histogram: opaque but for its size and the staleness mark in its sum. */
  datatype Histogram = Histogram(id: int, size: nat, stale: bool)

  datatype Stored = StoredFloat(t: int, f: real, stale: bool) | StoredHistogram(t: int, h: Histogram)

  ghost predicate Ascending(s: seq<Stored>) {
    forall i, j :: 0 <= i < j < |s| ==> Earlier(s, i, j)
  }

  /** A predicate of its own, so that the order is used only where it is asked for. */
  ghost predicate Earlier(s: seq<Stored>, i: int, j: int)
    requires 0 <= i < j < |s|
  {
    s[i].t < s[j].t
  }

  lemma AroundSample(s: seq<Stored>, k: int)
    requires Ascending(s)
    ensures 0 <= k < |s| ==> (forall i :: 0 <= i < k ==> s[i].t < s[k].t) && (forall i :: k < i < |s| ==> s[k].t < s[i].t)
  {
    if 0 <= k < |s| {
      forall i | 0 <= i < k ensures s[i].t < s[k].t {
        assert Earlier(s, i, k);
      }
      forall i | k < i < |s| ensures s[k].t < s[i].t {
        assert Earlier(s, k, i);
      }
    }
  }

  // ---------------------------------------------------------------- the fresh window

  ghost predicate AscendingPoints<T>(ps: seq<Point<T>>) {
    forall i, j :: 0 <= i < j < |ps| ==> EarlierPoint(ps, i, j)
  }

  ghost predicate EarlierPoint<T>(ps: seq<Point<T>>, i: int, j: int)
    requires 0 <= i < j < |ps|
  {
    ps[i].t < ps[j].t
  }

  function AsFloat(x: Stored): Option<real> {
    if x.StoredFloat? && !x.stale then Some(x.f) else None
  }

  function AsHistogram(x: Stored): Option<Histogram> {
    if x.StoredHistogram? && !x.h.stale then Some(x.h) else None
  }

  /** The points of one kind among samples i to j. */
  ghost function Select<T>(kind: Stored -> Option<T>, s: seq<Stored>, i: nat, j: nat): (r: seq<Point<T>>)
    requires j <= |s|
    decreases j
  {
    if i >= j then []
    else Select(kind, s, i, j - 1) + Keep(kind, s[j - 1])
  }

  ghost function Keep<T>(kind: Stored -> Option<T>, x: Stored): seq<Point<T>> {
    if kind(x).Some? then [Point(x.t, kind(x).value)] else []
  }

  /** Number of samples at or before t. */
  function UpTo(s: seq<Stored>, t: int): (n: nat)
    requires Ascending(s)
    ensures n <= |s|
  {
    UpToFrom(s, t, |s|)
  }

  function UpToFrom(s: seq<Stored>, t: int, k: nat): (n: nat)
    requires k <= |s|
    ensures n <= k
  {
    if k == 0 || s[k - 1].t <= t then k else UpToFrom(s, t, k - 1)
  }

  lemma {:induction false} UpToFromSplits(s: seq<Stored>, t: int, k: nat)
    requires Ascending(s) && k <= |s| && forall i :: k <= i < |s| ==> s[i].t > t
    ensures
      var n := UpToFrom(s, t, k);
      (forall i :: 0 <= i < n ==> s[i].t <= t) && (forall i :: n <= i < |s| ==> s[i].t > t)
  {
    if k > 0 && s[k - 1].t > t {
      UpToFromSplits(s, t, k - 1);
    } else {
      AroundSample(s, k - 1);
    }
  }

  lemma UpToSplits(s: seq<Stored>, t: int)
    requires Ascending(s)
    ensures (forall i :: 0 <= i < UpTo(s, t) ==> s[i].t <= t) && (forall i :: UpTo(s, t) <= i < |s| ==> s[i].t > t)
  {
    UpToFromSplits(s, t, |s|);
  }

  lemma UpToUnique(s: seq<Stored>, t: int, n: nat)
    requires Ascending(s) && n <= |s|
    requires (forall i :: 0 <= i < n ==> s[i].t <= t) && (forall i :: n <= i < |s| ==> s[i].t > t)
    ensures n == UpTo(s, t)
  {
    UpToSplits(s, t);
    var m := UpTo(s, t);
    var k := if m < n then m else n;
    assert k < |s| ==> (s[k].t <= t <==> k < n) && (s[k].t <= t <==> k < m);
  }

  /** The non-stale points of one kind with mint < t <= maxt. */
  ghost function Fresh<T>(kind: Stored -> Option<T>, s: seq<Stored>, mint: int, maxt: int): seq<Point<T>>
    requires Ascending(s)
  {
    Select(kind, s, UpTo(s, mint), UpTo(s, maxt))
  }

  /** The points of a selection lie between the times of its first and last sample. */
  lemma {:induction false} SelectTimes<T>(kind: Stored -> Option<T>, s: seq<Stored>, i: nat, j: nat)
    requires Ascending(s) && j <= |s|
    ensures |Select(kind, s, i, j)| > 0 ==> i < j
    ensures i < j ==> TimesWithin(Select(kind, s, i, j), s[i].t, s[j - 1].t)
    decreases j
  {
    if i < j {
      var before, x := Select(kind, s, i, j - 1), s[j - 1];
      SelectTimes(kind, s, i, j - 1);
      if i < j - 1 {
        assert Earlier(s, j - 2, j - 1) && (i < j - 2 ==> Earlier(s, i, j - 2));
        TimesAppend(before, Keep(kind, x), s[i].t, s[j - 2].t, x.t);
      }
    }
  }

  ghost predicate TimesWithin<T>(ps: seq<Point<T>>, a: int, b: int) {
    AscendingPoints(ps) && forall k :: 0 <= k < |ps| ==> a <= ps[k].t <= b
  }

  lemma TimesAppend<T>(ps: seq<Point<T>>, last: seq<Point<T>>, a: int, b: int, t: int)
    requires TimesWithin(ps, a, b) && a <= b < t && |last| <= 1 && (|last| == 1 ==> last[0].t == t)
    ensures TimesWithin(ps + last, a, t)
  {
    var all := ps + last;
    forall i, j | 0 <= i < j < |all| ensures EarlierPoint(all, i, j) {
      if j < |ps| {
        assert EarlierPoint(ps, i, j);
      }
    }
  }

  /** There is a last point, and it is not before t. */
  ghost predicate LastFrom<T>(ps: seq<Point<T>>, t: int) {
    |ps| > 0 && t <= ps[|ps| - 1].t
  }

  lemma LastAppend<T>(ps: seq<Point<T>>, last: seq<Point<T>>, t: int)
    requires |last| > 0 ==> LastFrom(last, t)
    requires |last| == 0 ==> LastFrom(ps, t)
    ensures LastFrom(ps + last, t)
  {
    if |last| == 0 {
      assert ps + last == ps;
    }
  }

  /** A sample of the kind is not later than the last point. */
  lemma {:induction false} SelectLast<T>(kind: Stored -> Option<T>, s: seq<Stored>, i: nat, j: nat, n: nat)
    requires Ascending(s) && i <= n < j <= |s| && kind(s[n]).Some?
    ensures LastFrom(Select(kind, s, i, j), s[n].t)
    decreases j
  {
    if n < j - 1 {
      assert Earlier(s, n, j - 1);
      SelectLast(kind, s, i, j - 1, n);
    }
    LastAppend(Select(kind, s, i, j - 1), Keep(kind, s[j - 1]), s[n].t);
  }

  lemma {:induction false} SelectSplit<T>(kind: Stored -> Option<T>, s: seq<Stored>, i: nat, m: nat, j: nat)
    requires i <= m <= j <= |s|
    ensures Select(kind, s, i, j) == Select(kind, s, i, m) + Select(kind, s, m, j)
    decreases j
  {
    if m < j {
      SelectSplit(kind, s, i, m, j - 1);
    }
  }

  /** A fresh window holds a sample exactly when it is of the kind and in (mint, maxt]. */
  lemma FreshHolds<T>(kind: Stored -> Option<T>, s: seq<Stored>, mint: int, maxt: int, x: Point<T>)
    requires Ascending(s)
    ensures x in Fresh(kind, s, mint, maxt) <==>
      exists n :: 0 <= n < |s| && mint < s[n].t <= maxt && kind(s[n]) == Some(x.v) && s[n].t == x.t
  {
    var i, j := UpTo(s, mint), UpTo(s, maxt);
    UpToSplits(s, mint);
    UpToSplits(s, maxt);
    SelectHolds(kind, s, i, j, x);
    if exists n :: 0 <= n < |s| && mint < s[n].t <= maxt && kind(s[n]) == Some(x.v) && s[n].t == x.t {
      var n :| 0 <= n < |s| && mint < s[n].t <= maxt && kind(s[n]) == Some(x.v) && s[n].t == x.t;
      assert i <= n < j && Shows(kind, s, n, x);
    }
    if exists n :: i <= n < j && Shows(kind, s, n, x) {
      var n :| i <= n < j && Shows(kind, s, n, x);
      assert mint < s[n].t <= maxt;
    }
  }

  /** The sample n of s is the point x of the kind. */
  ghost predicate Shows<T>(kind: Stored -> Option<T>, s: seq<Stored>, n: int, x: Point<T>) {
    0 <= n < |s| && kind(s[n]) == Some(x.v) && s[n].t == x.t
  }

  lemma {:induction false} SelectHolds<T>(kind: Stored -> Option<T>, s: seq<Stored>, i: nat, j: nat, x: Point<T>)
    requires j <= |s|
    ensures x in Select(kind, s, i, j) <==> exists n :: i <= n < j && Shows(kind, s, n, x)
    decreases j
  {
    if i < j {
      SelectHolds(kind, s, i, j - 1, x);
      assert Select(kind, s, i, j) == Select(kind, s, i, j - 1) + Keep(kind, s[j - 1]);
      assert x in Keep(kind, s[j - 1]) <==> Shows(kind, s, j - 1, x);
    }
  }

  lemma LastBounds<T>(ps: seq<Point<T>>, mint: int)
    requires |ps| > 0 ==> ps[|ps| - 1].t <= mint
    ensures AscendingPoints(ps) ==> AllUpTo(ps, mint)
  {
    if AscendingPoints(ps) {
      forall k | 0 <= k < |ps| ensures ps[k].t <= mint {
        assert k < |ps| - 1 ==> EarlierPoint(ps, k, |ps| - 1);
      }
    }
  }

  /** Where the points at or before mint end. */
  ghost predicate Boundary<T>(ps: seq<Point<T>>, mint: int, drop: nat) {
    && drop <= |ps|
    && (forall k :: 0 <= k < drop ==> ps[k].t <= mint)
    && (drop < |ps| ==> ps[drop].t > mint)
  }

  ghost predicate AllUpTo<T>(ps: seq<Point<T>>, t: int) {
    forall k :: 0 <= k < |ps| ==> ps[k].t <= t
  }

  ghost predicate AllAfter<T>(ps: seq<Point<T>>, t: int) {
    forall k :: 0 <= k < |ps| ==> ps[k].t > t
  }

  lemma BoundaryBetween<T>(front: seq<Point<T>>, back: seq<Point<T>>, mint: int, drop: nat)
    requires AllUpTo(front, mint) && AllAfter(back, mint)
    requires Boundary(front + back, mint, drop)
    ensures (front + back)[drop..] == back
  {
    var ps := front + back;
    assert forall k :: 0 <= k < |front| ==> ps[k] == front[k];
    assert forall k :: |front| <= k < |ps| ==> ps[k] == back[k - |front|];
    if |back| > 0 {
      assert ps[|front|] == back[0];
    }
    assert drop >= |front|;
  }

  lemma SelectSides<T>(kind: Stored -> Option<T>, s: seq<Stored>, i: nat, j: nat, mint: int)
    requires Ascending(s) && j <= |s|
    ensures j <= UpTo(s, mint) ==> AllUpTo(Select(kind, s, i, j), mint)
    ensures i >= UpTo(s, mint) ==> AllAfter(Select(kind, s, i, j), mint)
  {
    UpToSplits(s, mint);
    SelectTimes(kind, s, i, j);
  }

  /** Dropping the points at or before mint leaves the points from sample p on, where p counts the
      samples up to mint. */
  lemma DropIsSplit<T>(kind: Stored -> Option<T>, s: seq<Stored>, p0: nat, p: nat, q0: nat, mint: int, drop: nat)
    requires Ascending(s) && p0 <= p && q0 <= |s| && p == UpTo(s, mint)
    requires Boundary(Select(kind, s, p0, q0), mint, drop)
    ensures Select(kind, s, p0, q0)[drop..] == Select(kind, s, p, q0)
  {
    if p <= q0 {
      SelectSides(kind, s, p0, p, mint);
      SelectSides(kind, s, p, q0, mint);
      SelectSplit(kind, s, p0, p, q0);
      BoundaryBetween(Select(kind, s, p0, p), Select(kind, s, p, q0), mint, drop);
    } else {
      SelectSides(kind, s, p0, q0, mint);
    }
  }

  /** Every sample of the kind counted by m is at or before t; every other sample is after it. */
  ghost predicate Cut<T>(kind: Stored -> Option<T>, s: seq<Stored>, m: nat, t: int) {
    && m <= |s|
    && (forall n :: 0 <= n < m && kind(s[n]).Some? ==> s[n].t <= t)
    && (forall n :: m <= n < |s| ==> s[n].t > t)
  }

  /** The time after which samples have to be appended: that of the last retained point, or mint. */
  ghost function CutTime<T>(ps: seq<Point<T>>, mint: int): int {
    if |ps| > 0 then ps[|ps| - 1].t else mint
  }

  lemma CutAfterRetained<T>(kind: Stored -> Option<T>, s: seq<Stored>, p: nat, q0: nat, mint: int)
    requires Ascending(s) && q0 <= |s| && p == UpTo(s, mint)
    ensures Cut(kind, s, Max(p, q0), CutTime(Select(kind, s, p, q0), mint))
  {
    SelectTimes(kind, s, p, q0);
    AroundSample(s, q0 - 1);
    UpToSplits(s, mint);
    forall n | p <= n < q0 && kind(s[n]).Some?
      ensures s[n].t <= CutTime(Select(kind, s, p, q0), mint)
    {
      SelectLast(kind, s, p, q0, n);
    }
  }

  lemma RetainedPart<T>(kind: Stored -> Option<T>, s: seq<Stored>, p0: nat, q0: nat, ps: seq<Point<T>>, mint: int, drop: nat)
    requires Ascending(s) && p0 <= UpTo(s, mint) && q0 <= |s| && ps == Select(kind, s, p0, q0) && drop <= |ps|
    requires AscendingPoints(ps) ==> Boundary(ps, mint, drop)
    ensures ps[drop..] == Select(kind, s, UpTo(s, mint), q0)
    ensures Cut(kind, s, Max(UpTo(s, mint), q0), CutTime(ps[drop..], mint))
  {
    SelectTimes(kind, s, p0, q0);
    DropIsSplit(kind, s, p0, UpTo(s, mint), q0, mint, drop);
    CutAfterRetained(kind, s, UpTo(s, mint), q0, mint);
  }

  /** Looking at sample j: it has to be appended exactly when it is after the cut. */
  lemma TakeStep<T>(kind: Stored -> Option<T>, s: seq<Stored>, p: nat, m: nat, cut: int, j: nat)
    requires Cut(kind, s, m, cut) && p <= m && j < |s|
    ensures Select(kind, s, p, Max(m, j + 1)) ==
      Select(kind, s, p, Max(m, j)) + (if s[j].t > cut then Keep(kind, s[j]) else [])
  {
  }

  // ---------------------------------------------------------------- sizes

  /** Size of the first n points. */
  ghost function SizeTo(ps: seq<Point<Histogram>>, n: nat): nat
    requires n <= |ps|
  {
    if n == 0 then 0 else SizeTo(ps, n - 1) + ps[n - 1].v.size
  }

  ghost function TotalSize(ps: seq<Point<Histogram>>): nat {
    SizeTo(ps, |ps|)
  }

  lemma {:induction false} SizeAfterDrop(ps: seq<Point<Histogram>>, drop: nat, n: nat)
    requires drop + n <= |ps|
    ensures SizeTo(ps[drop..], n) == SizeTo(ps, drop + n) - SizeTo(ps, drop)
  {
    if n > 0 {
      SizeAfterDrop(ps, drop, n - 1);
    }
  }

  lemma {:induction false} SizeOfPrefix(ps: seq<Point<Histogram>>, x: Point<Histogram>, n: nat)
    requires n <= |ps|
    ensures SizeTo(ps + [x], n) == SizeTo(ps, n)
  {
    if n > 0 {
      SizeOfPrefix(ps, x, n - 1);
    }
  }

  lemma SizeAppend(ps: seq<Point<Histogram>>, x: Point<Histogram>)
    ensures TotalSize(ps + [x]) == TotalSize(ps) + x.v.size
  {
    SizeOfPrefix(ps, x, |ps|);
  }

  // ---------------------------------------------------------------- the reused window

  class FloatHistogram {
    var value: Histogram

    constructor (h: Histogram)
      ensures value == h
    {
      value := h;
    }
  }

  /** A slot of the histogram slice; the slots past the length keep their objects for later use. */
  datatype Slot = Slot(t: int, h: FloatHistogram?)

  /** Number of leading elements at or before mint. */
  method DropCount<P>(ps: seq<P>, time: P -> int, mint: int) returns (drop: nat)
    requires |ps| > 0 && time(ps[|ps| - 1]) > mint
    ensures drop < |ps| && time(ps[drop]) > mint && forall k :: 0 <= k < drop ==> time(ps[k]) <= mint
  {
    drop := 0;
    while time(ps[drop]) <= mint
      invariant drop < |ps| && forall k :: 0 <= k < drop ==> time(ps[k]) <= mint
      decreases |ps| - drop
    {
      drop := drop + 1;
    }
  }

  ghost predicate Distinct(slots: seq<Slot>) {
    forall i, j :: 0 <= i < j < |slots| ==> Apart(slots, i, j)
  }

  ghost predicate Apart(slots: seq<Slot>, i: int, j: int)
    requires 0 <= i < j < |slots|
  {
    slots[i].h != null ==> slots[i].h != slots[j].h
  }

  lemma AroundSlot(slots: seq<Slot>, k: nat)
    requires Distinct(slots) && k < |slots| && slots[k].h != null
    ensures forall i :: 0 <= i < |slots| && i != k ==> slots[i].h != slots[k].h
  {
    forall i | 0 <= i < |slots| && i != k ensures slots[i].h != slots[k].h {
      assert if i < k then Apart(slots, i, k) else Apart(slots, k, i);
    }
  }

  lemma RotationKeepsDistinct(slots: seq<Slot>, drop: nat, len: nat)
    requires drop <= len <= |slots| && Distinct(slots)
    ensures Distinct(slots[drop..len] + slots[..drop] + slots[len..])
  {
    var rotated := slots[drop..len] + slots[..drop] + slots[len..];
    assert forall i :: 0 <= i < |slots| ==> rotated[i] == slots[Rotated(drop, len, i)];
    forall i, j | 0 <= i < j < |slots| ensures Apart(rotated, i, j) {
      var a, b := Rotated(drop, len, i), Rotated(drop, len, j);
      assert if a < b then Apart(slots, a, b) else Apart(slots, b, a);
    }
  }

  /** Where the slot at index i comes from. */
  ghost function Rotated(drop: nat, len: nat, i: nat): nat
    requires drop <= len
  {
    if i < len - drop then i + drop else if i < len then i - (len - drop) else i
  }

  class Window {
    var floats: seq<Point<real>>
    var slots: seq<Slot>
    var hlen: nat
    /** Samples held by the whole evaluation. */
    var currentSamples: int
    /** The points in the slice of histograms. */
    ghost var histograms: seq<Point<Histogram>>
    /** The histogram objects of the slots. */
    ghost var repr: set<FloatHistogram>

    /** The histogram objects are all distinct, so writing one slot changes no other. */
    ghost predicate Valid()
      reads this, repr
    {
      && hlen == |histograms| <= |slots|
      && Distinct(slots)
      && (forall i :: 0 <= i < |slots| && slots[i].h != null ==> slots[i].h in repr)
      && forall i :: 0 <= i < hlen ==>
        slots[i].h != null && slots[i].t == histograms[i].t && slots[i].h.value == histograms[i].v
    }

    constructor (current: int)
      ensures Valid() && floats == [] && slots == [] && histograms == [] && currentSamples == current && repr == {}
    {
      floats, slots, hlen, currentSamples, histograms, repr := [], [], 0, current, [], {};
    }

    /** Drop the floats at or before mint. */
    method DropFloats(mint: int) returns (cut: int, ghost drop: nat)
      modifies this`floats, this`currentSamples
      ensures AscendingPoints(old(floats)) ==> Boundary(old(floats), mint, drop)
      ensures drop <= |old(floats)| && floats == old(floats)[drop..]
      ensures cut == CutTime(floats, mint)
      ensures currentSamples - |floats| == old(currentSamples - |floats|) && currentSamples <= old(currentSamples)
    {
      if |floats| > 0 && floats[|floats| - 1].t > mint {
        var n := DropCount(floats, (p: Point<real>) => p.t, mint);
        drop := n;
        currentSamples := currentSamples - n;
        floats := floats[n..];
        cut := floats[|floats| - 1].t;
      } else {
        drop := |floats|;
        LastBounds(floats, mint);
        currentSamples := currentSamples - |floats|;
        floats := [];
        cut := mint;
      }
    }

    method TotalHPointSize(n: nat) returns (total: nat)
      requires Valid() && n <= hlen
      ensures total == SizeTo(histograms, n)
    {
      total := 0;
      for i := 0 to n
        invariant total == SizeTo(histograms, i)
      {
        total := total + slots[i].h.value.size;
      }
    }

    /** Drop the histograms at or before mint. */
    method DropHistograms(mint: int) returns (cut: int, ghost drop: nat)
      requires Valid()
      modifies this`slots, this`hlen, this`histograms, this`currentSamples
      ensures Valid() && repr == old(repr)
      ensures AscendingPoints(old(histograms)) ==> Boundary(old(histograms), mint, drop)
      ensures drop <= |old(histograms)| && histograms == old(histograms)[drop..]
      ensures cut == CutTime(histograms, mint)
      ensures currentSamples - TotalSize(histograms) == old(currentSamples - TotalSize(histograms))
      ensures currentSamples <= old(currentSamples)
    {
      if hlen > 0 && slots[hlen - 1].t > mint {
        var n := FindDrop(mint);
        drop := n;
        cut := DropFirst(n);
      } else {
        drop := hlen;
        LastBounds(histograms, mint);
        ClearHistograms();
        cut := mint;
      }
    }

    /** Drop the first n histograms, of which there are more. */
    method DropFirst(n: nat) returns (last: int)
      requires Valid() && n < hlen
      modifies this`slots, this`hlen, this`histograms, this`currentSamples
      ensures Valid() && repr == old(repr)
      ensures histograms == old(histograms)[n..] && last == histograms[|histograms| - 1].t
      ensures currentSamples - TotalSize(histograms) == old(currentSamples - TotalSize(histograms))
      ensures currentSamples <= old(currentSamples)
    {
      SizeAfterDrop(histograms, n, hlen - n);
      var dropped := TotalHPointSize(n);
      last := slots[hlen - 1].t;
      Rotate(n);
      currentSamples := currentSamples - dropped;
    }

    method ClearHistograms()
      requires Valid()
      modifies this`hlen, this`histograms, this`currentSamples
      ensures Valid() && histograms == [] && currentSamples == old(currentSamples - TotalSize(histograms))
    {
      var dropped := TotalHPointSize(hlen);
      currentSamples := currentSamples - dropped;
      hlen, histograms := 0, [];
    }

    method FindDrop(mint: int) returns (drop: nat)
      requires Valid() && hlen > 0 && slots[hlen - 1].t > mint
      ensures drop < hlen && Boundary(histograms, mint, drop)
    {
      drop := DropCount(slots[..hlen], (x: Slot) => x.t, mint);
      assert forall k :: 0 <= k <= drop ==> histograms[k].t == slots[..hlen][k].t;
    }

    /** Rotate the slice around the drop index, so that the objects of the dropped points come behind
        the retained ones and can be filled again. */
    method Rotate(drop: nat)
      requires Valid() && drop <= hlen
      modifies this`slots, this`hlen, this`histograms
      ensures Valid() && repr == old(repr)
      ensures histograms == old(histograms)[drop..]
    {
      RotationKeepsDistinct(slots, drop, hlen);
      var tail := slots[..drop];
      slots := slots[drop..hlen] + tail + slots[hlen..];
      hlen := hlen - drop;
      histograms := histograms[drop..];
    }

    /** Lengthen the slice by one and copy a histogram into the object of the new last slot; a slot
        without object gets one, and a full slice grows, by any amount. */
    method Fill(t: int, h: Histogram, spare: nat)
      requires Valid()
      modifies this`slots, this`hlen, this`histograms, this`repr, repr
      ensures Valid() && fresh(repr - old(repr))
      ensures histograms == old(histograms) + [Point(t, h)]
    {
      if hlen == |slots| {
        Grow(spare);
      }
      ghost var was := slots;
      var obj := slots[hlen].h;
      if obj == null {
        obj := new FloatHistogram(h);
        repr := repr + {obj};
      } else {
        AroundSlot(slots, hlen);
        obj.value := h;
      }
      slots := slots[hlen := Slot(t, obj)];
      forall i, j | 0 <= i < j < |slots| ensures Apart(slots, i, j) {
        assert Apart(was, i, j);
      }
      hlen := hlen + 1;
      histograms := histograms + [Point(t, h)];
    }

    /** Append reallocates: the new slots have no object yet. */
    method Grow(spare: nat)
      requires Valid()
      modifies this`slots
      ensures Valid() && repr == old(repr) && |slots| == old(|slots|) + 1 + spare
    {
      ghost var was := slots;
      var more := seq(1 + spare, _ => Slot(0, null));
      slots := slots + more;
      forall i, j | 0 <= i < j < |slots| ensures Apart(slots, i, j) {
        assert j < |was| ==> Apart(was, i, j);
      }
    }

    /** Add a sample unless it is a staleness mark; a stale histogram is noticed only after its slot
        has been filled, and the slice is shortened again.  Too many samples abort the query. */
    method Append(x: Stored, maxSamples: int, spare: nat) returns (ok: bool)
      requires Valid()
      modifies this, repr
      ensures Valid() && fresh(repr - old(repr))
      ensures floats == old(floats) + Keep(AsFloat, x)
      ensures histograms == old(histograms) + Keep(AsHistogram, x)
      ensures Elsewhere() == old(Elsewhere())
      ensures ok ==> currentSamples <= Max(old(currentSamples), maxSamples)
      ensures !ok ==> currentSamples > maxSamples
    {
      ok := true;
      match x
      case StoredFloat(t, f, stale) =>
        if !stale {
          currentSamples := currentSamples + 1;
          floats := floats + [Point(t, f)];
          ok := currentSamples <= maxSamples;
        }
      case StoredHistogram(t, h) =>
        Fill(t, h, spare);
        if h.stale {
          hlen := hlen - 1;
          histograms := histograms[..hlen];
        } else {
          SizeAppend(old(histograms), Point(t, h));
          currentSamples := currentSamples + slots[hlen - 1].h.value.size;
          ok := currentSamples <= maxSamples;
        }
    }

    /** Append a sample if it is after the cut of its kind. */
    method TakeOne(x: Stored, cutFloats: int, cutHistograms: int, maxSamples: int, spare: nat) returns (ok: bool)
      requires Valid()
      modifies this, repr
      ensures Valid() && fresh(repr - old(repr))
      ensures floats == old(floats) + (if x.t > cutFloats then Keep(AsFloat, x) else [])
      ensures histograms == old(histograms) + (if x.t > cutHistograms then Keep(AsHistogram, x) else [])
      ensures Elsewhere() == old(Elsewhere())
      ensures ok ==> currentSamples <= Max(old(currentSamples), maxSamples)
      ensures !ok ==> currentSamples > maxSamples
    {
      ok := true;
      if x.t > (if x.StoredFloat? then cutFloats else cutHistograms) {
        ok := Append(x, maxSamples, spare);
      }
    }

    /** The window holds the points among samples i to j. */
    ghost predicate Holds(s: seq<Stored>, i: nat, j: nat)
      requires j <= |s|
      reads this
    {
      floats == Select(AsFloat, s, i, j) && histograms == Select(AsHistogram, s, i, j)
    }

    /** Samples held by the evaluation outside this window. */
    ghost function Elsewhere(): int
      reads this
    {
      currentSamples - |floats| - TotalSize(histograms)
    }

    /** Keep what of a window over samples p0 to q0 is after mint. */
    method Retain(mint: int, ghost s: seq<Stored>, ghost p0: nat, ghost q0: nat) returns (cutFloats: int, cutHistograms: int)
      requires Valid() && Ascending(s) && q0 <= |s| && p0 <= UpTo(s, mint) && Holds(s, p0, q0)
      modifies this
      ensures Valid() && repr == old(repr)
      ensures Holds(s, UpTo(s, mint), q0) && Elsewhere() == old(Elsewhere())
      ensures currentSamples <= old(currentSamples)
      ensures Cut(AsFloat, s, Max(UpTo(s, mint), q0), cutFloats)
      ensures Cut(AsHistogram, s, Max(UpTo(s, mint), q0), cutHistograms)
    {
      ghost var dropFloats: nat, dropHistograms: nat;
      cutFloats, dropFloats := DropFloats(mint);
      RetainedPart(AsFloat, s, p0, q0, old(floats), mint, dropFloats);
      cutHistograms, dropHistograms := DropHistograms(mint);
      RetainedPart(AsHistogram, s, p0, q0, old(histograms), mint, dropHistograms);
    }

    /** Empty the window for the next series, keeping its slots. */
    method Reset()
      requires Valid()
      modifies this
      ensures Valid() && floats == [] && histograms == []
      ensures repr == old(repr) && Elsewhere() == old(Elsewhere())
    {
      currentSamples := currentSamples - |floats|;
      floats := [];
      ClearHistograms();
    }
  }

  // ---------------------------------------------------------------- the buffered iterator

  /** Forward iterator over the samples of a series that remembers those within delta before its
      current element: the ring holds samples[lo..pos]. */
  class BufferedSeriesIterator {
    const samples: seq<Stored>
    var pos: nat
    var lo: nat
    var delta: nat
    var lastTime: Option<int>
    /** Latest time that was sought. */
    ghost var sought: Option<int>

    ghost predicate Valid()
      reads this
    {
      && Ascending(samples)
      && lo <= pos <= |samples|
      && (lastTime.None? ==> pos == 0 || pos == |samples|)
      && (lastTime.Some? && pos < |samples| ==> lastTime.value == samples[pos].t)
      && (sought.None? ==> pos == 0)
      && (sought.Some? ==> forall i :: 0 <= i < pos ==> samples[i].t < sought.value)
      && (sought.Some? ==> forall i :: 0 <= i < lo ==> samples[i].t < sought.value - delta)
    }

    constructor (s: seq<Stored>, d: nat)
      requires Ascending(s)
      ensures Valid() && samples == s && delta == d && sought == None
    {
      samples, pos, lo, delta, lastTime, sought := s, 0, 0, d, None, None;
    }

    /** Move to the first sample at or after t, with every earlier sample of the last delta buffered. */
    method Seek(t: int)
      requires Valid() && (sought.Some? ==> sought.value <= t)
      modifies this`pos, this`lo, this`lastTime, this`sought
      ensures Valid() && sought == Some(t)
      ensures forall i :: pos <= i < |samples| ==> samples[i].t >= t
    {
      var t0 := t - delta;
      sought := Some(t);
      AroundSample(samples, pos);
      if pos < |samples| && (lastTime.None? || t0 > lastTime.value) {
        SkipTo(t0);
        lo := pos;
        if pos == |samples| {
          return;
        }
        lastTime := Some(samples[pos].t);
      }
      if lastTime.Some? && lastTime.value >= t {
        AroundSample(samples, pos);
        return;
      }
      NextUntil(t);
    }

    method NextUntil(t: int)
      requires Valid() && sought == Some(t)
      modifies this`pos, this`lo, this`lastTime
      ensures Valid() && forall i :: pos <= i < |samples| ==> samples[i].t >= t
    {
      while pos < |samples| && samples[pos].t < t
        invariant Valid()
        decreases |samples| - pos
      {
        Next();
      }
      AroundSample(samples, pos);
    }

    /** The underlying iterator's own forward seek. */
    method SkipTo(t0: int)
      requires lo <= pos <= |samples| && forall i :: 0 <= i < pos ==> samples[i].t < t0
      modifies this`pos
      ensures old(pos) <= pos <= |samples|
      ensures forall i :: 0 <= i < pos ==> samples[i].t < t0
      ensures pos < |samples| ==> samples[pos].t >= t0
    {
      while pos < |samples| && samples[pos].t < t0
        invariant old(pos) <= pos <= |samples|
        invariant forall i :: 0 <= i < pos ==> samples[i].t < t0
      {
        pos := pos + 1;
      }
    }

    method Next()
      requires Valid() && pos < |samples| && sought.Some? && samples[pos].t < sought.value
      modifies this`pos, this`lo, this`lastTime
      ensures Valid() && pos == old(pos) + 1
    {
      TrimBefore(samples[pos].t - delta, pos);
      pos := pos + 1;
      lastTime := Some(if pos < |samples| then samples[pos].t else samples[pos - 1].t);
    }

    /** Free the head of the buffer of samples before tmin; sample last is kept. */
    method TrimBefore(tmin: int, last: nat)
      requires lo <= last < |samples| && samples[last].t >= tmin
      modifies this`lo
      ensures old(lo) <= lo <= last && forall i :: old(lo) <= i < lo ==> samples[i].t < tmin
    {
      while samples[lo].t < tmin
        invariant old(lo) <= lo <= last && forall i :: old(lo) <= i < lo ==> samples[i].t < tmin
        decreases last - lo
      {
        lo := lo + 1;
      }
    }

    method ReduceDelta(d: nat)
      requires Valid()
      modifies this`lo, this`delta
      ensures Valid() && delta == Min(old(delta), d)
    {
      if d > delta {
        return;
      }
      delta := d;
      if lo < pos {
        TrimBefore(samples[pos - 1].t - delta, pos - 1);
      }
    }
  }

  // ---------------------------------------------------------------- one step, and all steps

  lemma {:induction false} SizeSplit(a: seq<Point<Histogram>>, b: seq<Point<Histogram>>)
    ensures TotalSize(a + b) == TotalSize(a) + TotalSize(b)
    decreases |b|
  {
    if |b| == 0 {
      assert a + b == a;
    } else {
      var front := b[..|b| - 1];
      SizeSplit(a, front);
      SizeAppend(a + front, b[|b| - 1]);
      SizeAppend(front, b[|b| - 1]);
      assert a + b == a + front + [b[|b| - 1]] && b == front + [b[|b| - 1]];
    }
  }

  /** Size of the window over samples i to j. */
  ghost function SelectSize(s: seq<Stored>, i: nat, j: nat): nat
    requires j <= |s|
  {
    |Select(AsFloat, s, i, j)| + TotalSize(Select(AsHistogram, s, i, j))
  }

  lemma SelectSizeGrows(s: seq<Stored>, i: nat, m: nat, j: nat)
    requires m <= j <= |s|
    ensures SelectSize(s, i, m) <= SelectSize(s, i, j)
  {
    if i <= m {
      SelectSplit(AsFloat, s, i, m, j);
      SelectSplit(AsHistogram, s, i, m, j);
      SizeSplit(Select(AsHistogram, s, i, m), Select(AsHistogram, s, m, j));
    }
  }

  /** Every sample that has still to be appended is within delta before maxt. */
  ghost predicate Buffered(s: seq<Stored>, m: nat, maxt: int, delta: nat) {
    forall n :: m <= n < |s| ==> s[n].t >= maxt - delta
  }

  /** Append sample j if it is after the cut of its kind. */
  method TakeAt(samples: seq<Stored>, w: Window, j: nat, ghost hi: nat, cutFloats: int, cutHistograms: int,
                maxSamples: int, spare: nat, ghost p: nat, ghost m: nat)
    returns (ok: bool)
    requires j < hi <= |samples| && w.Valid() && p <= m
    requires Cut(AsFloat, samples, m, cutFloats) && Cut(AsHistogram, samples, m, cutHistograms)
    requires w.Holds(samples, p, Max(m, j))
    modifies w, w.repr
    ensures w.Valid() && fresh(w.repr - old(w.repr)) && w.Elsewhere() == old(w.Elsewhere())
    ensures w.Holds(samples, p, Max(m, j + 1))
    ensures ok ==> w.currentSamples <= Max(old(w.currentSamples), maxSamples)
    ensures !ok ==> w.Elsewhere() + SelectSize(samples, p, Max(m, hi)) > maxSamples
  {
    TakeStep(AsFloat, samples, p, m, cutFloats, j);
    TakeStep(AsHistogram, samples, p, m, cutHistograms, j);
    ok := w.TakeOne(samples[j], cutFloats, cutHistograms, maxSamples, spare);
    SelectSizeGrows(samples, p, Max(m, j + 1), Max(m, hi));
  }

  /** Append the samples lo to hi that are after the cuts. */
  method Take(samples: seq<Stored>, w: Window, lo: nat, hi: nat, cutFloats: int, cutHistograms: int,
              maxSamples: int, spare: nat, ghost p: nat, ghost m: nat)
    returns (ok: bool)
    requires lo <= hi <= |samples| && w.Valid() && p <= m && lo <= m
    requires Cut(AsFloat, samples, m, cutFloats) && Cut(AsHistogram, samples, m, cutHistograms)
    requires w.Holds(samples, p, m)
    modifies w, w.repr
    ensures w.Valid() && fresh(w.repr - old(w.repr)) && w.Elsewhere() == old(w.Elsewhere())
    ensures ok ==> w.Holds(samples, p, Max(m, hi)) && w.currentSamples <= Max(old(w.currentSamples), maxSamples)
    ensures !ok ==> w.Elsewhere() + SelectSize(samples, p, Max(m, hi)) > maxSamples
  {
    for j := lo to hi
      invariant w.Valid() && fresh(w.repr - old(w.repr)) && w.Elsewhere() == old(w.Elsewhere())
      invariant w.Holds(samples, p, Max(m, j)) && w.currentSamples <= Max(old(w.currentSamples), maxSamples)
    {
      ok := TakeAt(samples, w, j, hi, cutFloats, cutHistograms, maxSamples, spare, p, m);
      if !ok {
        return;
      }
    }
    ok := true;
  }

  /** Append the buffered samples, then the sample sought. */
  method TakeNew(samples: seq<Stored>, w: Window, lo: nat, pos: nat, maxt: int, cutFloats: int, cutHistograms: int,
                 maxSamples: int, spare: nat, ghost p: nat, ghost m: nat)
    returns (ok: bool)
    requires Ascending(samples) && pos == UpTo(samples, maxt - 1) && p <= m <= pos && lo <= m
    requires w.Valid() && w.Holds(samples, p, m)
    requires Cut(AsFloat, samples, m, cutFloats) && Cut(AsHistogram, samples, m, cutHistograms)
    modifies w, w.repr
    ensures w.Valid() && fresh(w.repr - old(w.repr)) && w.Elsewhere() == old(w.Elsewhere())
    ensures ok ==> w.Holds(samples, p, UpTo(samples, maxt))
    ensures ok ==> w.currentSamples <= Max(old(w.currentSamples), maxSamples)
    ensures !ok ==> w.Elsewhere() + SelectSize(samples, p, UpTo(samples, maxt)) > maxSamples
  {
    UpToGrows(samples, maxt - 1, maxt);
    SelectSizeGrows(samples, p, pos, UpTo(samples, maxt));
    ok := Take(samples, w, lo, pos, cutFloats, cutHistograms, maxSamples, spare, p, m);
    if ok {
      ok := TakeSought(samples, w, pos, maxt, maxSamples, spare, p);
    }
  }

  /** The sample sought might also be in the range. */
  method TakeSought(samples: seq<Stored>, w: Window, pos: nat, maxt: int, maxSamples: int, spare: nat, ghost p: nat)
    returns (ok: bool)
    requires Ascending(samples) && pos == UpTo(samples, maxt - 1) && p <= pos
    requires w.Valid() && w.Holds(samples, p, pos)
    modifies w, w.repr
    ensures w.Valid() && fresh(w.repr - old(w.repr)) && w.Elsewhere() == old(w.Elsewhere())
    ensures w.Holds(samples, p, UpTo(samples, maxt))
    ensures ok ==> w.currentSamples <= Max(old(w.currentSamples), maxSamples)
    ensures !ok ==> w.currentSamples > maxSamples
  {
    SoughtStep(AsFloat, samples, p, maxt);
    SoughtStep(AsHistogram, samples, p, maxt);
    ok := true;
    if pos < |samples| && samples[pos].t == maxt {
      ok := w.Append(samples[pos], maxSamples, spare);
    }
  }

  lemma NextOne(s: seq<Stored>, t: int)
    requires Ascending(s)
    ensures
      var n := UpTo(s, t - 1);
      UpTo(s, t) == if n < |s| && s[n].t == t then n + 1 else n
  {
    var n := UpTo(s, t - 1);
    UpToSplits(s, t - 1);
    AroundSample(s, n);
    UpToUnique(s, t, if n < |s| && s[n].t == t then n + 1 else n);
  }

  lemma SoughtStep<T>(kind: Stored -> Option<T>, s: seq<Stored>, p: nat, t: int)
    requires Ascending(s) && p <= UpTo(s, t - 1)
    ensures
      var n := UpTo(s, t - 1);
      Select(kind, s, p, UpTo(s, t)) == Select(kind, s, p, n) + (if n < |s| && s[n].t == t then Keep(kind, s[n]) else [])
  {
    NextOne(s, t);
  }

  /** After seeking maxt every sample from m on is in the buffer or not before maxt. */
  method SeekBuffered(it: BufferedSeriesIterator, maxt: int, ghost m: nat)
    requires it.Valid() && (it.sought.Some? ==> it.sought.value <= maxt)
    requires m <= |it.samples| && Buffered(it.samples, m, maxt, it.delta)
    modifies it`pos, it`lo, it`lastTime, it`sought
    ensures it.Valid() && it.sought == Some(maxt)
    ensures it.pos == UpTo(it.samples, maxt - 1) && it.lo <= m
  {
    it.Seek(maxt);
    UpToUnique(it.samples, maxt - 1, it.pos);
    assert m < |it.samples| ==> it.samples[m].t >= maxt - it.delta;
  }

  method SeekAndTake(it: BufferedSeriesIterator, w: Window, maxt: int, cutFloats: int, cutHistograms: int,
                     maxSamples: int, spare: nat, ghost p: nat, ghost m: nat)
    returns (ok: bool)
    requires it.Valid() && w.Valid() && (it.sought.Some? ==> it.sought.value <= maxt)
    requires p <= m <= UpTo(it.samples, maxt - 1) && w.Holds(it.samples, p, m)
    requires Buffered(it.samples, m, maxt, it.delta)
    requires Cut(AsFloat, it.samples, m, cutFloats) && Cut(AsHistogram, it.samples, m, cutHistograms)
    modifies it`pos, it`lo, it`lastTime, it`sought, w, w.repr
    ensures it.Valid() && it.sought == Some(maxt)
    ensures w.Valid() && fresh(w.repr - old(w.repr)) && w.Elsewhere() == old(w.Elsewhere())
    ensures ok ==> w.Holds(it.samples, p, UpTo(it.samples, maxt))
    ensures ok ==> w.currentSamples <= Max(old(w.currentSamples), maxSamples)
    ensures !ok ==> w.Elsewhere() + SelectSize(it.samples, p, UpTo(it.samples, maxt)) > maxSamples
  {
    SeekBuffered(it, maxt, m);
    ok := TakeNew(it.samples, w, it.lo, it.pos, maxt, cutFloats, cutHistograms, maxSamples, spare, p, m);
  }

  /** Turn the window over samples p0 to q0 into the window of (mint, maxt]. */
  method MatrixIterSlice(it: BufferedSeriesIterator, w: Window, mint: int, maxt: int, maxSamples: int, spare: nat,
                         ghost p0: nat, ghost q0: nat)
    returns (ok: bool)
    requires it.Valid() && w.Valid() && mint <= maxt && (it.sought.Some? ==> it.sought.value <= maxt)
    requires p0 <= UpTo(it.samples, mint) && q0 <= UpTo(it.samples, maxt - 1)
    requires w.Holds(it.samples, p0, q0)
    requires Buffered(it.samples, Max(UpTo(it.samples, mint), q0), maxt, it.delta)
    modifies it`pos, it`lo, it`lastTime, it`sought, w, w.repr
    ensures it.Valid() && (it.sought.Some? ==> it.sought.value <= maxt)
    ensures w.Valid() && fresh(w.repr - old(w.repr))
    ensures w.Elsewhere() == old(w.Elsewhere())
    ensures ok ==> w.Holds(it.samples, UpTo(it.samples, mint), UpTo(it.samples, maxt))
    ensures ok ==> w.currentSamples <= Max(old(w.currentSamples), maxSamples)
    ensures !ok ==> w.Elsewhere() + SelectSize(it.samples, UpTo(it.samples, mint), UpTo(it.samples, maxt)) > maxSamples
  {
    ghost var s, p := it.samples, UpTo(it.samples, mint);
    UpToGrows(s, mint, maxt);
    UpToGrows(s, maxt - 1, maxt);
    var cutFloats, cutHistograms := w.Retain(mint, s, p0, q0);
    if mint == maxt {
      return true;
    }
    UpToGrows(s, mint, maxt - 1);
    ok := SeekAndTake(it, w, maxt, cutFloats, cutHistograms, maxSamples, spare, p, Max(p, q0));
  }

  lemma UpToGrows(s: seq<Stored>, a: int, b: int)
    requires Ascending(s) && a <= b
    ensures UpTo(s, a) <= UpTo(s, b)
  {
    UpToSplits(s, a);
    UpToSplits(s, b);
    var n := UpTo(s, b);
    assert n < |s| ==> s[n].t > b;
  }

  // ---------------------------------------------------------------- a whole series

  datatype Selector = Selector(offset: int, range: nat, lookback: nat, modifier: Modifier)
  {
    /** Width of the interval read at every step, which is also the buffered range. */
    function Width(): nat {
      match modifier
      case Anchored => range + lookback
      case Smoothed => range + 2 * lookback
      case Plain => range
    }

    function MaxT(ts: int): int {
      if modifier.Smoothed? then ts - offset + lookback else ts - offset
    }

    function MinT(ts: int): int {
      match modifier
      case Plain => ts - offset - range
      case _ => ts - offset - range - lookback
    }
  }

  datatype Modifier = Plain | Anchored | Smoothed

  datatype Contents = Contents(floats: seq<Point<real>>, histograms: seq<Point<Histogram>>)

  /** The window built afresh for the step at ts. */
  ghost function FreshAt(s: seq<Stored>, sel: Selector, ts: int): Contents
    requires Ascending(s)
  {
    Contents(Fresh(AsFloat, s, sel.MinT(ts), sel.MaxT(ts)), Fresh(AsHistogram, s, sel.MinT(ts), sel.MaxT(ts)))
  }

  /** Exactly the non-stale samples after lo and not after hi, each kind in a list of its own, in the
      order of their times. */
  ghost predicate HoldsExactly(c: Contents, s: seq<Stored>, lo: int, hi: int) {
    && (forall i, j :: 0 <= i < j < |c.floats| ==> c.floats[i].t < c.floats[j].t)
    && (forall i, j :: 0 <= i < j < |c.histograms| ==> c.histograms[i].t < c.histograms[j].t)
    && (forall t, f :: Point(t, f) in c.floats <==> lo < t <= hi && StoredFloat(t, f, false) in s)
    && (forall t, h :: Point(t, h) in c.histograms <==> lo < t <= hi && !h.stale && StoredHistogram(t, h) in s)
  }

  /** What the functions over ranges are to be given at the time ts: the range ends there, less the
      offset.  Anchored and smoothed ranges also reach back by the lookback, smoothed ones forward. */
  ghost predicate IsWindow(c: Contents, s: seq<Stored>, sel: Selector, ts: int) {
    match sel.modifier
    case Plain => HoldsExactly(c, s, ts - sel.offset - sel.range, ts - sel.offset)
    case Anchored => HoldsExactly(c, s, ts - sel.offset - sel.range - sel.lookback, ts - sel.offset)
    case Smoothed => HoldsExactly(c, s, ts - sel.offset - sel.range - sel.lookback, ts - sel.offset + sel.lookback)
  }

  lemma FreshAscends<T>(kind: Stored -> Option<T>, s: seq<Stored>, mint: int, maxt: int)
    requires Ascending(s)
    ensures
      var r := Fresh(kind, s, mint, maxt);
      forall i, j :: 0 <= i < j < |r| ==> r[i].t < r[j].t
  {
    var r := Fresh(kind, s, mint, maxt);
    SelectTimes(kind, s, UpTo(s, mint), UpTo(s, maxt));
    forall i, j | 0 <= i < j < |r| ensures r[i].t < r[j].t {
      assert EarlierPoint(r, i, j);
    }
  }

  lemma FreshFloats(s: seq<Stored>, mint: int, maxt: int, t: int, f: real)
    requires Ascending(s)
    ensures Point(t, f) in Fresh(AsFloat, s, mint, maxt) <==> mint < t <= maxt && StoredFloat(t, f, false) in s
  {
    FreshHolds(AsFloat, s, mint, maxt, Point(t, f));
    if StoredFloat(t, f, false) in s {
      var n :| 0 <= n < |s| && s[n] == StoredFloat(t, f, false);
      assert AsFloat(s[n]) == Some(f);
    }
  }

  lemma FreshHistograms(s: seq<Stored>, mint: int, maxt: int, t: int, h: Histogram)
    requires Ascending(s)
    ensures Point(t, h) in Fresh(AsHistogram, s, mint, maxt) <==>
      mint < t <= maxt && !h.stale && StoredHistogram(t, h) in s
  {
    FreshHolds(AsHistogram, s, mint, maxt, Point(t, h));
    if !h.stale && StoredHistogram(t, h) in s {
      var n :| 0 <= n < |s| && s[n] == StoredHistogram(t, h);
      assert AsHistogram(s[n]) == Some(h);
    }
  }

  lemma FreshHoldsExactly(s: seq<Stored>, mint: int, maxt: int)
    requires Ascending(s)
    ensures HoldsExactly(Contents(Fresh(AsFloat, s, mint, maxt), Fresh(AsHistogram, s, mint, maxt)), s, mint, maxt)
  {
    FreshAscends(AsFloat, s, mint, maxt);
    FreshAscends(AsHistogram, s, mint, maxt);
    forall t, f
      ensures Point(t, f) in Fresh(AsFloat, s, mint, maxt) <==> mint < t <= maxt && StoredFloat(t, f, false) in s
    {
      FreshFloats(s, mint, maxt, t, f);
    }
    forall t, h
      ensures Point(t, h) in Fresh(AsHistogram, s, mint, maxt) <==>
        mint < t <= maxt && !h.stale && StoredHistogram(t, h) in s
    {
      FreshHistograms(s, mint, maxt, t, h);
    }
  }

  /** The fresh window in the terms of the query. */
  lemma FreshIsWindow(s: seq<Stored>, sel: Selector, ts: int)
    requires Ascending(s)
    ensures IsWindow(FreshAt(s, sel, ts), s, sel, ts)
  {
    FreshHoldsExactly(s, sel.MinT(ts), sel.MaxT(ts));
  }

  /** The window of the step before has everything that the reduced buffer no longer has. */
  lemma StillBuffered(s: seq<Stored>, sel: Selector, before: int, interval: nat, delta: nat)
    requires Ascending(s) && interval > 0 && delta == Min(sel.Width(), interval)
    ensures
      var ts := before + interval;
      && UpTo(s, sel.MinT(before)) <= UpTo(s, sel.MinT(ts))
      && UpTo(s, sel.MaxT(before)) <= UpTo(s, sel.MaxT(ts) - 1)
      && Buffered(s, Max(UpTo(s, sel.MinT(ts)), UpTo(s, sel.MaxT(before))), sel.MaxT(ts), delta)
  {
    var ts := before + interval;
    UpToGrows(s, sel.MinT(before), sel.MinT(ts));
    UpToGrows(s, sel.MaxT(before), sel.MaxT(ts) - 1);
    UpToSplits(s, sel.MinT(ts));
    UpToSplits(s, sel.MaxT(before));
  }

  /** The state between two steps: the window of the step before, and the buffer reduced. */
  ghost predicate Between(it: BufferedSeriesIterator, w: Window, sel: Selector, before: int, interval: nat)
    reads it, w, w.repr
  {
    && it.Valid() && w.Valid()
    && it.delta == Min(sel.Width(), interval)
    && (it.sought.Some? ==> it.sought.value <= sel.MaxT(before))
    && w.Holds(it.samples, UpTo(it.samples, sel.MinT(before)), UpTo(it.samples, sel.MaxT(before)))
  }

  /** A window that, with the samples held elsewhere, exceeds the limit. */
  ghost predicate TooMany(elsewhere: int, c: Contents, maxSamples: int) {
    elsewhere + |c.floats| + TotalSize(c.histograms) > maxSamples
  }

  /** First step over a series: an empty window and the whole width buffered. */
  method FirstStep(it: BufferedSeriesIterator, w: Window, sel: Selector, ts: int, interval: nat, maxSamples: int, spare: nat)
    returns (ok: bool)
    requires it.Valid() && w.Valid() && it.sought == None && it.delta == sel.Width()
    requires w.floats == [] && w.histograms == []
    modifies it, w, w.repr
    ensures w.Valid() && fresh(w.repr - old(w.repr)) && w.Elsewhere() == old(w.Elsewhere())
    ensures ok ==> Between(it, w, sel, ts, interval)
    ensures !ok ==> TooMany(w.Elsewhere(), FreshAt(it.samples, sel, ts), maxSamples)
  {
    UpToSplits(it.samples, sel.MinT(ts));
    ok := MatrixIterSlice(it, w, sel.MinT(ts), sel.MaxT(ts), maxSamples, spare, 0, 0);
    if ok {
      it.ReduceDelta(Min(sel.Width(), interval));
    }
  }

  method LaterStep(it: BufferedSeriesIterator, w: Window, sel: Selector, before: int, interval: nat, maxSamples: int, spare: nat)
    returns (ok: bool)
    requires Between(it, w, sel, before, interval) && interval > 0
    modifies it, w, w.repr
    ensures w.Valid() && fresh(w.repr - old(w.repr)) && w.Elsewhere() == old(w.Elsewhere())
    ensures ok ==> Between(it, w, sel, before + interval, interval)
    ensures !ok ==> TooMany(w.Elsewhere(), FreshAt(it.samples, sel, before + interval), maxSamples)
  {
    var ts := before + interval;
    StillBuffered(it.samples, sel, before, interval, it.delta);
    ok := MatrixIterSlice(it, w, sel.MinT(ts), sel.MaxT(ts), maxSamples, spare,
                          UpTo(it.samples, sel.MinT(before)), UpTo(it.samples, sel.MaxT(before)));
    if ok {
      it.ReduceDelta(Min(sel.Width(), interval));
    }
  }

  /** Evaluation time whose window step k uses: with an @ modifier only the first step reads. */
  function StepTime(start: int, interval: nat, pinned: bool, k: int): int {
    if pinned then start else start + k * interval
  }

  ghost predicate AllFresh(out: seq<Contents>, s: seq<Stored>, sel: Selector, start: int, interval: nat, pinned: bool)
    requires Ascending(s)
  {
    forall k :: 0 <= k < |out| ==> out[k] == FreshAt(s, sel, StepTime(start, interval, pinned, k))
  }

  /** All windows so far are the fresh ones; the last of them was for the step at ts. */
  ghost predicate Underway(it: BufferedSeriesIterator, w: Window, sel: Selector, pinned: bool,
                           start: int, interval: nat, ts: int, out: seq<Contents>)
    reads it, w, w.repr
  {
    && Between(it, w, sel, ts, interval)
    && |out| > 0 && ts == StepTime(start, interval, pinned, |out| - 1)
    && AllFresh(out, it.samples, sel, start, interval, pinned)
  }

  lemma Record(it: BufferedSeriesIterator, w: Window, sel: Selector, pinned: bool,
               start: int, interval: nat, ts: int, out: seq<Contents>)
    requires Between(it, w, sel, ts, interval) && AllFresh(out, it.samples, sel, start, interval, pinned)
    requires ts == StepTime(start, interval, pinned, |out|)
    ensures Underway(it, w, sel, pinned, start, interval, ts, out + [Contents(w.floats, w.histograms)])
  {
  }

  lemma NextTime(start: int, interval: nat, pinned: bool, k: int)
    ensures StepTime(start, interval, pinned, k + 1) ==
      if pinned then start else StepTime(start, interval, pinned, k) + interval
  {
  }

  /** The window of step k is too large. */
  ghost predicate Stopped(elsewhere: int, s: seq<Stored>, sel: Selector, pinned: bool,
                          start: int, interval: nat, k: nat, maxSamples: int)
    requires Ascending(s)
  {
    TooMany(elsewhere, FreshAt(s, sel, StepTime(start, interval, pinned, k)), maxSamples)
  }

  /** The first window, and what is known of it. */
  method FirstWindow(it: BufferedSeriesIterator, w: Window, sel: Selector, pinned: bool, start: int, interval: nat,
                     maxSamples: int, spare: nat)
    returns (ok: bool)
    requires it.Valid() && w.Valid() && it.sought == None && it.delta == sel.Width()
    requires w.floats == [] && w.histograms == []
    modifies it, w, w.repr
    ensures w.Valid() && fresh(w.repr - old(w.repr)) && w.Elsewhere() == old(w.Elsewhere())
    ensures ok ==> Underway(it, w, sel, pinned, start, interval, start, [Contents(w.floats, w.histograms)])
    ensures !ok ==> Stopped(w.Elsewhere(), it.samples, sel, pinned, start, interval, 0, maxSamples)
  {
    ok := FirstStep(it, w, sel, start, interval, maxSamples, spare);
    if ok {
      Record(it, w, sel, pinned, start, interval, start, []);
    }
  }

  /** The window of the step after the one at before. */
  method MovedWindow(it: BufferedSeriesIterator, w: Window, sel: Selector, start: int, interval: nat,
                     before: int, maxSamples: int, spare: nat, ghost out: seq<Contents>)
    returns (ok: bool)
    requires Underway(it, w, sel, false, start, interval, before, out) && interval > 0
    modifies it, w, w.repr
    ensures w.Valid() && fresh(w.repr - old(w.repr)) && w.Elsewhere() == old(w.Elsewhere())
    ensures ok ==> Underway(it, w, sel, false, start, interval, before + interval, out + [Contents(w.floats, w.histograms)])
    ensures !ok ==> Stopped(w.Elsewhere(), it.samples, sel, false, start, interval, |out|, maxSamples)
  {
    NextTime(start, interval, false, |out| - 1);
    ok := LaterStep(it, w, sel, before, interval, maxSamples, spare);
    if ok {
      Record(it, w, sel, false, start, interval, before + interval, out);
    }
  }

  /** With an @ modifier the first window serves every step. */
  method NextWindow(it: BufferedSeriesIterator, w: Window, sel: Selector, pinned: bool, start: int, interval: nat,
                    before: int, maxSamples: int, spare: nat, ghost out: seq<Contents>)
    returns (ok: bool, ts: int)
    requires Underway(it, w, sel, pinned, start, interval, before, out) && interval > 0
    modifies it, w, w.repr
    ensures w.Valid() && fresh(w.repr - old(w.repr)) && w.Elsewhere() == old(w.Elsewhere())
    ensures ok ==> Underway(it, w, sel, pinned, start, interval, ts, out + [Contents(w.floats, w.histograms)])
    ensures !ok ==> Stopped(w.Elsewhere(), it.samples, sel, pinned, start, interval, |out|, maxSamples)
  {
    if pinned {
      NextTime(start, interval, true, |out| - 1);
      Record(it, w, sel, true, start, interval, before, out);
      return true, before;
    }
    ts := before + interval;
    ok := MovedWindow(it, w, sel, start, interval, before, maxSamples, spare, out);
  }

  /** The windows of a series over all steps, reusing one window. */
  method ReuseWindow(it: BufferedSeriesIterator, w: Window, sel: Selector, pinned: bool,
                     start: int, interval: nat, steps: nat, maxSamples: int, spare: nat)
    returns (ok: bool, ghost out: seq<Contents>)
    requires it.Valid() && w.Valid() && it.sought == None && it.delta == sel.Width() && interval > 0
    modifies it, w, w.repr
    ensures w.Valid() && w.Elsewhere() == old(w.Elsewhere())
    ensures if ok then |out| == steps else |out| < steps
    ensures AllFresh(out, it.samples, sel, start, interval, pinned)
    ensures !ok ==> Stopped(w.Elsewhere(), it.samples, sel, pinned, start, interval, |out|, maxSamples)
  {
    out := [];
    w.Reset();
    if steps == 0 {
      return true, out;
    }
    ok := FirstWindow(it, w, sel, pinned, start, interval, maxSamples, spare);
    if !ok {
      return;
    }
    var ts := start;
    out := [Contents(w.floats, w.histograms)];
    for step := 1 to steps
      invariant |out| == step && Underway(it, w, sel, pinned, start, interval, ts, out)
      invariant fresh(w.repr - old(w.repr)) && w.Elsewhere() == old(w.Elsewhere())
    {
      ok, ts := NextWindow(it, w, sel, pinned, start, interval, ts, maxSamples, spare, out);
      if !ok {
        return;
      }
      out := out + [Contents(w.floats, w.histograms)];
    }
    ok := true;
  }

  /** At every step the functions over ranges get the window of that step, until one is too large. */
  method SeriesWindows(it: BufferedSeriesIterator, w: Window, sel: Selector, pinned: bool,
                       start: int, interval: nat, steps: nat, maxSamples: int, spare: nat)
    returns (ok: bool, ghost out: seq<Contents>)
    requires it.Valid() && w.Valid() && it.sought == None && it.delta == sel.Width() && interval > 0
    modifies it, w, w.repr
    ensures w.Valid() && w.Elsewhere() == old(w.Elsewhere())
    ensures if ok then |out| == steps else |out| < steps
    ensures forall k :: 0 <= k < |out| ==>
      IsWindow(out[k], it.samples, sel, if pinned then start else start + k * interval)
    ensures !ok ==> exists c ::
      && IsWindow(c, it.samples, sel, if pinned then start else start + |out| * interval)
      && TooMany(w.Elsewhere(), c, maxSamples)
  {
    ok, out := ReuseWindow(it, w, sel, pinned, start, interval, steps, maxSamples, spare);
    forall k: nat ensures IsWindow(FreshAt(it.samples, sel, StepTime(start, interval, pinned, k)), it.samples, sel,
                                   if pinned then start else start + k * interval)
    {
      FreshIsWindow(it.samples, sel, StepTime(start, interval, pinned, k));
    }
  }
}
