/** Joining overlapping rectangles and pruning contained images, as the PDF-to-Markdown
    code does it: on lists that shrink while they are scanned. */
module RectAlgorithms {

  datatype Rect = Rect(x0: real, y0: real, x1: real, y1: real)

  function Min(a: real, b: real): real { if a <= b then a else b }

  function Max(a: real, b: real): real { if a <= b then b else a }

  /** The smallest rectangle around two. */
  function Hull(r: Rect, p: Rect): Rect {
    Rect(Min(r.x0, p.x0), Min(r.y0, p.y0), Max(r.x1, p.x1), Max(r.y1, p.y1))
  }

  function Enlarged(r: Rect, d: real): Rect {
    Rect(r.x0 - d, r.y0 - d, r.x1 + d, r.y1 + d)
  }

  predicate Covers(r: Rect, p: Rect) {
    r.x0 <= p.x0 && r.y0 <= p.y0 && p.x1 <= r.x1 && p.y1 <= r.y1
  }

  // ------------------------------------------------------------------ refine_boxes

  /** The test whether a growing rectangle takes in a box: PyMuPDF's `intersects` on the
      box's integer hull, left uninterpreted. */
  type Test = (Rect, Rect) -> bool

  /** The first box, enlarged, joined with all the others. */
  function ClusterHull(cluster: seq<Rect>, enlarge: real): Rect
    requires cluster != []
  {
    var n := |cluster| - 1;
    if n == 0 then Enlarged(cluster[0], enlarge) else Hull(ClusterHull(cluster[..n], enlarge), cluster[n])
  }

  /** Every box after the first was taken in because it passed the test against what had
      been joined before it. */
  ghost predicate Grown(cluster: seq<Rect>, enlarge: real, hits: Test) {
    cluster != [] &&
    forall k :: 1 <= k < |cluster| ==> hits(ClusterHull(cluster[..k], enlarge), cluster[k])
  }

  function Flatten<T>(parts: seq<seq<T>>): seq<T> {
    if parts == [] then [] else Flatten(parts[..|parts| - 1]) + parts[|parts| - 1]
  }

  /** What the joining loop has produced from the boxes it has used up: one grown cluster per
      output, each output the hull of its cluster, and closed against every box used later. */
  ghost predicate Joined(used: multiset<Rect>, enlarge: real, hits: Test, rects: seq<Rect>, clusters: seq<seq<Rect>>) {
    && |rects| == |clusters|
    && multiset(Flatten(clusters)) == used
    && (forall i :: 0 <= i < |clusters| ==> Grown(clusters[i], enlarge, hits) && rects[i] == ClusterHull(clusters[i], enlarge))
    && (forall i, j :: 0 <= i < j < |clusters| ==> ClosedAgainst(rects[i], clusters[j], hits))
  }

  predicate ClosedAgainst(r: Rect, boxes: seq<Rect>, hits: Test) {
    forall b :: b in boxes ==> !hits(r, b)
  }

  ghost predicate AllClosed(rects: seq<Rect>, boxes: seq<Rect>, hits: Test) {
    forall i :: 0 <= i < |rects| ==> ClosedAgainst(rects[i], boxes, hits)
  }

  /** One backward scan, deleting as it goes: what it takes in extends the cluster, and if
      it takes in nothing, nothing that is left passes the test. */
  method SweepOnce(boxes: seq<Rect>, cluster: seq<Rect>, enlarge: real, hits: Test)
    returns (rest: seq<Rect>, grown: seq<Rect>, repeat: bool)
    requires boxes != [] && Grown(cluster, enlarge, hits)
    ensures rest != [] && rest[0] == boxes[0] && Grown(grown, enlarge, hits) && grown[0] == cluster[0]
    ensures multiset(rest) + multiset(grown) == multiset(boxes) + multiset(cluster)
    ensures repeat ==> |rest| < |boxes|
    ensures !repeat ==> rest == boxes && grown == cluster
    ensures !repeat ==> ClosedAgainst(ClusterHull(grown, enlarge), rest[1..], hits)
  {
    rest, grown, repeat := boxes, cluster, false;
    var r := ClusterHull(cluster, enlarge);
    var i := |boxes| - 1;
    while i > 0
      invariant 0 <= i < |rest| <= |boxes| && rest[0] == boxes[0]
      invariant Grown(grown, enlarge, hits) && grown[0] == cluster[0] && r == ClusterHull(grown, enlarge)
      invariant multiset(rest) + multiset(grown) == multiset(boxes) + multiset(cluster)
      invariant repeat ==> |rest| < |boxes|
      invariant !repeat ==> rest == boxes && grown == cluster
      invariant !repeat ==> forall k :: i < k < |rest| ==> !hits(r, rest[k])
    {
      if hits(r, rest[i]) {
        GrowByOne(grown, rest[i], enlarge, hits);
        MoveOne(rest, grown, i);
        r := Hull(r, rest[i]);
        grown := grown + [rest[i]];
        rest := rest[..i] + rest[i + 1..];
        repeat := true;
      }
      i := i - 1;
    }
  }

  lemma GrowByOne(cluster: seq<Rect>, b: Rect, enlarge: real, hits: Test)
    requires Grown(cluster, enlarge, hits) && hits(ClusterHull(cluster, enlarge), b)
    ensures Grown(cluster + [b], enlarge, hits)
    ensures ClusterHull(cluster + [b], enlarge) == Hull(ClusterHull(cluster, enlarge), b)
  {
    var longer := cluster + [b];
    assert longer[..|cluster|] == cluster;
    forall k | 1 <= k < |longer| ensures hits(ClusterHull(longer[..k], enlarge), longer[k]) {
      if k < |cluster| { assert longer[..k] == cluster[..k]; }
    }
  }

  lemma MoveOne(rest: seq<Rect>, grown: seq<Rect>, i: nat)
    requires i < |rest|
    ensures multiset(rest[..i] + rest[i + 1..]) + multiset(grown + [rest[i]]) == multiset(rest) + multiset(grown)
  {
    assert rest == rest[..i] + [rest[i]] + rest[i + 1..];
  }

  /** Everything the first box reaches, leaving the rest. */
  method TakeCluster(boxes: seq<Rect>, enlarge: real, hits: Test) returns (rest: seq<Rect>, cluster: seq<Rect>)
    requires boxes != []
    ensures |rest| < |boxes| && Grown(cluster, enlarge, hits) && cluster[0] == boxes[0]
    ensures multiset(rest) + multiset(cluster) == multiset(boxes)
    ensures ClosedAgainst(ClusterHull(cluster, enlarge), rest, hits)
  {
    rest, cluster := boxes, [boxes[0]];
    var repeat := true;
    while repeat
      invariant rest != [] && |rest| <= |boxes| && rest[0] == boxes[0]
      invariant Grown(cluster, enlarge, hits) && cluster[0] == boxes[0]
      invariant multiset(rest) + multiset(cluster) == multiset(boxes) + multiset{boxes[0]}
      invariant !repeat ==> ClosedAgainst(ClusterHull(cluster, enlarge), rest[1..], hits)
      decreases |rest|, repeat
    {
      rest, cluster, repeat := SweepOnce(rest, cluster, enlarge, hits);
    }
    assert rest == [boxes[0]] + rest[1..];
    assert multiset(rest) == multiset{boxes[0]} + multiset(rest[1..]);
    rest := rest[1..];
    Cancel(multiset(rest) + multiset(cluster), multiset(boxes), multiset{boxes[0]});
  }

  lemma Cancel(a: multiset<Rect>, b: multiset<Rect>, c: multiset<Rect>)
    requires a + c == b + c
    ensures a == b
  {
    assert a == (a + c) - c && b == (b + c) - c;
  }

  lemma JoinOneMore(used: multiset<Rect>, enlarge: real, hits: Test, rects: seq<Rect>, clusters: seq<seq<Rect>>,
                    cluster: seq<Rect>)
    requires Joined(used, enlarge, hits, rects, clusters) && Grown(cluster, enlarge, hits)
    requires AllClosed(rects, cluster, hits)
    ensures Joined(used + multiset(cluster), enlarge, hits, rects + [ClusterHull(cluster, enlarge)], clusters + [cluster])
  {
    assert (clusters + [cluster])[..|clusters|] == clusters;
  }

  method JoinAll(boxes: seq<Rect>, enlarge: real, hits: Test) returns (rects: seq<Rect>)
    ensures exists clusters :: Joined(multiset(boxes), enlarge, hits, rects, clusters)
  {
    var prects := boxes;
    rects := [];
    ghost var clusters: seq<seq<Rect>> := [];
    ghost var used: multiset<Rect> := multiset{};
    while prects != []
      invariant Joined(used, enlarge, hits, rects, clusters)
      invariant used + multiset(prects) == multiset(boxes)
      invariant AllClosed(rects, prects, hits)
      decreases |prects|
    {
      var rest, cluster := TakeCluster(prects, enlarge, hits);
      PartsBelong(prects, rest, cluster);
      JoinOneMore(used, enlarge, hits, rects, clusters, cluster);
      used := used + multiset(cluster);
      rects := rects + [ClusterHull(cluster, enlarge)];
      clusters := clusters + [cluster];
      prects := rest;
    }
    assert multiset(prects) == multiset{} && used == multiset(boxes);
    assert Joined(multiset(boxes), enlarge, hits, rects, clusters);
  }

  lemma PartsBelong(boxes: seq<Rect>, rest: seq<Rect>, cluster: seq<Rect>)
    requires multiset(rest) + multiset(cluster) == multiset(boxes)
    ensures forall b :: b in rest || b in cluster ==> b in boxes
  {
    forall b | b in rest || b in cluster ensures b in boxes {
      assert b in multiset(rest) || b in multiset(cluster);
      assert b in multiset(boxes);
    }
  }

  predicate NotAfter(r: Rect, s: Rect) {
    r.x0 < s.x0 || (r.x0 == s.x0 && r.y0 <= s.y0)
  }

  /** The same rectangles without repetition, by their top-left corners. */
  ghost predicate Listed(out: seq<Rect>, rects: seq<Rect>) {
    && (forall r :: r in out <==> r in rects)
    && (forall i, j :: 0 <= i < j < |out| ==> out[i] != out[j] && NotAfter(out[i], out[j]))
  }

  /** Past the place for a new rectangle all come after it. */
  lemma RestAfter(out: seq<Rect>, r: Rect, k: nat)
    requires forall i, j :: 0 <= i < j < |out| ==> NotAfter(out[i], out[j])
    requires k < |out| ==> !NotAfter(out[k], r)
    ensures forall j :: k <= j < |out| ==> NotAfter(r, out[j])
  {
    forall j | k <= j < |out| ensures NotAfter(r, out[j]) {
      assert j > k ==> NotAfter(out[k], out[j]);
    }
  }

  lemma InsertListed(out: seq<Rect>, rects: seq<Rect>, r: Rect, k: nat)
    requires Listed(out, rects) && r !in out && k <= |out|
    requires forall j :: 0 <= j < k ==> NotAfter(out[j], r)
    requires forall j :: k <= j < |out| ==> NotAfter(r, out[j])
    ensures Listed(out[..k] + [r] + out[k..], rects + [r])
  {
    var next := out[..k] + [r] + out[k..];
    forall s ensures s in next <==> s in rects + [r] {
      assert out == out[..k] + out[k..];
      assert s in out <==> s in rects;
    }
    forall i, j | 0 <= i < j < |next| ensures next[i] != next[j] && NotAfter(next[i], next[j]) {
      var i', j' := if i > k then i - 1 else i, if j > k then j - 1 else j;
      assert i != k ==> next[i] == out[i'];
      assert j != k ==> next[j] == out[j'];
    }
  }

  method SortedSet(rects: seq<Rect>) returns (out: seq<Rect>)
    ensures Listed(out, rects)
    ensures forall i, j :: 0 <= i < j < |out| ==> out[i].x0 < out[j].x0 || (out[i].x0 == out[j].x0 && out[i].y0 <= out[j].y0)
  {
    out := [];
    for i := 0 to |rects|
      invariant Listed(out, rects[..i])
    {
      assert rects[..i + 1] == rects[..i] + [rects[i]];
      if rects[i] !in out {
        var k := 0;
        while k < |out| && NotAfter(out[k], rects[i])
          invariant 0 <= k <= |out|
          invariant forall j :: 0 <= j < k ==> NotAfter(out[j], rects[i])
        {
          k := k + 1;
        }
        RestAfter(out, rects[i], k);
        InsertListed(out, rects[..i], rects[i], k);
        out := out[..k] + [rects[i]] + out[k..];
      }
    }
    assert rects[..|rects|] == rects;
  }

  /** The boxes are partitioned into clusters; the outputs are the clusters' hulls. */
  method RefineBoxes(boxes: seq<Rect>, enlarge: real, hits: Test) returns (out: seq<Rect>)
    ensures exists rects, clusters :: Joined(multiset(boxes), enlarge, hits, rects, clusters) && Listed(out, rects)
  {
    var rects := JoinAll(boxes, enlarge, hits);
    out := SortedSet(rects);
  }

  /** A cluster's hull covers its boxes. */
  lemma {:induction false} HullCovers(cluster: seq<Rect>, enlarge: real, b: Rect)
    requires b in cluster && 0.0 <= enlarge
    ensures Covers(ClusterHull(cluster, enlarge), b)
  {
    var n := |cluster| - 1;
    if n > 0 {
      assert cluster == cluster[..n] + [cluster[n]];
      if b in cluster[..n] {
        HullCovers(cluster[..n], enlarge, b);
      }
    }
  }

  /** Without enlargement it covers nothing more than it must: whatever covers the boxes
      covers the hull. */
  lemma {:induction false} HullIsLeast(cluster: seq<Rect>, around: Rect)
    requires cluster != [] && forall b :: b in cluster ==> Covers(around, b)
    ensures Covers(around, ClusterHull(cluster, 0.0))
  {
    var n := |cluster| - 1;
    assert Covers(around, cluster[n]);
    if n > 0 {
      assert forall b :: b in cluster[..n] ==> b in cluster;
      HullIsLeast(cluster[..n], around);
    }
  }

  /** Exactly: a rectangle lies around the hull if and only if it lies around the first box,
      grown by `enlarge` on every side, and around all the other boxes. */
  lemma {:induction false} HullExact(cluster: seq<Rect>, enlarge: real, around: Rect)
    requires cluster != []
    ensures Covers(around, ClusterHull(cluster, enlarge)) <==>
      && around.x0 <= cluster[0].x0 - enlarge && around.y0 <= cluster[0].y0 - enlarge
      && around.x1 >= cluster[0].x1 + enlarge && around.y1 >= cluster[0].y1 + enlarge
      && forall k :: 1 <= k < |cluster| ==>
           && around.x0 <= cluster[k].x0 && around.y0 <= cluster[k].y0
           && around.x1 >= cluster[k].x1 && around.y1 >= cluster[k].y1
  {
    var n := |cluster| - 1;
    if n > 0 {
      HullExact(cluster[..n], enlarge, around);
      assert forall k :: 0 <= k < n ==> cluster[..n][k] == cluster[k];
    }
  }

  lemma {:induction false} FlattenMembers<T>(parts: seq<seq<T>>, x: T)
    ensures x in Flatten(parts) <==> exists i :: 0 <= i < |parts| && x in parts[i]
  {
    if parts != [] {
      var n := |parts| - 1;
      FlattenMembers(parts[..n], x);
      if i :| 0 <= i < |parts| && x in parts[i] {
        if i < n { assert x in parts[..n][i]; }
      }
    }
  }

  /** Every input box ends up inside some output. */
  lemma EveryBoxCovered(boxes: seq<Rect>, enlarge: real, hits: Test, rects: seq<Rect>, clusters: seq<seq<Rect>>,
                        out: seq<Rect>, b: Rect)
    requires Joined(multiset(boxes), enlarge, hits, rects, clusters) && Listed(out, rects)
    requires b in boxes && 0.0 <= enlarge
    ensures exists r :: r in out && Covers(r, b)
  {
    assert b in multiset(boxes);
    assert b in multiset(Flatten(clusters));
    FlattenMembers(clusters, b);
    var i :| 0 <= i < |clusters| && b in clusters[i];
    HullCovers(clusters[i], enlarge, b);
    assert rects[i] in out;
  }

  /** If the test is symmetric and monotone in the rectangle that grows, two boxes that pass
      it against each other never end up in different clusters. */
  lemma OverlapsShareCluster(boxes: seq<Rect>, enlarge: real, hits: Test, rects: seq<Rect>, clusters: seq<seq<Rect>>,
                             i: nat, j: nat, b: Rect, c: Rect)
    requires Joined(multiset(boxes), enlarge, hits, rects, clusters) && 0.0 <= enlarge
    requires i < |clusters| && j < |clusters| && b in clusters[i] && c in clusters[j]
    requires hits(b, c) && hits(c, b)
    requires forall r, p, q :: Covers(q, r) && hits(r, p) ==> hits(q, p)
    ensures i == j
  {
    HullCovers(clusters[i], enlarge, b);
    HullCovers(clusters[j], enlarge, c);
    assert hits(rects[i], c) && hits(rects[j], b);
    assert !ClosedAgainst(rects[i], clusters[j], hits) && !ClosedAgainst(rects[j], clusters[i], hits);
  }

  // ----------------------------------------------------------------- image pruning

  predicate Empty(r: Rect) {
    r.x1 <= r.x0 || r.y1 <= r.y0
  }

  predicate Inside(r: Rect, s: Rect) {
    s.x0 <= r.x0 <= r.x1 <= s.x1 && s.y0 <= r.y0 <= r.y1 <= s.y1
  }

  /** An image survives if it is the first, or if it is non-empty and lies in none before it
      in the list as it was given. */
  predicate Survives(images: seq<Rect>, i: nat)
    requires i < |images|
  {
    i == 0 || (!Empty(images[i]) && forall j :: 0 <= j < i ==> !Inside(images[i], images[j]))
  }

  function Survivors(images: seq<Rect>, from: nat): seq<Rect>
    requires from <= |images|
    decreases |images| - from
  {
    if from == |images| then []
    else (if Survives(images, from) then [images[from]] else []) + Survivors(images, from + 1)
  }

  /** The backward sweep, deleting while scanning: each deletion is decided on images that
      may themselves be deleted later, and still only the survivors are left. */
  method PruneImages(images: seq<Rect>) returns (kept: seq<Rect>)
    ensures kept == Survivors(images, 0)
  {
    kept := images;
    var i := |images| - 1;
    while i > 0
      invariant |images| == 0 ==> i == -1 && kept == images
      invariant |images| > 0 ==> 0 <= i < |images| && kept == images[..i + 1] + Survivors(images, i + 1)
    {
      var r := kept[i];
      if Empty(r) {
        kept := kept[..i] + kept[i + 1..];
      } else {
        var j := 0;
        while j < i && !Inside(r, kept[j])
          invariant 0 <= j <= i
          invariant forall k :: 0 <= k < j ==> !Inside(r, images[k])
        {
          j := j + 1;
        }
        if j < i {
          kept := kept[..i] + kept[i + 1..];
        }
      }
      assert images[..i + 1] == images[..i] + [images[i]];
      assert kept == images[..i] + Survivors(images, i);
      i := i - 1;
    }
    if |images| > 0 {
      assert images[..1] == [images[0]];
      assert Survives(images, 0) && Survivors(images, 0) == [images[0]] + Survivors(images, 1);
    }
  }

  lemma {:induction false} SurvivorsAre(images: seq<Rect>, from: nat, r: Rect)
    requires from <= |images|
    ensures r in Survivors(images, from) <==> exists i :: from <= i < |images| && Survives(images, i) && images[i] == r
    decreases |images| - from
  {
    if from < |images| { SurvivorsAre(images, from + 1, r); }
  }

  /** No image area is lost: every non-empty image lies in a survivor, if need be through a
      chain of containers that were deleted in turn. */
  lemma {:induction false} NonEmptyCovered(images: seq<Rect>, i: nat)
    requires i < |images| && !Empty(images[i])
    ensures exists k :: 0 <= k <= i && Survives(images, k) && Inside(images[i], images[k])
    decreases i
  {
    if !Survives(images, i) {
      var j :| 0 <= j < i && Inside(images[i], images[j]);
      NonEmptyCovered(images, j);
      var k :| 0 <= k <= j && Survives(images, k) && Inside(images[j], images[k]);
      assert Inside(images[i], images[k]);
    } else {
      assert Inside(images[i], images[i]);
    }
  }

  lemma LaterNotInside(images: seq<Rect>, from: nat, r: Rect)
    requires from < |images| && r in Survivors(images, from + 1)
    ensures !Inside(r, images[from]) && !Empty(r)
  {
    var i := SurvivorFound(images, from + 1, r);
    assert !Inside(images[i], images[from]);
  }

  lemma {:induction false} SurvivorFound(images: seq<Rect>, from: nat, r: Rect) returns (i: nat)
    requires from <= |images| && r in Survivors(images, from)
    ensures from <= i < |images| && Survives(images, i) && images[i] == r
    decreases |images| - from
  {
    if Survives(images, from) && images[from] == r {
      i := from;
    } else {
      i := SurvivorFound(images, from + 1, r);
    }
  }

  /** Survivors keep their order, and none lies in an earlier one. */
  lemma {:induction false} NoSurvivorInEarlier(images: seq<Rect>, from: nat, a: nat, b: nat)
    requires from <= |images| && a < b < |Survivors(images, from)|
    ensures !Inside(Survivors(images, from)[b], Survivors(images, from)[a])
    ensures !Empty(Survivors(images, from)[b])
    decreases |images| - from
  {
    var rest := Survivors(images, from + 1);
    if !Survives(images, from) {
      NoSurvivorInEarlier(images, from + 1, a, b);
    } else if a > 0 {
      NoSurvivorInEarlier(images, from + 1, a - 1, b - 1);
    } else {
      assert Survivors(images, from) == [images[from]] + rest;
      LaterNotInside(images, from, rest[b - 1]);
    }
  }

  predicate HasArea(r: Rect) {
    r.x0 < r.x1 && r.y0 < r.y1
  }

  /** What a page keeps: every image with an area inside something kept; nothing kept, but for
      the first image, without an area or inside something kept before it; nothing invented. */
  ghost predicate Pruned(images: seq<Rect>, kept: seq<Rect>) {
    && (forall i :: 0 <= i < |images| && HasArea(images[i]) ==> exists r :: r in kept && Covers(r, images[i]))
    && (forall a, b :: 0 <= a < b < |kept| ==> !Covers(kept[a], kept[b]) && HasArea(kept[b]))
    && (forall r :: r in kept ==> r in images)
    && (images != [] ==> kept != [] && kept[0] == images[0])
  }

  lemma PruningLosesNothing(images: seq<Rect>)
    ensures Pruned(images, Survivors(images, 0))
  {
    var kept := Survivors(images, 0);
    forall i | 0 <= i < |images| && HasArea(images[i]) ensures exists r :: r in kept && Covers(r, images[i]) {
      NonEmptyCovered(images, i);
      var k :| 0 <= k <= i && Survives(images, k) && Inside(images[i], images[k]);
      SurvivorsAre(images, 0, images[k]);
    }
    forall a, b | 0 <= a < b < |kept| ensures !Covers(kept[a], kept[b]) && HasArea(kept[b]) {
      NoSurvivorInEarlier(images, 0, a, b);
    }
    forall r | r in kept ensures r in images { SurvivorsAre(images, 0, r); }
  }
}
