/** Greedy label placement on the two-dimensional graph, over the reals. */
module LabelLayout {
  import opened Wrappers
  import opened Sorting
  import opened Lists
  import opened EntityOrder

  datatype Bounds = Bounds(left: real, right: real, top: real, bottom: real)

  datatype Placement = Placement(bounds: Bounds, baselineY: real, drawableWidth: real)

  function MaxR(a: real, b: real): real {
    if a >= b then a else b
  }

  function MinR(a: real, b: real): real {
    if a <= b then a else b
  }

  const PADDING := 8.0

  /** `canonical2DLabelPlacement` */
  function Place(anchorX: real, anchorY: real, width: real, height: real, radius: real, textWidth: real): Placement {
    var drawableWidth := MaxR(0.0, MinR(textWidth, width - PADDING * 2.0));
    var gap := radius + 5.0;
    var preferredRight := anchorX + gap;
    var preferredLeft := anchorX - gap - drawableWidth;
    var maximumLeft := MaxR(PADDING, width - PADDING - drawableWidth);
    var left :=
      if preferredRight + drawableWidth <= width - PADDING then preferredRight
      else if preferredLeft >= PADDING then preferredLeft
      else MinR(MaxR(preferredRight, PADDING), maximumLeft);
    var baselineY := MinR(MaxR(anchorY + 4.0, 14.0), MaxR(14.0, height - 8.0));
    Placement(Bounds(left, left + drawableWidth, baselineY - 10.0, baselineY + 4.0), baselineY, drawableWidth)
  }

  /** A label stands to the right of its node where it fits, else to the left where it fits there, and else against the right edge; at the height of the node, as far as the edges let it. */
  lemma PlacedBeside(anchorX: real, anchorY: real, width: real, height: real, radius: real, textWidth: real)
    requires width >= 16.0 && height >= 22.0 && radius >= 0.0 && textWidth >= 0.0
    ensures var placed := Place(anchorX, anchorY, width, height, radius, textWidth);
            var bounds, drawn := placed.bounds, placed.drawableWidth;
            && drawn <= textWidth && drawn <= width - 16.0 && (drawn == textWidth || drawn == width - 16.0)
            && bounds.right - bounds.left == drawn && bounds.bottom - bounds.top == 14.0 && bounds.bottom - placed.baselineY == 4.0
            && (if anchorX + radius + 5.0 + drawn <= width - 8.0 then bounds.left - anchorX == radius + 5.0
                else if anchorX - radius - 5.0 - drawn >= 8.0 then anchorX - bounds.right == radius + 5.0
                else bounds.right == width - 8.0)
            && (if anchorY < 10.0 then placed.baselineY == 14.0
                else if anchorY > height - 12.0 then placed.baselineY == height - 8.0
                else placed.baselineY - anchorY == 4.0)
  {}

  /** `canonical2DBoundsOverlap` */
  predicate Overlaps(a: Bounds, b: Bounds, horizontalGap: real, verticalGap: real) {
    && a.left < b.right + horizontalGap && a.right + horizontalGap > b.left
    && a.top < b.bottom + verticalGap && a.bottom + verticalGap > b.top
  }

  predicate Collides(a: Bounds, b: Bounds) {
    Overlaps(a, b, 6.0, 3.0)
  }

  // Two bounds do not collide exactly when they are 6 apart sideways or 3 apart vertically, whichever is asked first.
  lemma CollisionIsSymmetric(a: Bounds, b: Bounds)
    ensures Collides(a, b) <==> Collides(b, a)
    ensures !Collides(a, b) <==>
      a.left - b.right >= 6.0 || b.left - a.right >= 6.0 || a.top - b.bottom >= 3.0 || b.top - a.bottom >= 3.0
  {}

  /** A label keeps 8 from both side edges exactly when its anchor is at most 3 less than the radius outside of them. */
  lemma SideEdges(anchorX: real, anchorY: real, width: real, height: real, radius: real, textWidth: real)
    requires width >= 16.0 && radius >= 0.0 && textWidth >= 0.0
    ensures var bounds := Place(anchorX, anchorY, width, height, radius, textWidth).bounds;
            8.0 <= bounds.left && bounds.right <= width - 8.0 <==> 3.0 - radius <= anchorX <= width - 3.0 + radius
  {}

  /** For an anchor on the canvas a radius of 3 is enough. */
  lemma OnCanvas(anchorX: real, anchorY: real, width: real, height: real, radius: real, textWidth: real)
    requires width >= 16.0 && radius >= 3.0 && textWidth >= 0.0 && 0.0 <= anchorX <= width
    ensures var bounds := Place(anchorX, anchorY, width, height, radius, textWidth).bounds;
            8.0 <= bounds.left <= bounds.right <= width - 8.0
  {
    SideEdges(anchorX, anchorY, width, height, radius, textWidth);
  }

  lemma TopAndBottomEdges(anchorX: real, anchorY: real, width: real, height: real, radius: real, textWidth: real)
    requires height >= 22.0
    ensures var bounds := Place(anchorX, anchorY, width, height, radius, textWidth).bounds;
            4.0 <= bounds.top && bounds.bottom <= height - 4.0
  {}

  // The panel beside the canvas takes space from the labels, but not from the anchors.
  function LabelViewportRight(canvas: Bounds, inspector: Option<Bounds>, clientWidth: real): real {
    match inspector
    case Some(panel) =>
      if panel.right > canvas.left && panel.left < canvas.right && panel.bottom > canvas.top && panel.top < canvas.bottom
      then MaxR(16.0, panel.left - canvas.left - 12.0)
      else clientWidth
    case None => clientWidth
  }

  /** An anchor on the canvas but under the open inspector gets a label that crosses the right edge of the label area. */
  lemma AnchorUnderInspector()
    ensures var canvas := Bounds(0.0, 1000.0, 0.0, 600.0);
            var width := LabelViewportRight(canvas, Some(Bounds(700.0, 1000.0, 0.0, 600.0)), 1000.0);
            var bounds := Place(900.0, 300.0, width, 600.0, 4.0, 100.0).bounds;
            width == 688.0 && bounds.right > width - 8.0
  {}

  function Minimap(visible: bool, points: nat, width: real, height: real): Option<Bounds> {
    if visible && points > 1 then Some(Bounds(width - 128.0, width - 12.0, height - 94.0, height - 12.0)) else None
  }

  // Without an inspector over the canvas the whole width is the label area.
  lemma FreeCanvas(canvas: Bounds, inspector: Option<Bounds>, clientWidth: real)
    requires inspector.Some? ==>
               || inspector.value.right <= canvas.left || inspector.value.left >= canvas.right
               || inspector.value.bottom <= canvas.top || inspector.value.top >= canvas.bottom
    ensures LabelViewportRight(canvas, inspector, clientWidth) == clientWidth
  {}

  lemma MinimapInCorner(visible: bool, points: nat, width: real, height: real)
    ensures Minimap(visible, points, width, height).Some? <==> visible && points > 1
    ensures Minimap(visible, points, width, height).Some? ==>
              var map_ := Minimap(visible, points, width, height).value;
              && width - map_.right == height - map_.bottom == 12.0
              && map_.right - map_.left == 116.0 && map_.bottom - map_.top == 82.0
  {}

  predicate Accepted(candidate: Bounds, occupied: seq<Bounds>) {
    !exists i :: 0 <= i < |occupied| && Collides(candidate, occupied[i])
  }

  function MinimapFirst(minimap: Option<Bounds>): seq<Bounds> {
    match minimap
    case Some(bounds) => [bounds]
    case None => []
  }

  // The labels drawn of a list of candidates in order of priority.
  function Drawn(minimap: Option<Bounds>, candidates: seq<Bounds>): seq<Bounds> {
    if candidates == [] then []
    else
      var earlier := Drawn(minimap, candidates[..|candidates| - 1]);
      var next := candidates[|candidates| - 1];
      if Accepted(next, MinimapFirst(minimap) + earlier) then earlier + [next] else earlier
  }

  predicate IsDrawn(minimap: Option<Bounds>, candidates: seq<Bounds>, i: nat)
    requires i < |candidates|
  {
    Accepted(candidates[i], MinimapFirst(minimap) + Drawn(minimap, candidates[..i]))
  }

  predicate HitsMinimap(minimap: Option<Bounds>, bounds: Bounds) {
    minimap.Some? && Collides(bounds, minimap.value)
  }

  lemma AcceptedIsClear(candidate: Bounds, minimap: Option<Bounds>, drawn: seq<Bounds>)
    ensures Accepted(candidate, MinimapFirst(minimap) + drawn) <==>
            !HitsMinimap(minimap, candidate) && forall d :: d in drawn ==> !Collides(candidate, d)
  {
    var occupied := MinimapFirst(minimap) + drawn;
    var offset := |MinimapFirst(minimap)|;
    assert forall i :: 0 <= i < |drawn| ==> occupied[offset + i] == drawn[i];
    if Accepted(candidate, occupied) {
      if minimap.Some? { assert occupied[0] == minimap.value; }
      forall d | d in drawn ensures !Collides(candidate, d) {
        var i :| 0 <= i < |drawn| && drawn[i] == d;
        assert occupied[offset + i] == d;
      }
    }
  }

  ghost predicate Separated(labels: seq<Bounds>) {
    forall i, j :: 0 <= i < |labels| && 0 <= j < |labels| && i != j ==> !Collides(labels[i], labels[j])
  }

  /** Drawn labels are pairwise separated by the gaps and clear of the minimap. */
  lemma {:induction false} DrawnAreSeparated(minimap: Option<Bounds>, candidates: seq<Bounds>)
    ensures Separated(Drawn(minimap, candidates))
    ensures forall d :: d in Drawn(minimap, candidates) ==> !HitsMinimap(minimap, d)
  {
    if candidates != [] {
      var earlier, next := Drawn(minimap, candidates[..|candidates| - 1]), candidates[|candidates| - 1];
      DrawnAreSeparated(minimap, candidates[..|candidates| - 1]);
      AcceptedIsClear(next, minimap, earlier);
      forall d | d in earlier ensures Collides(next, d) <==> Collides(d, next) {
        CollisionIsSymmetric(next, d);
      }
    }
  }

  // Later candidates have no say in whether an earlier one is drawn.
  lemma EarlierDecides(minimap: Option<Bounds>, candidates: seq<Bounds>, n: nat, i: nat)
    requires i < n <= |candidates|
    ensures IsDrawn(minimap, candidates[..n], i) <==> IsDrawn(minimap, candidates, i)
  {
    assert candidates[..n][..i] == candidates[..i];
  }

  ghost predicate DrawnAs(minimap: Option<Bounds>, candidates: seq<Bounds>, d: Bounds, i: nat) {
    i < |candidates| && IsDrawn(minimap, candidates, i) && candidates[i] == d
  }

  lemma {:induction false} DrawnAre(minimap: Option<Bounds>, candidates: seq<Bounds>, d: Bounds)
    ensures d in Drawn(minimap, candidates) <==> exists i: nat :: DrawnAs(minimap, candidates, d, i)
  {
    if candidates != [] {
      var n := |candidates| - 1;
      DrawnAre(minimap, candidates[..n], d);
      if i: nat :| DrawnAs(minimap, candidates[..n], d, i) {
        EarlierDecides(minimap, candidates, n, i);
        assert DrawnAs(minimap, candidates, d, i);
      }
      if i: nat :| DrawnAs(minimap, candidates, d, i) && i < n {
        EarlierDecides(minimap, candidates, n, i);
        assert DrawnAs(minimap, candidates[..n], d, i);
      }
      if Drawn(minimap, candidates) != Drawn(minimap, candidates[..n]) {
        assert DrawnAs(minimap, candidates, candidates[n], n);
      }
    }
  }

  ghost predicate BlockedBy(minimap: Option<Bounds>, candidates: seq<Bounds>, i: nat, j: nat)
    requires i < |candidates|
  {
    j < i && IsDrawn(minimap, candidates, j) && Collides(candidates[i], candidates[j])
  }

  /** A candidate is rejected exactly when it collides with the minimap or with a drawn candidate of higher priority. */
  lemma RejectedExactly(minimap: Option<Bounds>, candidates: seq<Bounds>, i: nat)
    requires i < |candidates|
    ensures !IsDrawn(minimap, candidates, i) <==>
            HitsMinimap(minimap, candidates[i]) || exists j: nat :: BlockedBy(minimap, candidates, i, j)
  {
    var earlier := candidates[..i];
    AcceptedIsClear(candidates[i], minimap, Drawn(minimap, earlier));
    if d :| d in Drawn(minimap, earlier) && Collides(candidates[i], d) {
      DrawnAre(minimap, earlier, d);
      var j: nat :| DrawnAs(minimap, earlier, d, j);
      EarlierDecides(minimap, candidates, i, j);
      assert BlockedBy(minimap, candidates, i, j);
    }
    if j: nat :| BlockedBy(minimap, candidates, i, j) {
      EarlierDecides(minimap, candidates, i, j);
      assert DrawnAs(minimap, earlier, candidates[j], j);
      DrawnAre(minimap, earlier, candidates[j]);
    }
  }

  // A labelled node; its place on the canvas and the width of its name are given.
  datatype Candidate = Candidate(id: string, selected: bool, role: Role, stableCode: string, x: real, y: real, radius: real, textWidth: real)

  function Priority(candidate: Candidate): int {
    if candidate.selected then 0
    else match candidate.role
         case ENTRAL => 1
         case MARSHAL => 2
         case _ => 3
  }

  function ByPriority(lc: Collation): Comparator<Candidate> {
    (left: Candidate, right: Candidate) =>
      if Priority(left) != Priority(right) then Priority(left) - Priority(right)
      else lc(left.stableCode, right.stableCode)
  }

  function Budget(lc: Collation, candidates: seq<Candidate>, maximum: nat): seq<Candidate> {
    var ordered := Sort(ByPriority(lc), candidates);
    if maximum < |ordered| then ordered[..maximum] else ordered
  }

  // Selected before ENTRAL, ENTRAL before MARSHAL, MARSHAL before the rest, and equals by stable code.
  predicate Outranks(lc: Collation, a: Candidate, b: Candidate) {
    && (b.selected ==> a.selected)
    && (!a.selected && !b.selected ==> (b.role == ENTRAL ==> a.role == ENTRAL) && (b.role == MARSHAL ==> a.role in {ENTRAL, MARSHAL}))
    && ((if a.selected then b.selected else !b.selected && (a.role == b.role || !(a.role in {ENTRAL, MARSHAL} || b.role in {ENTRAL, MARSHAL}))) ==>
          lc(a.stableCode, b.stableCode) <= 0)
  }

  lemma ByPriorityOutranks(lc: Collation, a: Candidate, b: Candidate)
    requires ByPriority(lc)(a, b) <= 0
    ensures Outranks(lc, a, b)
  {
    assert Priority(a) <= Priority(b);
    assert Priority(a) == Priority(b) ==> lc(a.stableCode, b.stableCode) <= 0;
  }

  /** The candidates that get a chance stand by rank, no other candidate outranks one of them, and there are as many as the maximum allows. */
  lemma BudgetIsBest(lc: Collation, candidates: seq<Candidate>, maximum: nat)
    requires IsCollation(lc)
    ensures var kept := Budget(lc, candidates, maximum);
            && |kept| == (if |candidates| < maximum then |candidates| else maximum)
            && (forall i, j :: 0 <= i < j < |kept| ==> Outranks(lc, kept[i], kept[j]))
            && (forall i, c :: 0 <= i < |kept| && c in candidates && c !in kept ==> Outranks(lc, kept[i], c))
  {
    var ordered, kept := Sort(ByPriority(lc), candidates), Budget(lc, candidates, maximum);
    ByPriorityIsOrder(lc);
    SortSorts(ByPriority(lc), candidates);
    SortedElements(ByPriority(lc), candidates);
    forall i, j | 0 <= i < j < |kept| ensures Outranks(lc, kept[i], kept[j]) {
      ByPriorityOutranks(lc, ordered[i], ordered[j]);
    }
    forall i, c | 0 <= i < |kept| && c in candidates && c !in kept ensures Outranks(lc, kept[i], c) {
      PrefixIsLeast(ByPriority(lc), ordered, |kept|, i, c);
      ByPriorityOutranks(lc, ordered[i], c);
    }
  }

  function BoundsOf(candidate: Candidate, width: real, height: real): Bounds {
    Place(candidate.x, candidate.y, width, height, candidate.radius, candidate.textWidth).bounds
  }

  function AllBounds(candidates: seq<Candidate>, width: real, height: real): seq<Bounds> {
    seq(|candidates|, i requires 0 <= i < |candidates| => BoundsOf(candidates[i], width, height))
  }

  /** What a frame draws. */
  function Labels(lc: Collation, candidates: seq<Candidate>, maximum: nat, minimap: Option<Bounds>, width: real, height: real): seq<Bounds> {
    Drawn(minimap, AllBounds(Budget(lc, candidates, maximum), width, height))
  }

  function MinimapCollisions(minimap: Option<Bounds>, labels: seq<Bounds>): nat {
    match minimap
    case Some(bounds) => |Filter((b: Bounds) => Overlaps(b, bounds, 0.0, 0.0), labels)|
    case None => 0
  }

  // The number that is published counts the drawn labels of which a part lies under the minimap.
  lemma CollisionsAreCounted(minimap: Bounds, labels: seq<Bounds>)
    ensures MinimapCollisions(Some(minimap), labels) ==
            |set k: nat | k < |labels| && labels[k].left < minimap.right && labels[k].right > minimap.left
                          && labels[k].top < minimap.bottom && labels[k].bottom > minimap.top|
  {
    var hits := (b: Bounds) => Overlaps(b, minimap, 0.0, 0.0);
    FilterSize(hits, labels);
    assert Where(hits, labels) ==
      set k: nat | k < |labels| && labels[k].left < minimap.right && labels[k].right > minimap.left
                   && labels[k].top < minimap.bottom && labels[k].bottom > minimap.top;
  }

  lemma {:induction false} NothingToFilter<T(!new)>(p: T -> bool, xs: seq<T>)
    requires forall x :: x in xs ==> !p(x)
    ensures Filter(p, xs) == []
  {
    if xs != [] {
      NothingToFilter(p, xs[..|xs| - 1]);
    }
  }

  /** Whatever the candidates, drawn labels are pairwise separated, and the published number of minimap collisions is 0. */
  lemma LabelsNeverCollide(lc: Collation, candidates: seq<Candidate>, maximum: nat, minimap: Option<Bounds>, width: real, height: real)
    ensures var labels := Labels(lc, candidates, maximum, minimap, width, height);
            Separated(labels) && MinimapCollisions(minimap, labels) == 0
  {
    var labels := Labels(lc, candidates, maximum, minimap, width, height);
    DrawnAreSeparated(minimap, AllBounds(Budget(lc, candidates, maximum), width, height));
    if minimap.Some? {
      forall b | b in labels ensures !Overlaps(b, minimap.value, 0.0, 0.0) {
        assert !HitsMinimap(minimap, b);
      }
      NothingToFilter((b: Bounds) => Overlaps(b, minimap.value, 0.0, 0.0), labels);
    }
  }

  /** Every label of a candidate whose anchor lies in the label area stays 8 away from both side edges. */
  lemma LabelsStayInside(lc: Collation, candidates: seq<Candidate>, maximum: nat, minimap: Option<Bounds>, width: real, height: real)
    requires width >= 16.0
    requires forall c :: c in candidates ==> c.radius >= 3.0 && c.textWidth >= 0.0 && 0.0 <= c.x <= width
    ensures forall b :: b in Labels(lc, candidates, maximum, minimap, width, height) ==> 8.0 <= b.left <= b.right <= width - 8.0
  {
    var chosen := Budget(lc, candidates, maximum);
    var bounds := AllBounds(chosen, width, height);
    SortedElements(ByPriority(lc), candidates);
    forall b | b in Drawn(minimap, bounds) ensures 8.0 <= b.left <= b.right <= width - 8.0 {
      DrawnAre(minimap, bounds, b);
      var i: nat :| DrawnAs(minimap, bounds, b, i);
      var c := chosen[i];
      assert c in candidates;
      OnCanvas(c.x, c.y, width, height, c.radius, c.textWidth);
    }
  }

  /** Where the open inspector covers a part of the canvas, all drawn labels of anchors in the label area end at least 20 in front of it. */
  lemma LabelsClearOfInspector(
    lc: Collation, candidates: seq<Candidate>, maximum: nat, minimap: Option<Bounds>, canvas: Bounds, panel: Bounds,
    clientWidth: real, height: real)
    requires panel.right > canvas.left && panel.left < canvas.right && panel.bottom > canvas.top && panel.top < canvas.bottom
    requires panel.left - canvas.left >= 28.0
    requires forall c :: c in candidates ==> c.radius >= 3.0 && c.textWidth >= 0.0 && 0.0 <= c.x <= panel.left - canvas.left - 12.0
    ensures var width := LabelViewportRight(canvas, Some(panel), clientWidth);
            forall b :: b in Labels(lc, candidates, maximum, minimap, width, height) ==> b.right + 20.0 <= panel.left - canvas.left
  {
    LabelsStayInside(lc, candidates, maximum, minimap, LabelViewportRight(canvas, Some(panel), clientWidth), height);
  }

  lemma ByPriorityIsOrder(lc: Collation)
    requires IsCollation(lc)
    ensures IsOrder(ByPriority(lc))
  {
    var cmp := ByPriority(lc);
    forall a, b ensures cmp(a, b) < 0 <==> cmp(b, a) > 0 {
      assert lc(a.stableCode, b.stableCode) < 0 <==> lc(b.stableCode, a.stableCode) > 0;
      assert lc(b.stableCode, a.stableCode) < 0 <==> lc(a.stableCode, b.stableCode) > 0;
    }
    forall a, b, c | cmp(a, b) <= 0 && cmp(b, c) <= 0 ensures cmp(a, c) <= 0 {
      if Priority(a) == Priority(b) == Priority(c) {
        assert lc(a.stableCode, b.stableCode) <= 0 && lc(b.stableCode, c.stableCode) <= 0;
      }
    }
  }

  ghost predicate OnlySelected(candidates: seq<Candidate>, selected: Candidate) {
    selected in candidates && selected.selected && forall c :: c in candidates && c.selected ==> c == selected
  }

  lemma SelectedComesFirst(lc: Collation, candidates: seq<Candidate>, selected: Candidate)
    requires IsCollation(lc) && OnlySelected(candidates, selected)
    ensures var ordered := Sort(ByPriority(lc), candidates); ordered != [] && ordered[0] == selected
  {
    var ordered := Sort(ByPriority(lc), candidates);
    ByPriorityIsOrder(lc);
    SortSorts(ByPriority(lc), candidates);
    SortedElements(ByPriority(lc), candidates);
    assert selected in ordered;
    FirstIsLeast(ByPriority(lc), ordered, selected);
    assert ordered[0] in candidates;
  }

  /** The selected node is labelled, whatever else competes, exactly when its own place is clear of the minimap. */
  lemma SelectedIsLabelled(lc: Collation, candidates: seq<Candidate>, selected: Candidate, maximum: nat, minimap: Option<Bounds>, width: real, height: real)
    requires IsCollation(lc) && OnlySelected(candidates, selected) && maximum > 0
    ensures var bounds := AllBounds(Budget(lc, candidates, maximum), width, height);
            && bounds != [] && bounds[0] == BoundsOf(selected, width, height)
            && (IsDrawn(minimap, bounds, 0) <==> !HitsMinimap(minimap, BoundsOf(selected, width, height)))
  {
    SelectedComesFirst(lc, candidates, selected);
    RejectedExactly(minimap, AllBounds(Budget(lc, candidates, maximum), width, height), 0);
  }

  // The label part of `renderFrame`.
  method RenderLabels(lc: Collation, candidates: seq<Candidate>, maximum: nat, minimapVisible: bool, points: nat,
                      canvas: Bounds, inspector: Option<Bounds>, clientWidth: real, clientHeight: real)
    returns (rendered: seq<Bounds>, collisions: nat)
    ensures var minimap := Minimap(minimapVisible, points, clientWidth, clientHeight);
            rendered == Labels(lc, candidates, maximum, minimap, LabelViewportRight(canvas, inspector, clientWidth), clientHeight)
    ensures collisions == 0
  {
    var width := LabelViewportRight(canvas, inspector, clientWidth);
    var minimap := Minimap(minimapVisible, points, clientWidth, clientHeight);
    var occupied := MinimapFirst(minimap);
    rendered := [];
    var chosen := Budget(lc, candidates, maximum);
    ghost var bounds := AllBounds(chosen, width, clientHeight);
    for i := 0 to |chosen|
      invariant rendered == Drawn(minimap, bounds[..i])
      invariant occupied == MinimapFirst(minimap) + rendered
    {
      assert bounds[..i + 1][..i] == bounds[..i];
      var placed := BoundsOf(chosen[i], width, clientHeight);
      if Accepted(placed, occupied) {
        occupied := occupied + [placed];
        rendered := rendered + [placed];
      }
    }
    assert bounds[..|chosen|] == bounds;
    collisions := MinimapCollisions(minimap, rendered);
    LabelsNeverCollide(lc, candidates, maximum, minimap, width, clientHeight);
  }
}
