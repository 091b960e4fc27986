/**
 * The window of rows that the Infrastructure tree renders, and scrolling a row into view.
 *
 * Rows have a fixed height; those in view are rendered with some more on both sides, so that
 * the row the focus moves to exists when it is focused.
 */
module VirtualWindow {

  const ROW_HEIGHT := 58
  const OVERSCAN := 8

  function Ceil(x: real): int {
    -((-x).Floor)
  }

  function First(scrollTop: real): int {
    var first := (scrollTop / ROW_HEIGHT as real).Floor - OVERSCAN;
    if first > 0 then first else 0
  }

  function Last(rows: nat, scrollTop: real, height: real): int {
    var last := Ceil((scrollTop + height) / ROW_HEIGHT as real) + OVERSCAN;
    if last < rows then last else rows
  }

  function Top(index: nat): real {
    (index * ROW_HEIGHT) as real
  }

  function Bottom(index: nat): real {
    Top(index) + ROW_HEIGHT as real
  }

  predicate Visible(scrollTop: real, height: real, index: nat) {
    Top(index) < scrollTop + height && Bottom(index) > scrollTop
  }

  predicate FullyVisible(scrollTop: real, height: real, index: nat) {
    scrollTop <= Top(index) && Bottom(index) <= scrollTop + height
  }

  predicate Rendered(rows: nat, scrollTop: real, height: real, index: nat) {
    First(scrollTop) <= index < Last(rows, scrollTop, height)
  }

  /** Every row of which any part is in view is rendered. */
  lemma WindowCoversView(rows: nat, scrollTop: real, height: real, index: nat)
    requires index < rows && Visible(scrollTop, height, index)
    ensures Rendered(rows, scrollTop, height, index)
  {
    var i := index as real;
    assert Top(index) == i * 58.0;
    assert scrollTop / 58.0 < i + 1.0;
    assert i < (scrollTop + height) / 58.0;
  }

  /** The rendered rows are exactly those of which a part lies within 8 rows of the view. */
  lemma WindowIsExactly(rows: nat, scrollTop: real, height: real, index: nat)
    requires index < rows
    ensures Rendered(rows, scrollTop, height, index) <==>
            Bottom(index) + 464.0 > scrollTop && Top(index) < scrollTop + height + 464.0
  {
    var i := index as real;
    assert Top(index) == i * 58.0 && Bottom(index) == (i + 1.0) * 58.0;
    assert scrollTop / 58.0 < i + 9.0 <==> Bottom(index) + 464.0 > scrollTop;
    assert i - 8.0 < (scrollTop + height) / 58.0 <==> Top(index) < scrollTop + height + 464.0;
  }

  /** `ensureIndexIsVisible` */
  function EnsureVisible(scrollTop: real, height: real, index: nat): real {
    if Bottom(index) > scrollTop + height then Bottom(index) - height
    else if Top(index) < scrollTop then Top(index)
    else scrollTop
  }

  /** The whole row is in view afterwards exactly when the viewport can hold it, and scrolling happens exactly when it was not in view before. */
  lemma ScrollsIntoView(scrollTop: real, height: real, index: nat)
    ensures FullyVisible(EnsureVisible(scrollTop, height, index), height, index) <==> height >= ROW_HEIGHT as real
    ensures EnsureVisible(scrollTop, height, index) == scrollTop <==> FullyVisible(scrollTop, height, index)
  {}

  function Distance(a: real, b: real): real {
    if a < b then b - a else a - b
  }

  /** No offset that shows the whole row is nearer to the one before. */
  lemma ScrollsLeast(scrollTop: real, height: real, index: nat, other: real)
    requires FullyVisible(other, height, index)
    ensures Distance(EnsureVisible(scrollTop, height, index), scrollTop) <= Distance(other, scrollTop)
  {}

  function MaximumScrollTop(rows: nat, height: real): real {
    var rest := (rows * ROW_HEIGHT) as real - height;
    if rest > 0.0 then rest else 0.0
  }

  /** At the greatest offset the last row ends where the view ends; a list that fits into the view does not scroll. */
  lemma EndOfList(rows: nat, height: real)
    requires rows > 0
    ensures if Bottom(rows - 1) > height then Bottom(rows - 1) == MaximumScrollTop(rows, height) + height
            else MaximumScrollTop(rows, height) == 0.0
  {
    assert Bottom(rows - 1) == (rows * ROW_HEIGHT) as real;
  }

  /** Whatever the height, the row that the focus moves to is rendered afterwards, at an offset within the list. */
  lemma FocusedRowIsRendered(rows: nat, scrollTop: real, height: real, index: nat)
    requires index < rows && height >= 0.0 && 0.0 <= scrollTop <= MaximumScrollTop(rows, height)
    ensures var next := EnsureVisible(scrollTop, height, index);
            Rendered(rows, next, height, index) && 0.0 <= next <= MaximumScrollTop(rows, height)
  {
    assert Bottom(index) <= (rows * ROW_HEIGHT) as real;
    var next, i := EnsureVisible(scrollTop, height, index), index as real;
    assert Top(index) == i * 58.0 && Bottom(index) == (i + 1.0) * 58.0;
    assert next / 58.0 < i + 2.0 by {
      assert next <= Bottom(index);
    }
    assert i <= (next + height) / 58.0;
  }
}
