/**
 * The meeting notes as the extraction steps see them: one flat sequence of
 * sibling nodes. The previous or next sibling of the node at index `i` is
 * the node at `i - 1` or `i + 1`; `None` is running off either end.
 */
module Dom {
  import opened Base

  /**
   * A table row: whether it carries a `height` attribute, its whole text,
   * and the paragraph text of each of its cells.
   */
  datatype Row = Row(hasHeight: bool, text: string, cells: seq<string>)

  /**
   * A paragraph with its class list (empty when it has no `class`
   * attribute), a table, or any other element.
   */
  datatype Node =
    | P(classes: seq<string>, text: string)
    | Table(rows: seq<Row>)
    | Other(content: string)

  function RowsText(rows: seq<Row>): string {
    if rows == [] then [] else rows[0].text + RowsText(rows[1..])
  }

  /** `node.get_text()` */
  function Text(n: Node): string {
    match n
    case P(_, t) => t
    case Table(rows) => RowsText(rows)
    case Other(t) => t
  }

  /** A paragraph whose class list holds `c`, as `find_*("p", {"class": c})` selects. */
  predicate HasClass(n: Node, c: string) {
    n.P? && c in n.classes
  }

  /** `table.find_all('td')`: the cells of all rows, in document order. */
  function AllCells(rows: seq<Row>): (r: seq<string>)
    ensures |rows| > 0 ==> |r| >= |rows[0].cells|
  {
    if rows == [] then [] else rows[0].cells + AllCells(rows[1..])
  }

  /**
   * `table.find_all('tr', attrs={'height': None})`: the rows without a
   * height; `PlainRowsCounts` gives how often each is kept and
   * `PlainRowsAppend` the document order.
   */
  function PlainRows(rows: seq<Row>): (r: seq<Row>)
    ensures |r| <= |rows|
    ensures forall x :: x in r ==> x in rows && !x.hasHeight
  {
    if rows == [] then []
    else
      var rest := PlainRows(rows[1..]);
      assert forall x :: x in rows[1..] ==> x in rows;
      if rows[0].hasHeight then rest else [rows[0]] + rest
  }

  /**
   * Each row without a height is kept as often as `rows` has it, so every
   * such row is kept; the others are dropped.
   */
  lemma {:induction false} PlainRowsCounts(rows: seq<Row>)
    ensures forall x :: multiset(PlainRows(rows))[x] == if x.hasHeight then 0 else multiset(rows)[x]
    decreases |rows|
  {
    if rows != [] {
      PlainRowsCounts(rows[1..]);
      assert rows == [rows[0]] + rows[1..];
    }
  }

  /**
   * Selecting the rows of two stretches of rows is selecting in each, in
   * order: with `PlainRows([x])` keeping `x` exactly when it has no
   * height, this fixes `PlainRows` as the in-order filter.
   */
  lemma {:induction false} PlainRowsAppend(a: seq<Row>, b: seq<Row>)
    ensures PlainRows(a + b) == PlainRows(a) + PlainRows(b)
    ensures |a| == 1 ==> PlainRows(a) == if a[0].hasHeight then [] else a
    decreases |a|
  {
    if a == [] {
      assert a + b == b;
    } else {
      var ab := a + b;
      var head := if a[0].hasHeight then [] else [a[0]];
      assert PlainRows(ab) == head + PlainRows(a[1..] + b) by {
        assert ab[0] == a[0] && ab[1..] == a[1..] + b;
      }
      PlainRowsAppend(a[1..], b);
      AppendAssoc(head, PlainRows(a[1..]), PlainRows(b));
      if |a| == 1 {
        assert a[1..] == [] && a == [a[0]];
      }
    }
  }

  /**
   * `doc[pos].find_previous_sibling("p", {"class": c})`: the nearest
   * paragraph of class `c` strictly before `pos`.
   */
  function PrevWithClass(doc: seq<Node>, pos: int, c: string): (r: Option<nat>)
    requires pos <= |doc|
    ensures r.Some? ==>
      r.value < pos && HasClass(doc[r.value], c) && forall k :: r.value < k < pos ==> !HasClass(doc[k], c)
    ensures r.None? ==> forall k :: 0 <= k < pos ==> !HasClass(doc[k], c)
    decreases pos
  {
    if pos <= 0 then None
    else if HasClass(doc[pos - 1], c) then Some(pos - 1)
    else PrevWithClass(doc, pos - 1, c)
  }
}
