/** Rows of clickable labels, packed in order into as few rows as will do. */
module FlowLayout {
  import opened Bytes
  import opened Cells

  /** A label, and the one used instead when room is short, if it is not empty. */
  datatype Item = Item(full: string, short: string)

  type Row = seq<nat>

  function Text(it: Item, short: bool): string {
    if short && it.short != "" then it.short else it.full
  }

  /** The cells each item's text takes. */
  function Widths(wide: WideRunes, items: seq<Item>, short: bool): (ws: seq<nat>)
    ensures |ws| == |items|
  {
    seq(|items|, i requires 0 <= i < |items| => StringWidth(wide, Text(items[i], short)))
  }

  // ----- packings -----

  function UpTo(n: nat): (s: seq<nat>)
    ensures |s| == n
  {
    seq(n, i => i)
  }

  /** The cells that the items from a up to b take side by side. */
  function Span(ws: seq<nat>, gap: nat, a: nat, b: nat): nat
    requires a < b <= |ws|
    decreases b
  {
    if b == a + 1 then ws[a] else Span(ws, gap, a, b - 1) + gap + ws[b - 1]
  }

  predicate Fits(row: Row, ws: seq<nat>, width: int, gap: nat) {
    |row| >= 2 ==> row[0] + |row| <= |ws| && Span(ws, gap, row[0], row[0] + |row|) <= width
  }

  /** The first n items in order, in rows none of which is empty, and each of which fits or is one item. */
  predicate Packing(rows: seq<Row>, ws: seq<nat>, n: nat, width: int, gap: nat) {
    Concat(rows) == UpTo(n) && forall i | 0 <= i < |rows| :: rows[i] != [] && Fits(rows[i], ws, width, gap)
  }

  lemma Last(rows: seq<Row>, ws: seq<nat>, n: nat, width: int, gap: nat)
    requires Packing(rows, ws, n, width, gap) && n > 0
    ensures rows != []
    ensures var last := rows[|rows| - 1];
            |last| <= n && forall j | 0 <= j < |last| :: last[j] == n - |last| + j
  {
    assert |Concat(rows)| == n;
    var init, last := Concat(rows[..|rows| - 1]), rows[|rows| - 1];
    forall j | 0 <= j < |last| ensures last[j] == n - |last| + j {
      assert (init + last)[|init| + j] == last[j];
    }
  }

  /** The packing without its last item. */
  function WithoutLast(rows: seq<Row>): seq<Row>
    requires rows != [] && rows[|rows| - 1] != []
  {
    var init, last := rows[..|rows| - 1], rows[|rows| - 1];
    if |last| == 1 then init else init + [last[..|last| - 1]]
  }

  lemma ConcatOneMore(rows: seq<Row>, row: Row)
    ensures Concat(rows + [row]) == Concat(rows) + row
  {
    assert (rows + [row])[..|rows|] == rows;
  }

  lemma PackingWithoutLast(rows: seq<Row>, ws: seq<nat>, n: nat, width: int, gap: nat)
    requires 0 < n <= |ws| && Packing(rows, ws, n, width, gap)
    ensures rows != [] && rows[|rows| - 1] != [] && Packing(WithoutLast(rows), ws, n - 1, width, gap)
  {
    Last(rows, ws, n, width, gap);
    var init, last := rows[..|rows| - 1], rows[|rows| - 1];
    var shorter := last[..|last| - 1];
    assert UpTo(n - 1) == UpTo(n)[..n - 1];
    assert (Concat(init) + last)[..n - 1] == Concat(init) + shorter;
    if |last| == 1 {
      assert Concat(init) + shorter == Concat(init);
    } else {
      ConcatOneMore(init, shorter);
    }
  }

  /** A later start makes a row no wider. */
  lemma {:induction false} LaterIsNarrower(ws: seq<nat>, gap: nat, a: nat, c: nat, b: nat)
    requires a <= c < b <= |ws|
    ensures Span(ws, gap, c, b) <= Span(ws, gap, a, b)
    decreases b
  {
    if c + 1 < b {
      LaterIsNarrower(ws, gap, a, c, b - 1);
    }
  }

  /** No packing has fewer rows, and none with as many has a shorter last row. */
  ghost predicate Best(rows: seq<Row>, ws: seq<nat>, n: nat, width: int, gap: nat) {
    forall other | Packing(other, ws, n, width, gap) :: NoBetter(other, rows)
  }

  predicate NoBetter(other: seq<Row>, rows: seq<Row>) {
    |other| > |rows| || (|other| == |rows| && (rows == [] || |other[|other| - 1]| >= |rows[|rows| - 1]|))
  }

  /** The packing that goes on its last row. */
  lemma BestStays(rows: seq<Row>, row: Row, ws: seq<nat>, i: nat, width: int, gap: nat)
    requires i < |ws| && row != [] && Best(rows + [row], ws, i, width, gap)
    ensures Best(rows + [row + [i]], ws, i + 1, width, gap)
  {
    forall other | Packing(other, ws, i + 1, width, gap) ensures NoBetter(other, rows + [row + [i]]) {
      PackingWithoutLast(other, ws, i + 1, width, gap);
      var q := WithoutLast(other);
      hide Packing;
      assert NoBetter(q, rows + [row]);
    }
  }

  lemma NoBetterThanBreaking(other: seq<Row>, rows: seq<Row>, row: Row, ws: seq<nat>, i: nat, width: int, gap: nat)
    requires i < |ws| && 0 < |row| <= i && Best(rows + [row], ws, i, width, gap)
    requires Span(ws, gap, i - |row|, i + 1) > width && Packing(other, ws, i + 1, width, gap)
    ensures NoBetter(other, rows + [row] + [[i]])
  {
    PackingWithoutLast(other, ws, i + 1, width, gap);
    Last(other, ws, i + 1, width, gap);
    var q, last := WithoutLast(other), other[|other| - 1];
    assert NoBetter(q, rows + [row]) && Fits(last, ws, width, gap);
    hide Packing;
    hide Best;
    if |last| > |row| {
      LaterIsNarrower(ws, gap, i + 1 - |last|, i - |row|, i + 1);
      hide Span;
    }
  }

  /** The packing that starts a row because the item does not fit on the last one. */
  lemma BestBreaks(rows: seq<Row>, row: Row, ws: seq<nat>, i: nat, width: int, gap: nat)
    requires i < |ws| && 0 < |row| <= i && Best(rows + [row], ws, i, width, gap)
    requires Span(ws, gap, i - |row|, i + 1) > width
    ensures Best(rows + [row] + [[i]], ws, i + 1, width, gap)
  {
    hide Packing;
    forall other | Packing(other, ws, i + 1, width, gap) ensures NoBetter(other, rows + [row] + [[i]]) {
      NoBetterThanBreaking(other, rows, row, ws, i, width, gap);
    }
  }

  lemma BestFirst(ws: seq<nat>, width: int, gap: nat)
    ensures Best([], ws, 0, width, gap)
    ensures |ws| > 0 ==> Best([[0]], ws, 1, width, gap)
  {
    if |ws| > 0 {
      forall other | Packing(other, ws, 1, width, gap) ensures NoBetter(other, [[0]]) {
        Last(other, ws, 1, width, gap);
      }
    }
  }

  /** A row more, or an item more on the last row, is still a packing. */
  lemma PackingBreaks(rows: seq<Row>, ws: seq<nat>, i: nat, width: int, gap: nat)
    requires Packing(rows, ws, i, width, gap)
    ensures Packing(rows + [[i]], ws, i + 1, width, gap)
  {
    ConcatOneMore(rows, [i]);
    assert UpTo(i + 1) == UpTo(i) + [i];
  }

  lemma PackingStays(rows: seq<Row>, row: Row, ws: seq<nat>, i: nat, width: int, gap: nat)
    requires i < |ws| && 0 < |row| <= i && Packing(rows + [row], ws, i, width, gap)
    requires Span(ws, gap, i - |row|, i + 1) <= width
    ensures Packing(rows + [row + [i]], ws, i + 1, width, gap)
  {
    Last(rows + [row], ws, i, width, gap);
    assert (rows + [row])[|rows|] == row;
    ConcatOneMore(rows, row);
    ConcatOneMore(rows, row + [i]);
    assert UpTo(i + 1) == UpTo(i) + [i];
    assert Concat(rows) + (row + [i]) == Concat(rows) + row + [i];
    var after := rows + [row + [i]];
    forall k | 0 <= k < |after| ensures after[k] != [] && Fits(after[k], ws, width, gap) {
      assert k < |rows| ==> after[k] == (rows + [row])[k];
    }
  }

  /** Packs the items in order, each on the row of the one before while it fits: no packing has fewer
      rows. */
  method Pack(wide: WideRunes, items: seq<Item>, width: int, gap: nat, short: bool) returns (rows: seq<Row>)
    ensures Packing(rows, Widths(wide, items, short), |items|, width, gap)
    ensures Best(rows, Widths(wide, items, short), |items|, width, gap)
  {
    ghost var ws := Widths(wide, items, short);
    hide Packing;
    hide Best;
    rows := [];
    var row: Row := [];
    var used := 0;
    BestFirst(ws, width, gap);
    PackingNone(ws, width, gap);
    for i := 0 to |items|
      invariant if i == 0 then rows == [] && row == [] && used == 0 else 0 < |row| <= i && used == Span(ws, gap, i - |row|, i)
      invariant Packing(if row == [] then rows else rows + [row], ws, i, width, gap)
      invariant Best(if row == [] then rows else rows + [row], ws, i, width, gap)
    {
      var w := StringWidth(wide, Text(items[i], short));
      assert w == ws[i];
      ghost var next: seq<Row>, last: Row;
      if i == 0 {
        PackingBreaks([], ws, i, width, gap);
        next, last := [] + [[i]], [i];
        assert next == [[0]];
      } else if used + gap + w > width {
        BestBreaks(rows, row, ws, i, width, gap);
        PackingBreaks(rows + [row], ws, i, width, gap);
        next, last := rows + [row] + [[i]], [i];
      } else {
        BestStays(rows, row, ws, i, width, gap);
        PackingStays(rows, row, ws, i, width, gap);
        next, last := rows + [row + [i]], row + [i];
      }
      if |row| > 0 && used + gap + w > width {
        rows := rows + [row];
        row, used := [], 0;
      }
      if |row| > 0 {
        used := used + gap;
      }
      row := row + [i];
      used := used + w;
      assert row == last && rows + [row] == next;
    }
    if |row| > 0 {
      rows := rows + [row];
    }
  }

  lemma PackingNone(ws: seq<nat>, width: int, gap: nat)
    ensures Packing([], ws, 0, width, gap)
  {
  }

  // ----- full and short labels -----

  /** A packing of some widths is one of any narrower ones. */
  lemma NarrowerPacks(rows: seq<Row>, ws: seq<nat>, vs: seq<nat>, width: int, gap: nat)
    requires |ws| == |vs| && (forall i | 0 <= i < |ws| :: vs[i] <= ws[i]) && Packing(rows, ws, |ws|, width, gap)
    ensures Packing(rows, vs, |vs|, width, gap)
  {
    hide Concat;
    forall k | 0 <= k < |rows| ensures Fits(rows[k], vs, width, gap) {
      if |rows[k]| >= 2 {
        NarrowerSpan(ws, vs, gap, rows[k][0], rows[k][0] + |rows[k]|);
      }
    }
  }

  lemma {:induction false} NarrowerSpan(ws: seq<nat>, vs: seq<nat>, gap: nat, a: nat, b: nat)
    requires |ws| == |vs| && a < b <= |ws| && forall i | 0 <= i < |ws| :: vs[i] <= ws[i]
    ensures Span(vs, gap, a, b) <= Span(ws, gap, a, b)
    decreases b
  {
    if b > a + 1 {
      NarrowerSpan(ws, vs, gap, a, b - 1);
    }
  }

  /** Labels no wider never need more rows. */
  lemma NarrowerNeedsNoMore(rows: seq<Row>, ws: seq<nat>, narrow: seq<Row>, vs: seq<nat>, width: int, gap: nat)
    requires |ws| == |vs| && forall i | 0 <= i < |ws| :: vs[i] <= ws[i]
    requires Packing(rows, ws, |ws|, width, gap) && Best(narrow, vs, |vs|, width, gap)
    ensures |narrow| <= |rows|
  {
    NarrowerPacks(rows, ws, vs, width, gap);
    hide Packing;
    assert NoBetter(rows, narrow);
  }

  /** The rows, and whether they hold the short labels. */
  datatype Layout = Layout(rows: seq<Row>, short: bool)

  /** Packs the full labels, or the short ones when no packing of the full ones has few enough rows. */
  method LayoutFlow(wide: WideRunes, items: seq<Item>, width: int, gap: nat, maxRows: int) returns (fl: Layout)
    ensures Packing(fl.rows, Widths(wide, items, fl.short), |items|, width, gap)
    ensures Best(fl.rows, Widths(wide, items, fl.short), |items|, width, gap)
    ensures !fl.short <==> exists rows :: Packing(rows, Widths(wide, items, false), |items|, width, gap) && |rows| <= maxRows
    ensures ShortIsNarrower(wide, items)
         ==> forall rows | Packing(rows, Widths(wide, items, false), |items|, width, gap) :: |fl.rows| <= |rows|
  {
    ghost var full, narrow := Widths(wide, items, false), Widths(wide, items, true);
    hide Packing;
    var rows := Pack(wide, items, width, gap, false);
    if |rows| <= maxRows {
      return Layout(rows, false);
    }
    assert !exists other :: Packing(other, full, |items|, width, gap) && |other| <= maxRows by {
      assert forall other | Packing(other, full, |items|, width, gap) :: NoBetter(other, rows);
    }
    rows := Pack(wide, items, width, gap, true);
    if ShortIsNarrower(wide, items) {
      forall other | Packing(other, full, |items|, width, gap) ensures |rows| <= |other| {
        NarrowerNeedsNoMore(other, full, rows, narrow, width, gap);
      }
    }
    return Layout(rows, true);
  }

  predicate ShortIsNarrower(wide: WideRunes, items: seq<Item>) {
    forall i | 0 <= i < |items| :: StringWidth(wide, Text(items[i], true)) <= StringWidth(wide, Text(items[i], false))
  }
}
