/** Which rows of the settings dialog are shown, at every height and scroll. */
module SettingsRows {
  /** The rows the content is laid out for. */
  const ALL_ROWS: nat := 28

  const METER_BARS := 2
  const FIRST := 4
  const LAST := 24
  const BUTTONS := 26

  /** A line with nothing on it. */
  const BLANK := -1

  /** The settings take every other row. */
  const SETTINGS: nat := 11

  function Max(a: int, b: int): int {
    if a > b then a else b
  }

  function Min(a: int, b: int): int {
    if a < b then a else b
  }

  // ----- spreading -----

  function Times(a: nat, b: nat): nat {
    MulAtMost(0, a, b);
    a * b
  }

  /** Where number j of count marks goes among places. */
  function Spread(j: nat, places: nat, count: nat): nat
    requires count > 0
  {
    Times(2 * j + 1, places) / (2 * count)
  }

  lemma DivStep(a: nat, b: nat, d: nat)
    requires d > 0 && a + d <= b
    ensures a / d < b / d
  {
    var q, r := a / d, a % d;
    assert a == q * d + r;
    assert b >= (q + 1) * d;
    DivAtLeast(b, q + 1, d);
  }

  lemma DivAtLeast(b: nat, q: nat, d: nat)
    requires d > 0 && b >= q * d
    ensures b / d >= q
  {
    var p, r := b / d, b % d;
    assert b == p * d + r && r < d;
    assert (p + 1) * d == p * d + d;
    if p < q {
      MulAtMost(p + 1, q, d);
    }
  }

  lemma MulAtMost(a: nat, b: nat, d: nat)
    requires a <= b
    ensures a * d <= b * d
  {
    assert b * d == a * d + (b - a) * d;
    assert (b - a) * d >= 0;
  }

  lemma DivBelow(a: nat, q: nat, d: nat)
    requires d > 0 && a < q * d
    ensures a / d < q
  {
    var p, r := a / d, a % d;
    assert a == p * d + r;
    if p >= q {
      MulAtMost(q, p, d);
    }
  }

  /** Marks no more than the places go to different ones, in order. */
  lemma SpreadApart(j: nat, k: nat, places: nat, count: nat)
    requires j < k < count <= places
    ensures Spread(j, places, count) < Spread(k, places, count) < places
  {
    var a, b := Times(2 * j + 1, places), Times(2 * k + 1, places);
    assert b == a + 2 * ((k - j) * places);
    MulAtMost(1, k - j, places);
    DivStep(a, b, 2 * count);
    SpreadInside(k, places, count);
  }

  lemma SpreadInside(k: nat, places: nat, count: nat)
    requires k < count <= places
    ensures Spread(k, places, count) < places
  {
    MulAtMost(2 * k + 1, 2 * count - 1, places);
    assert (2 * count - 1) * places == places * (2 * count) - places;
    DivBelow(Times(2 * k + 1, places), places, 2 * count);
  }

  lemma DivIs(a: nat, d: nat)
    requires d > 0
    ensures a / d * d <= a < a / d * d + d
  {
  }

  /** Of count equal shares of the places, mark j goes to the place that holds the middle of share j. */
  lemma SpreadInTheMiddle(j: nat, places: nat, count: nat)
    requires j < count
    ensures var p := Spread(j, places, count); p * (2 * count) <= (2 * j + 1) * places < (p + 1) * (2 * count)
  {
    var p := Spread(j, places, count);
    DivIs(Times(2 * j + 1, places), 2 * count);
    assert (p + 1) * (2 * count) == p * (2 * count) + 2 * count;
  }

  /** So the marks are evenly spread: how far apart any two are is within one place of their even distance. */
  lemma SpreadEvenly(j: nat, k: nat, places: nat, count: nat)
    requires j < k < count <= places
    ensures var apart := Spread(k, places, count) - Spread(j, places, count);
            (apart - 1) * count < (k - j) * places < (apart + 1) * count
  {
    var p, q := Spread(j, places, count), Spread(k, places, count);
    SpreadInTheMiddle(j, places, count);
    SpreadInTheMiddle(k, places, count);
    hide Spread;
    Apart(p, q, j, k, places, count);
  }

  lemma Apart(p: nat, q: nat, j: nat, k: nat, places: nat, count: nat)
    requires p * (2 * count) <= (2 * j + 1) * places < (p + 1) * (2 * count)
    requires q * (2 * count) <= (2 * k + 1) * places < (q + 1) * (2 * count)
    ensures (q - p - 1) * count < (k - j) * places < (q - p + 1) * count
  {
    var a, b := (2 * j + 1) * places, (2 * k + 1) * places;
    assert b - a == 2 * ((k - j) * places);
    assert (p + 1) * (2 * count) == p * (2 * count) + 2 * count && (q + 1) * (2 * count) == q * (2 * count) + 2 * count;
    assert q * (2 * count) - p * (2 * count) == 2 * ((q - p) * count);
    assert (q - p - 1) * count == (q - p) * count - count && (q - p + 1) * count == (q - p) * count + count;
  }

  /** How many of the first k marks go before place n. */
  function Before(n: nat, k: nat, places: nat, count: nat): nat
    requires k <= count
  {
    if k == 0 then 0 else Before(n, k - 1, places, count) + if Spread(k - 1, places, count) < n then 1 else 0
  }

  predicate Marked(n: nat, k: nat, places: nat, count: nat)
    requires k <= count
  {
    exists j | 0 <= j < k :: Spread(j, places, count) == n
  }

  /** A place takes one mark at most. */
  lemma {:induction false} OnePlaceMore(n: nat, k: nat, places: nat, count: nat)
    requires k <= count <= places
    ensures Before(n + 1, k, places, count) == Before(n, k, places, count) + if Marked(n, k, places, count) then 1 else 0
  {
    if k > 0 {
      hide Spread;
      OnePlaceMore(n, k - 1, places, count);
      var p := Spread(k - 1, places, count);
      if p == n {
        forall j | 0 <= j < k - 1 ensures Spread(j, places, count) != n {
          SpreadApart(j, k - 1, places, count);
        }
      } else {
        assert Marked(n, k, places, count) <==> Marked(n, k - 1, places, count);
      }
    }
  }

  lemma {:induction false} AllBefore(n: nat, k: nat, places: nat, count: nat)
    requires k <= count <= places <= n
    ensures Before(n, k, places, count) == k
  {
    if k > 0 {
      AllBefore(n, k - 1, places, count);
      SpreadInside(k - 1, places, count);
      hide Spread;
    }
  }

  lemma {:induction false} NoneBefore(k: nat, places: nat, count: nat)
    requires k <= count
    ensures Before(0, k, places, count) == 0
  {
    if k > 0 {
      NoneBefore(k - 1, places, count);
      hide Spread;
    }
  }

  // ----- the rows shown -----

  function Numbers(n: nat): (r: seq<int>)
    ensures |r| == n
  {
    seq(n, i => i)
  }

  function Blanks(n: int): (r: seq<int>)
    ensures |r| == Max(0, n)
  {
    seq(Max(0, n), _ => BLANK)
  }

  function Settings(): (r: seq<int>)
    ensures |r| == SETTINGS
  {
    seq(SETTINGS, i => FIRST + 2 * i)
  }

  /** The rows above the settings: title, meter and, where there is room, its bars. */
  function TopCount(height: int): (n: nat)
    ensures n <= 4
  {
    var n := if height < 4 + SETTINGS + 1 then 2 else 4;
    if height < n + 3 + 1 then Max(0, Min(n, height - 2)) else n
  }

  function Window(height: int): nat {
    Max(0, height - TopCount(height) - 1)
  }

  /** Four rows stand above the settings from a height of sixteen on, then two, and fewer when there is room for less
      than one setting beside them. */
  lemma TopRowsAre(height: int)
    ensures TopCount(height) == if height >= 16 then 4 else if height >= 4 then 2 else if height == 3 then 1 else 0
    ensures height >= 2 ==> Window(height) >= 1
    ensures height >= 6 ==> Window(height) >= 3
  {
  }

  const GAPS: nat := SETTINGS - 1

  /** How many blank lines go between settings. */
  function GapCount(height: int): (g: nat)
    ensures g <= GAPS
  {
    Max(0, Min(height - 2 - TopCount(height) - SETTINGS, GAPS))
  }

  /** The first n settings, with blank lines after the marked ones. */
  function WithGaps(n: nat, count: nat): seq<int>
    requires n <= SETTINGS && count <= GAPS
  {
    if n == 0 then []
    else WithGaps(n - 1, count) + [FIRST + 2 * (n - 1)] + if Marked(n - 1, count, GAPS, count) then [BLANK] else []
  }

  /** Rows, padded to one less than height, and the buttons. */
  function Finished(rows: seq<int>, height: int): seq<int> {
    rows + Blanks(height - 1 - |rows|) + [BUTTONS]
  }

  function Scrolled(height: int, scroll: int): int {
    Max(0, Min(scroll, SETTINGS - Window(height)))
  }

  datatype Shown = Shown(rows: seq<int>, scrolled: int, moreAbove: bool, moreBelow: bool)

  function RowMap(height: int, scroll: int): Shown {
    if height >= ALL_ROWS then Shown(Numbers(ALL_ROWS), 0, false, false)
    else if height <= 0 then Shown([], 0, false, false)
    else if height >= LAST + 2 then Shown(Finished(Numbers(LAST + 1), height), 0, false, false)
    else if Window(height) >= SETTINGS then
      Shown(Finished(Numbers(TopCount(height)) + WithGaps(SETTINGS, GapCount(height)), height), 0, false, false)
    else
      var at, window := Scrolled(height, scroll), Window(height);
      Shown(Numbers(TopCount(height)) + Settings()[at..at + window] + [BUTTONS], at, at > 0, at + window < SETTINGS)
  }

  method Pad(rows: seq<int>, height: int) returns (r: seq<int>)
    ensures r == rows + Blanks(height - 1 - |rows|)
  {
    r := rows;
    while |r| < height - 1
      invariant |rows| <= |r| && (|r| <= height - 1 || r == rows) && r == rows + Blanks(|r| - |rows|)
    {
      r := r + [BLANK];
    }
  }

  /** The rows of the settings dialog that a dialog height rows tall shows, blank lines among them, and how
      far its settings are scrolled. */
  method TestModalRowMap(height: int, scroll: int) returns (shown: Shown)
    ensures shown == RowMap(height, scroll)
  {
    hide WithGaps;
    hide Settings;
    var rows: seq<int> := [];
    if height >= ALL_ROWS {
      for v := 0 to ALL_ROWS
        invariant rows == Numbers(v)
      {
        rows := rows + [v];
      }
      return Shown(rows, 0, false, false);
    }
    if height <= 0 {
      return Shown([], 0, false, false);
    }
    if height >= LAST + 2 {
      for v := 0 to LAST + 1
        invariant rows == Numbers(v)
      {
        rows := rows + [v];
      }
      rows := Pad(rows, height);
      return Shown(rows + [BUTTONS], 0, false, false);
    }

    var settings := AllSettings();
    var top := [0, 1, METER_BARS, METER_BARS + 1];
    if height < |top| + |settings| + 1 {
      top := top[..2];
    }
    if height < |top| + 3 + 1 {
      top := top[..Max(0, Min(|top|, height - 2))];
    }
    assert top == Numbers(TopCount(height));
    var window := Max(0, height - |top| - 1);
    assert window == Window(height);
    hide TopCount;
    hide Window;
    hide Numbers;
    if window >= |settings| {
      var spread := SpreadSettings(settings, Min(height - 2 - |top| - |settings|, |settings| - 1));
      rows := Pad(top + spread, height);
      return Shown(rows + [BUTTONS], 0, false, false);
    }
    var at := Max(0, Min(scroll, |settings| - window));
    rows := top + settings[at..at + window];
    return Shown(rows + [BUTTONS], at, at > 0, at + window < |settings|);
  }

  method AllSettings() returns (settings: seq<int>)
    ensures settings == Settings()
  {
    settings := [];
    var v := FIRST;
    while v <= LAST
      invariant v == FIRST + 2 * |settings| && |settings| <= SETTINGS && settings == Settings()[..|settings|]
    {
      settings := settings + [v];
      v := v + 2;
    }
  }

  /** The settings with g blank lines spread evenly between them. */
  method SpreadSettings(settings: seq<int>, g: int) returns (rows: seq<int>)
    requires settings == Settings() && g <= GAPS
    ensures rows == WithGaps(SETTINGS, Max(0, g))
  {
    var gaps := MarkGaps(g);
    ghost var count: nat := Max(0, g);
    hide WithGaps;
    hide Marked;
    NoneYet(count);
    rows := [];
    for i := 0 to |settings|
      modifies {}
      invariant rows == WithGaps(i, count)
    {
      OneSettingMore(i, count);
      assert settings[i] == FIRST + 2 * i;
      rows := rows + [settings[i]];
      assert rows + [] == rows;
      if i < gaps.Length && gaps[i] {
        rows := rows + [BLANK];
      }
    }
  }

  /** Marks the gaps that g blank lines go to. */
  method MarkGaps(g: int) returns (gaps: array<bool>)
    requires g <= GAPS
    ensures fresh(gaps) && gaps.Length == GAPS && forall i | 0 <= i < gaps.Length :: gaps[i] <==> Marked(i, Max(0, g), GAPS, Max(0, g))
  {
    gaps := new bool[GAPS](_ => false);
    ghost var count: nat := Max(0, g);
    if g > 0 {
      for j := 0 to g
        invariant forall i | 0 <= i < gaps.Length :: gaps[i] <==> Marked(i, j, GAPS, count)
      {
        SpreadInside(j, GAPS, count);
        var at := (2 * j + 1) * gaps.Length / (2 * g);
        assert at == Spread(j, GAPS, count);
        hide Spread;
        gaps[at] := true;
      }
    }
  }

  lemma NoneYet(count: nat)
    requires count <= GAPS
    ensures WithGaps(0, count) == []
  {
  }

  lemma NotMarkedBeyond(n: nat, count: nat)
    requires count <= GAPS && Marked(n, count, GAPS, count)
    ensures n < GAPS
  {
    var j :| 0 <= j < count && Spread(j, GAPS, count) == n;
    SpreadInside(j, GAPS, count);
  }

  lemma OneSettingMore(n: nat, count: nat)
    requires n < SETTINGS && count <= GAPS
    ensures WithGaps(n + 1, count)
         == WithGaps(n, count) + [FIRST + 2 * n] + if n < GAPS && Marked(n, count, GAPS, count) then [BLANK] else []
  {
    if Marked(n, count, GAPS, count) {
      NotMarkedBeyond(n, count);
    }
    hide Spread;
    hide Marked;
  }

  // ----- what is shown -----

  /** The rows of content, blank lines left out. */
  function Content(rows: seq<int>): seq<int> {
    if rows == [] then []
    else Content(rows[..|rows| - 1]) + if rows[|rows| - 1] == BLANK then [] else [rows[|rows| - 1]]
  }

  predicate Increasing(s: seq<int>) {
    forall i, j | 0 <= i < j < |s| :: s[i] < s[j]
  }

  lemma {:induction false} ContentConcat(a: seq<int>, b: seq<int>)
    ensures Content(a + b) == Content(a) + Content(b)
  {
    var ab := a + b;
    if b == [] {
      assert ab == a;
    } else {
      var init, last := b[..|b| - 1], b[|b| - 1];
      assert ab[..|ab| - 1] == a + init;
      ContentConcat(a, init);
      assert Content(a) + (Content(init) + if last == BLANK then [] else [last])
          == Content(a) + Content(init) + if last == BLANK then [] else [last];
    }
  }

  lemma {:induction false} AllContent(s: seq<int>)
    requires forall i | 0 <= i < |s| :: s[i] != BLANK
    ensures Content(s) == s
  {
    if s != [] {
      AllContent(s[..|s| - 1]);
    }
  }

  lemma {:induction false} NoContent(n: int)
    ensures Content(Blanks(n)) == []
    decreases Max(0, n)
  {
    if n > 0 {
      assert Blanks(n)[..n - 1] == Blanks(n - 1);
      NoContent(n - 1);
    }
  }

  lemma MaybeBlank(before: seq<int>, v: int)
    requires v != BLANK
    ensures Content(before + [v] + [BLANK]) == Content(before + [v] + []) == Content(before) + [v]
  {
    var one := before + [v];
    assert one[..|before|] == before && (one + [BLANK])[..|one|] == one && one + [] == one;
  }

  lemma SettingsOneMore(n: nat)
    requires n < SETTINGS
    ensures Settings()[..n + 1] == Settings()[..n] + [FIRST + 2 * n]
  {
  }

  lemma {:induction false} SettingsAreShown(n: nat, count: nat)
    requires n <= SETTINGS && count <= GAPS
    ensures Content(WithGaps(n, count)) == Settings()[..n]
  {
    if n == 0 {
      NoneYet(count);
      AllContent([]);
    } else {
      hide *;
      SettingsAreShown(n - 1, count);
      SettingsOneMore(n - 1);
      OneMoreShown(n - 1, count);
    }
  }

  lemma OneMoreShown(n: nat, count: nat)
    requires n < SETTINGS && count <= GAPS
    ensures Content(WithGaps(n + 1, count)) == Content(WithGaps(n, count)) + [FIRST + 2 * n]
  {
    hide WithGaps;
    hide Marked;
    hide Content;
    OneSettingMore(n, count);
    MaybeBlank(WithGaps(n, count), FIRST + 2 * n);
  }

  lemma {:induction false} BlanksAreShown(n: nat, count: nat)
    requires n <= SETTINGS && count <= GAPS
    ensures |WithGaps(n, count)| == n + Before(n, count, GAPS, count)
  {
    if n == 0 {
      NoneYet(count);
      NoneBefore(count, GAPS, count);
    } else {
      BlanksAreShown(n - 1, count);
      OneSettingMore(n - 1, count);
      OnePlaceMore(n - 1, count, GAPS, count);
      if Marked(n - 1, count, GAPS, count) {
        NotMarkedBeyond(n - 1, count);
      }
      hide WithGaps;
      hide Marked;
      hide Before;
    }
  }

  /** What a dialog of any height less than full shows: so many rows at the top, settings, and the buttons. */
  function SettingsFrom(height: int, scroll: int): seq<int>
    requires 0 < height < ALL_ROWS
  {
    if Window(height) >= SETTINGS then Settings()
    else Settings()[Scrolled(height, scroll)..Scrolled(height, scroll) + Window(height)]
  }

  lemma FinishedShows(rows: seq<int>, height: int)
    requires |rows| < height
    ensures Content(Finished(rows, height)) == Content(rows) + [BUTTONS] && |Finished(rows, height)| == height
  {
    var blanks := Blanks(height - 1 - |rows|);
    ContentConcat(rows, blanks);
    ContentConcat(rows + blanks, [BUTTONS]);
    NoContent(height - 1 - |rows|);
    AllContent([BUTTONS]);
    assert Content(rows) + [] == Content(rows);
    hide Content;
  }

  lemma SpreadShows(count: nat)
    requires count <= GAPS
    ensures Content(WithGaps(SETTINGS, count)) == Settings() && |WithGaps(SETTINGS, count)| == SETTINGS + count
  {
    hide WithGaps;
    hide Before;
    hide Content;
    SettingsAreShown(SETTINGS, count);
    BlanksAreShown(SETTINGS, count);
    AllBefore(SETTINGS, count, GAPS, count);
    hide Settings;
    assert Settings()[..SETTINGS] == Settings();
  }

  lemma BelowTop(n: nat, rows: seq<int>)
    ensures Content(Numbers(n) + rows) == Numbers(n) + Content(rows)
  {
    AllContent(Numbers(n));
    ContentConcat(Numbers(n), rows);
  }

  lemma RoomToSpread(height: int, scroll: int)
    requires 0 < height < LAST + 2 && Window(height) >= SETTINGS
    ensures RowMap(height, scroll).rows == Finished(Numbers(TopCount(height)) + WithGaps(SETTINGS, GapCount(height)), height)
    ensures TopCount(height) + SETTINGS + GapCount(height) < height
  {
    hide WithGaps;
    hide Finished;
  }

  lemma SpreadRowsShown(height: int, scroll: int)
    requires 0 < height < LAST + 2 && Window(height) >= SETTINGS
    ensures var rows := RowMap(height, scroll).rows;
            |rows| == height && Content(rows) == Numbers(TopCount(height)) + Settings() + [BUTTONS]
  {
    hide *;
    var count := GapCount(height);
    SpreadShows(count);
    BelowTop(TopCount(height), WithGaps(SETTINGS, count));
    RoomToSpread(height, scroll);
    FinishedShows(Numbers(TopCount(height)) + WithGaps(SETTINGS, count), height);
  }

  /** The rows shown, at each height below the full one: exactly as many as the dialog is tall. */
  lemma RowsShown(height: int, scroll: int)
    requires 0 < height < LAST + 2
    ensures var rows := RowMap(height, scroll).rows;
            |rows| == height && Content(rows) == Numbers(TopCount(height)) + SettingsFrom(height, scroll) + [BUTTONS]
  {
    hide WithGaps;
    hide Content;
    if Window(height) >= SETTINGS {
      SpreadRowsShown(height, scroll);
      hide RowMap;
      hide Settings;
      hide Numbers;
    } else {
      var at := Scrolled(height, scroll);
      AllContent(Numbers(TopCount(height)) + Settings()[at..at + Window(height)] + [BUTTONS]);
    }
  }

  lemma LongDialog(height: int, scroll: int)
    requires LAST + 2 <= height < ALL_ROWS
    ensures var rows := RowMap(height, scroll).rows;
            |rows| == height && Content(rows) == Numbers(LAST + 1) + [BUTTONS]
  {
    AllContent(Numbers(LAST + 1));
    FinishedShows(Numbers(LAST + 1), height);
    hide Content;
    hide Finished;
  }

  /** At every height there are exactly as many rows as fit, up to all of them, the content in its order and
      none of it twice; below the full height the buttons are last. */
  lemma RowsFit(height: int, scroll: int)
    ensures var rows := RowMap(height, scroll).rows;
            |rows| == Max(0, Min(height, ALL_ROWS)) && Increasing(Content(rows))
            && (0 < height < ALL_ROWS ==> rows[|rows| - 1] == BUTTONS)
  {
    hide Content;
    hide WithGaps;
    if height >= ALL_ROWS {
      AllContent(Numbers(ALL_ROWS));
    } else if height <= 0 {
      AllContent([]);
    } else if height >= LAST + 2 {
      LongDialog(height, scroll);
      assert Increasing(Numbers(LAST + 1) + [BUTTONS]);
    } else {
      RowsShown(height, scroll);
      ShortIncreases(TopCount(height), SettingsFrom(height, scroll));
    }
  }

  lemma ShortIncreases(top: nat, settings: seq<int>)
    requires top <= 4 && Increasing(settings) && forall i | 0 <= i < |settings| :: FIRST <= settings[i] <= LAST
    ensures Increasing(Numbers(top) + settings + [BUTTONS])
  {
  }

  /** The offset returned is within range, and given back it changes nothing. */
  lemma ScrollIsStable(height: int, scroll: int)
    ensures var shown := RowMap(height, scroll);
            0 <= shown.scrolled <= Max(0, SETTINGS - Window(height)) && RowMap(height, shown.scrolled) == shown
  {
    hide WithGaps;
  }

  ghost predicate IsShown(height: int, i: nat)
    requires i < SETTINGS
  {
    exists scroll :: Settings()[i] in RowMap(height, scroll).rows
  }

  lemma SettingShown(height: int, i: nat)
    requires height >= 2 && i < SETTINGS
    ensures IsShown(height, i)
  {
    var v := Settings()[i];
    if height >= LAST + 2 {
      assert RowMap(height, 0).rows[v] == v;
      assert v in RowMap(height, 0).rows;
    } else {
      hide *;
      ShownWhenShort(height, i);
      assert IsShown(height, i) by {
        ShowsIt(height, i, i);
      }
    }
  }

  lemma ShowsIt(height: int, i: nat, scroll: int)
    requires i < SETTINGS && Settings()[i] in RowMap(height, scroll).rows
    ensures IsShown(height, i)
  {
    hide Settings;
    hide RowMap;
  }

  lemma InStretch(height: int, i: nat)
    requires 2 <= height < LAST + 2 && i < SETTINGS
    ensures Settings()[i] in SettingsFrom(height, i)
  {
    hide Settings;
    var at, window := Scrolled(height, i), Window(height);
    if window >= SETTINGS {
      assert SettingsFrom(height, i)[i] == Settings()[i];
    } else {
      assert SettingsFrom(height, i)[i - at] == Settings()[i];
    }
  }

  lemma ShownWhenShort(height: int, i: nat)
    requires 2 <= height < LAST + 2 && i < SETTINGS
    ensures Settings()[i] in RowMap(height, i).rows
  {
    hide *;
    RowsShown(height, i);
    InStretch(height, i);
    InContent(RowMap(height, i).rows, Settings()[i]);
  }

  /** Every setting is shown at some scroll exactly from a height of two on; in less, none ever is. */
  lemma EverySettingShown(height: int)
    ensures height >= 2 <==> forall i | 0 <= i < SETTINGS :: IsShown(height, i)
    ensures height < 2 ==> forall i | 0 <= i < SETTINGS :: !IsShown(height, i)
  {
    forall i | 0 <= i < SETTINGS ensures IsShown(height, i) == (height >= 2) {
      if height >= 2 {
        SettingShown(height, i);
      } else {
        NoneShown(height, i);
      }
    }
    hide IsShown;
    assert height < 2 ==> !IsShown(height, 0);
  }

  lemma NoneShown(height: int, i: nat)
    requires height < 2 && i < SETTINGS
    ensures !IsShown(height, i)
  {
    assert Settings()[i] != BUTTONS;
    forall scroll ensures Settings()[i] !in RowMap(height, scroll).rows {
      OnlyButtons(height, scroll);
    }
  }

  lemma OnlyButtons(height: int, scroll: int)
    requires height < 2
    ensures forall v | v in RowMap(height, scroll).rows :: v == BUTTONS
  {
    assert TopCount(height) == 0 && Window(height) == 0;
    hide Settings;
  }

  lemma {:induction false} InContent(rows: seq<int>, v: int)
    ensures v in Content(rows) ==> v in rows
  {
    if rows != [] {
      InContent(rows[..|rows| - 1], v);
    }
  }

  /** More is said to be above or below exactly when the first or the last setting is not shown. */
  lemma MoreIff(height: int, scroll: int)
    requires 2 <= height < LAST + 2
    ensures var shown := RowMap(height, scroll);
            && (shown.moreAbove <==> FIRST !in SettingsFrom(height, scroll))
            && (shown.moreBelow <==> LAST !in SettingsFrom(height, scroll))
  {
    hide WithGaps;
    var from := SettingsFrom(height, scroll);
    var first := if Window(height) >= SETTINGS then 0 else Scrolled(height, scroll);
    SettingsAre(from, first);
    hide Numbers;
    hide Finished;
    hide Settings;
  }

  lemma SettingsAre(from: seq<int>, first: int)
    requires 0 <= first && from != [] && first + |from| <= SETTINGS && from == Settings()[first..first + |from|]
    ensures FIRST in from <==> first == 0
    ensures LAST in from <==> first + |from| == SETTINGS
  {
    assert from[0] == FIRST + 2 * first;
    assert from[|from| - 1] == FIRST + 2 * (first + |from| - 1);
    assert forall i | 0 <= i < |from| :: from[i] == FIRST + 2 * (first + i);
  }

  // ----- where the spare lines go -----

  lemma {:induction false} GapsGrow(n: nat, m: nat, count: nat)
    requires n <= m <= SETTINGS && count <= GAPS
    ensures WithGaps(n, count) <= WithGaps(m, count)
  {
    if n < m {
      GapsGrow(n, m - 1, count);
      OneSettingMore(m - 1, count);
      hide WithGaps;
      hide Marked;
    }
  }

  /** Among the settings with their spare lines, setting i stands after the settings before it and one line for each
      mark that goes before place i. */
  lemma SettingIsAt(i: nat, count: nat)
    requires i < SETTINGS && count <= GAPS
    ensures var all, at := WithGaps(SETTINGS, count), i + Before(i, count, GAPS, count);
            at < |all| && all[at] == FIRST + 2 * i
  {
    GapsGrow(i + 1, SETTINGS, count);
    OneSettingMore(i, count);
    BlanksAreShown(i, count);
    hide WithGaps;
    hide Marked;
    hide Before;
  }

  /** So a short dialog with room for all settings shows setting i on that row under the top ones. */
  lemma SettingRow(height: int, scroll: int, i: nat)
    requires 0 < height < LAST + 2 && Window(height) >= SETTINGS && i < SETTINGS
    ensures var row := TopCount(height) + i + Before(i, GapCount(height), GAPS, GapCount(height));
            row < |RowMap(height, scroll).rows| && RowMap(height, scroll).rows[row] == FIRST + 2 * i
  {
    hide *;
    var count := GapCount(height);
    SettingIsAt(i, count);
    RoomToSpread(height, scroll);
    InFinished(Numbers(TopCount(height)), WithGaps(SETTINGS, count), height, i + Before(i, count, GAPS, count));
  }

  /** So many lines are spare. */
  lemma SpareLines(height: int)
    requires 0 < height < LAST + 2
    ensures GapCount(height) == if height <= TopCount(height) + 13 then 0 else Min(height - TopCount(height) - 13, 10)
  {
  }

  lemma InFinished(top: seq<int>, rows: seq<int>, height: int, k: nat)
    requires k < |rows|
    ensures |top| + k < |Finished(top + rows, height)| && Finished(top + rows, height)[|top| + k] == rows[k]
  {
  }
}
