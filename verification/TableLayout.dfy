/** The width-fitting table of internal/render/table.go, without colour. Lengths
    are in characters. */
module TableLayout {

  // ---- Shrinking columns ----

  function Sum(ws: seq<nat>): nat {
    if ws == [] then 0 else Sum(ws[..|ws| - 1]) + ws[|ws| - 1]
  }

  /** How many columns have any text. */
  function Filled(ws: seq<nat>): nat {
    if ws == [] then 0 else Filled(ws[..|ws| - 1]) + if ws[|ws| - 1] > 0 then 1 else 0
  }

  function Separators(cols: nat): int { 3 * (cols - 1) }

  /** The length of a line with these column widths. */
  function Total(ws: seq<nat>): int { Separators(|ws|) + Sum(ws) }

  /** The narrowest the table gets: one character in each column with text. */
  function Floor(ws: seq<nat>): int { Separators(|ws|) + Filled(ws) }

  /** The first of the widest among the first n columns; column 0 if all are empty. */
  function Widest(ws: seq<nat>, n: nat): (i: nat)
    requires n <= |ws|
    ensures ws != [] ==> i < |ws|
    ensures ws != [] ==> forall k :: 0 <= k < n ==> ws[k] <= ws[i]
    ensures ws != [] ==> forall k :: 0 <= k < i ==> ws[k] < ws[i]
  {
    if n == 0 then 0
    else
      var i := Widest(ws, n - 1);
      if ws[n - 1] > ws[i] then n - 1 else i
  }

  /** One round of the fit loop. */
  function Shrink(ws: seq<nat>, width: int): (r: seq<nat>)
    requires ws != []
    ensures |r| == |ws|
  {
    var i := Widest(ws, |ws|);
    var cut := ws[i] - (Total(ws) - width);
    ws[i := if cut < 1 then 1 else cut]
  }

  function Rounds(ws: seq<nat>, width: int, n: nat): (r: seq<nat>)
    requires ws != []
    ensures |r| == |ws|
  {
    if n == 0 then ws else Shrink(Rounds(ws, width, n - 1), width)
  }

  lemma {:induction false} SumUpdate(ws: seq<nat>, i: nat, w: nat)
    requires i < |ws|
    ensures Sum(ws[i := w]) == Sum(ws) - ws[i] + w
    ensures Filled(ws[i := w]) == Filled(ws) - (if ws[i] > 0 then 1 else 0) + if w > 0 then 1 else 0
  {
    var n := |ws| - 1;
    if i == n {
      assert ws[i := w][..n] == ws[..n];
    } else {
      SumUpdate(ws[..n], i, w);
      assert ws[i := w][..n] == ws[..n][i := w];
    }
  }

  lemma {:induction false} NarrowSum(ws: seq<nat>)
    requires forall i :: 0 <= i < |ws| ==> ws[i] <= 1
    ensures Sum(ws) == Filled(ws)
  {
    if ws != [] {
      NarrowSum(ws[..|ws| - 1]);
    }
  }

  lemma {:induction false} SumAtLeastFilled(ws: seq<nat>)
    ensures Sum(ws) >= Filled(ws)
  {
    if ws != [] {
      SumAtLeastFilled(ws[..|ws| - 1]);
    }
  }

  /** Four characters a column less three is always enough, and is the floor
      exactly when no column is empty. */
  lemma {:induction false} FloorBound(ws: seq<nat>)
    ensures Floor(ws) <= 4 * |ws| - 3
    ensures Floor(ws) == 4 * |ws| - 3 <==> forall i :: 0 <= i < |ws| ==> ws[i] > 0
  {
    if ws != [] {
      var n := |ws| - 1;
      FloorBound(ws[..n]);
      assert forall i :: 0 <= i < n ==> ws[i] == ws[..n][i];
    }
  }

  /** A line above the floor has a column to narrow. */
  lemma WidestHasRoom(ws: seq<nat>)
    requires ws != [] && Sum(ws) > Filled(ws)
    ensures ws[Widest(ws, |ws|)] >= 2
  {
    if ws[Widest(ws, |ws|)] < 2 {
      NarrowSum(ws);
      assert false;
    }
  }

  /** Every column has its natural width or is cut to one character, the widest first. */
  ghost predicate Halfway(natural: seq<nat>, ws: seq<nat>) {
    && |ws| == |natural| && Filled(ws) == Filled(natural)
    && (forall i :: 0 <= i < |ws| ==> ws[i] == natural[i] || ws[i] == 1 < natural[i])
    && WidestFirst(natural, ws)
  }

  ghost predicate WidestFirst(natural: seq<nat>, ws: seq<nat>)
    requires |ws| == |natural|
  {
    forall i, j :: 0 <= i < |ws| && 0 <= j < |ws| && ws[i] < natural[i] && ws[j] == natural[j] ==>
      natural[j] <= natural[i]
  }

  /** The line is exactly as wide as it may be, and at most one column is cut to
      anything but a single character. */
  ghost predicate Exact(natural: seq<nat>, ws: seq<nat>, width: int) {
    && |ws| == |natural| && Total(ws) == width && WidestFirst(natural, ws)
    && exists c :: 0 <= c < |ws| && ExceptOne(natural, ws, c)
  }

  ghost predicate ExceptOne(natural: seq<nat>, ws: seq<nat>, c: nat)
    requires |ws| == |natural|
  {
    forall i :: 0 <= i < |ws| ==>
      (ws[i] == natural[i] || 1 <= ws[i] < natural[i]) && (i != c ==> ws[i] == natural[i] || ws[i] == 1)
  }

  lemma ShrinkStep(natural: seq<nat>, ws: seq<nat>, width: int)
    requires ws != [] && Halfway(natural, ws) && Floor(natural) <= width < Total(ws)
    ensures var r := Shrink(ws, width);
            && Sum(r) < Sum(ws)
            && (if Total(r) > width then Halfway(natural, r) else Exact(natural, r, width))
  {
    var i := Widest(ws, |ws|);
    WidestHasRoom(ws);
    var r := Shrink(ws, width);
    SumUpdate(ws, i, r[i]);
    assert natural[i] == ws[i];
    assert forall k :: 0 <= k < |ws| && k != i ==> r[k] == ws[k];
    if Total(r) <= width {
      assert ExceptOne(natural, r, i);
    }
  }

  /** Below the floor no round ever brings the line down to its width. */
  lemma {:induction false} FitNeverEnds(ws: seq<nat>, width: int, n: nat)
    requires ws != [] && width < Floor(ws)
    ensures Total(Rounds(ws, width, n)) > width && Filled(Rounds(ws, width, n)) >= Filled(ws)
  {
    SumAtLeastFilled(Rounds(ws, width, n));
    if n > 0 {
      FitNeverEnds(ws, width, n - 1);
      var before := Rounds(ws, width, n - 1);
      var i := Widest(before, |before|);
      SumUpdate(before, i, Shrink(before, width)[i]);
    }
  }

  /** From the floor up the loop ends, so it ends exactly there. */
  lemma {:induction false} FitEnds(natural: seq<nat>, width: int, n: nat) returns (k: nat)
    requires natural != [] && Floor(natural) <= width && Halfway(natural, Rounds(natural, width, n))
    ensures k >= n && Total(Rounds(natural, width, k)) <= width
    decreases Sum(Rounds(natural, width, n))
  {
    var ws := Rounds(natural, width, n);
    k := n;
    if Total(ws) > width {
      ShrinkStep(natural, ws, width);
      if Total(Rounds(natural, width, n + 1)) <= width {
        k := n + 1;
      } else {
        k := FitEnds(natural, width, n + 1);
      }
    }
  }

  lemma FitEndsIff(natural: seq<nat>, width: int)
    requires natural != []
    ensures (exists n: nat :: Total(Rounds(natural, width, n)) <= width) <==> Floor(natural) <= width
  {
    if Floor(natural) <= width {
      var k := FitEnds(natural, width, 0);
    } else {
      forall n: nat ensures Total(Rounds(natural, width, n)) > width {
        FitNeverEnds(natural, width, n);
      }
    }
  }

  method LineTotal(colWidths: array<nat>) returns (total: int)
    ensures total == Total(colWidths[..])
  {
    total := Separators(colWidths.Length);
    for i := 0 to colWidths.Length
      invariant total == Separators(colWidths.Length) + Sum(colWidths[..i])
    {
      assert colWidths[..i + 1][..i] == colWidths[..i];
      total := total + colWidths[i];
    }
    assert colWidths[..colWidths.Length] == colWidths[..];
  }

  method FindWidest(colWidths: array<nat>) returns (maxI: nat)
    requires colWidths.Length > 0
    ensures maxI == Widest(colWidths[..], colWidths.Length)
  {
    maxI := 0;
    var maxW := 0;
    for i := 0 to colWidths.Length
      invariant maxI == Widest(colWidths[..], i)
      invariant maxW == if i == 0 then 0 else colWidths[maxI]
    {
      if colWidths[i] > maxW {
        maxW, maxI := colWidths[i], i;
      }
    }
  }

  method ShrinkWidest(colWidths: array<nat>, total: int, width: int)
    requires colWidths.Length > 0 && total == Total(colWidths[..])
    modifies colWidths
    ensures colWidths[..] == Shrink(old(colWidths[..]), width)
  {
    hide Sum, Total;
    var maxI := FindWidest(colWidths);
    var shrink := colWidths[maxI] - (total - width);
    if shrink < 1 {
      shrink := 1;
    }
    colWidths[maxI] := shrink;
  }

  /** Where the fit loop may stand: nothing cut, only single characters left of
      the cut columns, or done. */
  ghost predicate Fitting(natural: seq<nat>, ws: seq<nat>, width: int) {
    && |ws| == |natural|
    && (Total(natural) <= width ==> ws == natural)
    && (Total(natural) > width ==> if Total(ws) > width then Halfway(natural, ws) else Exact(natural, ws, width))
  }

  lemma FittingStep(natural: seq<nat>, ws: seq<nat>, width: int)
    requires ws != [] && Fitting(natural, ws, width) && Floor(natural) <= width < Total(ws)
    ensures Fitting(natural, Shrink(ws, width), width) && Sum(Shrink(ws, width)) < Sum(ws)
  {
    hide Exact, Halfway;
    ShrinkStep(natural, ws, width);
  }

  lemma FittingStart(natural: seq<nat>, width: int)
    ensures Fitting(natural, natural, width)
  {
  }

  /** The fit loop stops after n rounds: the line fits then, and at no round before. */
  ghost predicate StopsAfter(natural: seq<nat>, width: int, n: nat)
    requires natural != []
  {
    && Total(Rounds(natural, width, n)) <= width
    && forall k :: 0 <= k < n ==> Total(Rounds(natural, width, k)) > width
  }

  /** Shrinks the widest column until the line fits. */
  method Fit(colWidths: array<nat>, width: int) returns (ghost rounds: nat)
    requires colWidths.Length > 0 && Floor(colWidths[..]) <= width
    modifies colWidths
    ensures StopsAfter(old(colWidths[..]), width, rounds)
    ensures colWidths[..] == Rounds(old(colWidths[..]), width, rounds)
    ensures Fitting(old(colWidths[..]), colWidths[..], width)
  {
    hide Fitting, Total, Sum, Floor, Shrink;
    ghost var natural := colWidths[..];
    FittingStart(natural, width);
    rounds := 0;
    while true
      invariant Fitting(natural, colWidths[..], width) && colWidths[..] == Rounds(natural, width, rounds)
      invariant forall k :: 0 <= k < rounds ==> Total(Rounds(natural, width, k)) > width
      decreases Sum(colWidths[..])
    {
      var total := LineTotal(colWidths);
      if total <= width {
        break;
      }
      FittingStep(natural, colWidths[..], width);
      ShrinkWidest(colWidths, total, width);
      rounds := rounds + 1;
    }
  }

  // ---- What the loop leaves ----

  /** The widest column cut to one character, if it has more. */
  function NarrowWidest(ws: seq<nat>): (r: seq<nat>)
    requires ws != []
    ensures |r| == |ws|
  {
    var i := Widest(ws, |ws|);
    if ws[i] > 1 then ws[i := 1] else ws
  }

  /** That, n times over. */
  function Narrowed(ws: seq<nat>, n: nat): (r: seq<nat>)
    requires ws != []
    ensures |r| == |ws|
  {
    if n == 0 then ws else NarrowWidest(Narrowed(ws, n - 1))
  }

  lemma {:induction false} NarrowedShrinks(ws: seq<nat>, m: nat, n: nat)
    requires ws != [] && m <= n
    ensures Total(Narrowed(ws, n)) <= Total(Narrowed(ws, m))
    decreases n
  {
    if m < n {
      hide NarrowWidest, Total;
      NarrowedShrinks(ws, m, n - 1);
      NarrowWidestShrinks(Narrowed(ws, n - 1));
    }
  }

  lemma NarrowWidestShrinks(ws: seq<nat>)
    requires ws != []
    ensures Total(NarrowWidest(ws)) <= Total(ws)
  {
    SumUpdate(ws, Widest(ws, |ws|), 1);
  }

  lemma FloorFits(natural: seq<nat>, width: int, n: nat)
    requires natural != [] && StopsAfter(natural, width, n)
    ensures Floor(natural) <= width
  {
    if width < Floor(natural) {
      FitNeverEnds(natural, width, n);
      assert false;
    }
  }

  /** A round that does not end the loop cuts the widest column to one character. */
  lemma {:induction false} BeforeTheStop(natural: seq<nat>, width: int, n: nat)
    requires natural != [] && Floor(natural) <= width
    requires forall k :: 0 <= k <= n ==> Total(Rounds(natural, width, k)) > width
    ensures Halfway(natural, Rounds(natural, width, n)) && Rounds(natural, width, n) == Narrowed(natural, n)
  {
    if n > 0 {
      BeforeTheStop(natural, width, n - 1);
      RoundCuts(natural, Rounds(natural, width, n - 1), width);
    }
  }

  lemma RoundCuts(natural: seq<nat>, before: seq<nat>, width: int)
    requires before != [] && Halfway(natural, before) && Floor(natural) <= width < Total(before)
    ensures var i, after := Widest(before, |before|), Shrink(before, width);
            && before[i] == natural[i] > 1 && 1 <= after[i] < before[i] && after == before[i := after[i]]
            && Total(after) == Total(before) - before[i] + after[i]
            && (if Total(after) > width then after[i] == 1 && Halfway(natural, after) else Total(after) == width)
  {
    ShrinkStep(natural, before, width);
    WidestHasRoom(before);
    var i := Widest(before, |before|);
    SumUpdate(before, i, Shrink(before, width)[i]);
  }

  /** Some column is left with two characters or more, but fewer than its natural ones. */
  ghost predicate CutsSomeWide(natural: seq<nat>, ws: seq<nat>)
    requires |ws| == |natural|
  {
    exists c :: 0 <= c < |ws| && 2 <= ws[c] < natural[c]
  }

  /** The widths cut no column to two characters or more exactly when nothing needs
      cutting, or cutting widest columns to one character meets the width exactly. */
  lemma CutsNoneWideIff(natural: seq<nat>, width: int, n: nat)
    requires natural != [] && StopsAfter(natural, width, n)
    ensures !CutsSomeWide(natural, Rounds(natural, width, n)) <==>
            Total(natural) <= width || exists m: nat :: Total(Narrowed(natural, m)) == width
  {
    hide Halfway, Total, Shrink, Widest, Floor;
    if n > 0 {
      assert Rounds(natural, width, 0) == natural && Total(natural) > width;
      FloorFits(natural, width, n);
      BeforeTheStop(natural, width, n - 1);
      var before := Rounds(natural, width, n - 1);
      LastRound(natural, before, width);
      assert Total(Narrowed(natural, n)) == Total(NarrowWidest(before));
      if m: nat :| Total(Narrowed(natural, m)) == width {
        if m < n {
          BeforeTheStop(natural, width, m);
          assert false;
        }
        NarrowedShrinks(natural, n, m);
      }
    }
  }

  lemma StopsAtWidth(natural: seq<nat>, width: int, n: nat)
    requires natural != [] && StopsAfter(natural, width, n) && n > 0
    ensures Total(natural) > width == Total(Rounds(natural, width, n))
  {
    hide Total, Shrink, Halfway;
    assert Rounds(natural, width, 0) == natural;
    FloorFits(natural, width, n);
    BeforeTheStop(natural, width, n - 1);
    RoundCuts(natural, Rounds(natural, width, n - 1), width);
  }

  lemma LastRound(natural: seq<nat>, before: seq<nat>, width: int)
    requires before != [] && Halfway(natural, before) && Floor(natural) <= width < Total(before)
    requires Total(Shrink(before, width)) <= width
    ensures Total(NarrowWidest(before)) <= width
    ensures |natural| == |before|
    ensures CutsSomeWide(natural, Shrink(before, width)) <==> Total(NarrowWidest(before)) < width
  {
    RoundCuts(natural, before, width);
    var i, after := Widest(before, |before|), Shrink(before, width);
    SumUpdate(before, i, 1);
    assert forall c :: 0 <= c < |before| && c != i ==> after[c] == before[c];
    if after[i] > 1 {
      assert 2 <= after[i] < natural[i];
    }
  }

  // ---- Natural widths ----

  datatype Align = Left | Right | Center

  datatype Table = Table(headers: seq<string>, rows: seq<seq<string>>, aligns: seq<Align>)

  /** The cell a row shows in a column; short rows are filled up with blanks. */
  function Cell(row: seq<string>, col: nat): string {
    if col < |row| then row[col] else ""
  }

  /** The longest of the header and the first n cells of a column. */
  function NaturalWidth(t: Table, col: nat, n: nat): nat
    requires col < |t.headers| && n <= |t.rows|
  {
    if n == 0 then |t.headers[col]|
    else
      var before, len := NaturalWidth(t, col, n - 1), |Cell(t.rows[n - 1], col)|;
      if len > before then len else before
  }

  function Natural(t: Table): (ws: seq<nat>)
    ensures |ws| == |t.headers|
  {
    seq(|t.headers|, i requires 0 <= i < |t.headers| => NaturalWidth(t, i, |t.rows|))
  }

  /** A natural width holds every text of its column and is no larger. */
  lemma {:induction false} NaturalHoldsAll(t: Table, col: nat, n: nat)
    requires col < |t.headers| && n <= |t.rows|
    ensures var w := NaturalWidth(t, col, n);
            && |t.headers[col]| <= w && (forall r :: 0 <= r < n ==> |Cell(t.rows[r], col)| <= w)
            && (|t.headers[col]| == w || exists r :: 0 <= r < n && |Cell(t.rows[r], col)| == w)
  {
    if n > 0 {
      NaturalHoldsAll(t, col, n - 1);
    }
  }

  method NaturalWidths(t: Table) returns (natural: array<nat>)
    ensures fresh(natural) && natural[..] == Natural(t)
  {
    natural := new nat[|t.headers|](_ => 0);
    for i := 0 to |t.headers|
      invariant forall k :: 0 <= k < i ==> natural[k] == |t.headers[k]|
    {
      natural[i] := |t.headers[i]|;
    }
    for r := 0 to |t.rows|
      invariant forall k :: 0 <= k < natural.Length ==> natural[k] == NaturalWidth(t, k, r)
    {
      var row := t.rows[r];
      var bound := if |row| < natural.Length then |row| else natural.Length;
      for i := 0 to bound
        invariant forall k :: 0 <= k < i ==> natural[k] == NaturalWidth(t, k, r + 1)
        invariant forall k :: i <= k < natural.Length ==> natural[k] == NaturalWidth(t, k, r)
      {
        var n := |row[i]|;
        if n > natural[i] {
          natural[i] := n;
        }
      }
    }
  }

  // ---- Cells and lines ----

  const ELLIPSIS: char := '\U{2026}'

  function Repeat(c: char, n: nat): (r: string)
    ensures |r| == n && forall i :: 0 <= i < n ==> r[i] == c
  {
    if n == 0 then "" else Repeat(c, n - 1) + [c]
  }

  function FitCell(s: string, w: nat): string {
    if |s| <= w then s else if w <= 1 then s[..w] else s[..w - 1] + [ELLIPSIS]
  }

  function PadCell(s: string, w: nat, a: Align): string {
    if w <= |s| then s
    else
      var pad := w - |s|;
      match a
      case Right => Repeat(' ', pad) + s
      case Center => Repeat(' ', pad / 2) + s + Repeat(' ', pad - pad / 2)
      case Left => s + Repeat(' ', pad)
  }

  function ShowCell(s: string, w: nat, a: Align): string { PadCell(FitCell(s, w), w, a) }

  /** The blanks around a text that fits, for its alignment. */
  predicate Blanks(left: nat, right: nat, a: Align) {
    match a
    case Left => left == 0
    case Right => right == 0
    case Center => left <= right <= left + 1
  }

  /** A shown cell is exactly as wide as its column. A text that fits is in it whole,
      placed by its alignment; of a longer one all but the last place is its start. */
  lemma ShownCell(s: string, w: nat, a: Align)
    ensures |ShowCell(s, w, a)| == w
    ensures |s| <= w ==>
              exists left: nat, right: nat :: Blanks(left, right, a) &&
                ShowCell(s, w, a) == Repeat(' ', left) + s + Repeat(' ', right)
    ensures 0 < w < |s| ==> ShowCell(s, w, a)[..w - 1] == s[..w - 1]
  {
    if |s| <= w {
      var pad := w - |s|;
      var left := match a case Right => pad case Center => pad / 2 case Left => 0;
      assert Blanks(left, pad - left, a);
      assert ShowCell(s, w, a) == Repeat(' ', left) + s + Repeat(' ', pad - left);
    }
  }

  function AlignOf(t: Table, col: nat): Align {
    if col < |t.aligns| then t.aligns[col] else Left
  }

  /** The first n cells of a row with the gaps between them. */
  function RowLine(t: Table, row: seq<string>, ws: seq<nat>, n: nat): string
    requires n <= |ws|
  {
    if n == 0 then ""
    else
      RowLine(t, row, ws, n - 1) + (if n > 1 then " | " else "")
      + ShowCell(Cell(row, n - 1), ws[n - 1], AlignOf(t, n - 1))
  }

  function RuleLine(ws: seq<nat>, n: nat): string
    requires n <= |ws|
  {
    if n == 0 then ""
    else RuleLine(ws, n - 1) + (if n > 1 then "-+-" else "") + Repeat('-', ws[n - 1])
  }

  lemma {:induction false} LinesAreTotal(t: Table, row: seq<string>, ws: seq<nat>, n: nat)
    requires 0 < n <= |ws|
    ensures |RowLine(t, row, ws, n)| == |RuleLine(ws, n)| == Total(ws[..n])
  {
    ShownCell(Cell(row, n - 1), ws[n - 1], AlignOf(t, n - 1));
    assert ws[..n][..n - 1] == ws[..n - 1];
    if n > 1 {
      LinesAreTotal(t, row, ws, n - 1);
    }
  }

  /** Where a column starts on every line. */
  function ColumnStart(ws: seq<nat>, col: nat): int
    requires col < |ws|
  {
    if col == 0 then 0 else Total(ws[..col]) + 3
  }

  /** Columns line up: on every row a column's cell stands at the same place. */
  lemma {:induction false} CellsInColumns(t: Table, row: seq<string>, ws: seq<nat>, n: nat, col: nat)
    requires col < n <= |ws|
    ensures var from := ColumnStart(ws, col);
            && 0 <= from <= from + ws[col] <= |RowLine(t, row, ws, n)|
            && RowLine(t, row, ws, n)[from..from + ws[col]] == ShowCell(Cell(row, col), ws[col], AlignOf(t, col))
    decreases n
  {
    hide ShowCell, Cell, AlignOf, Total;
    var from := ColumnStart(ws, col);
    ShownCell(Cell(row, n - 1), ws[n - 1], AlignOf(t, n - 1));
    if n > 1 {
      LinesAreTotal(t, row, ws, n - 1);
    }
    if col < n - 1 {
      CellsInColumns(t, row, ws, n - 1, col);
      assert RowLine(t, row, ws, n)[from..from + ws[col]] == RowLine(t, row, ws, n - 1)[from..from + ws[col]];
    }
  }

  // ---- What each line shows, place by place ----

  /** Columns start three places apart, the first at the left end. */
  ghost predicate StartsAt(ws: seq<nat>, starts: seq<nat>) {
    && |starts| == |ws|
    && (ws != [] ==> starts[0] == 0)
    && forall c :: 0 < c < |ws| ==> starts[c] == starts[c - 1] + ws[c - 1] + 3
  }

  /** A text in w places, for its alignment: with blanks around it if it fits, and if not cut,
      the last of two or more places being an ellipsis. */
  ghost predicate Shows(place: string, s: string, w: nat, a: Align) {
    && |place| == w
    && (1 < w < |s| ==> place[..w - 1] == s[..w - 1] && place[w - 1] == '\U{2026}')
    && (1 == w < |s| ==> place[0] == s[0])
    && (|s| <= w ==>
          var left := match a case Left => 0 case Right => w - |s| case Center => (w - |s|) / 2;
          && place[left..left + |s|] == s
          && forall i :: 0 <= i < left || left + |s| <= i < w ==> place[i] == ' ')
  }

  lemma CellShows(s: string, w: nat, a: Align)
    ensures Shows(ShowCell(s, w, a), s, w, a)
  {
    if |s| <= w {
      var pad := w - |s|;
      var left := match a case Left => 0 case Right => pad case Center => pad / 2;
      assert ShowCell(s, w, a) == Repeat(' ', left) + s + Repeat(' ', pad - left);
    }
  }

  /** A line shows in column c what the row holds there, with a bar before all but the first. */
  ghost predicate ShowsColumn(t: Table, row: seq<string>, ws: seq<nat>, starts: seq<nat>, c: nat, line: string)
    requires c < |ws| == |starts|
  {
    && starts[c] + ws[c] <= |line|
    && Shows(line[starts[c]..starts[c] + ws[c]], if c < |row| then row[c] else "", ws[c],
             if c < |t.aligns| then t.aligns[c] else Left)
    && (c > 0 ==> starts[c] >= 3 && line[starts[c] - 3..starts[c]] == " | ")
  }

  ghost predicate ShowsRow(t: Table, row: seq<string>, ws: seq<nat>, starts: seq<nat>, n: nat, line: string)
    requires n <= |ws| == |starts|
  {
    forall c: nat :: c < n ==> ShowsColumn(t, row, ws, starts, c, line)
  }

  lemma ShowsColumnKept(t: Table, row: seq<string>, ws: seq<nat>, starts: seq<nat>, c: nat, line: string, more: string)
    requires c < |ws| == |starts| && ShowsColumn(t, row, ws, starts, c, line)
    ensures ShowsColumn(t, row, ws, starts, c, line + more)
  {
    hide Shows;
    assert (line + more)[starts[c]..starts[c] + ws[c]] == line[starts[c]..starts[c] + ws[c]];
    assert c > 0 ==> (line + more)[starts[c] - 3..starts[c]] == line[starts[c] - 3..starts[c]];
  }

  lemma {:induction false} RowShows(t: Table, row: seq<string>, ws: seq<nat>, starts: seq<nat>, n: nat)
    requires StartsAt(ws, starts) && n <= |ws|
    ensures ShowsRow(t, row, ws, starts, n, RowLine(t, row, ws, n))
    ensures n > 0 ==> |RowLine(t, row, ws, n)| == starts[n - 1] + ws[n - 1]
  {
    if n > 0 {
      hide Shows, ShowsRow, ShowCell;
      var before := RowLine(t, row, ws, n - 1);
      RowShows(t, row, ws, starts, n - 1);
      var cell := ShowCell(Cell(row, n - 1), ws[n - 1], AlignOf(t, n - 1));
      CellShows(Cell(row, n - 1), ws[n - 1], AlignOf(t, n - 1));
      ShowsRowSnoc(t, row, ws, starts, n - 1, before, cell);
    }
  }

  lemma ShowsRowSnoc(t: Table, row: seq<string>, ws: seq<nat>, starts: seq<nat>, n: nat, line: string, cell: string)
    requires StartsAt(ws, starts) && n < |ws| && ShowsRow(t, row, ws, starts, n, line)
    requires Shows(cell, if n < |row| then row[n] else "", ws[n], if n < |t.aligns| then t.aligns[n] else Left)
    requires |line| == if n == 0 then 0 else starts[n - 1] + ws[n - 1]
    ensures ShowsRow(t, row, ws, starts, n + 1, line + (if n > 0 then " | " else "") + cell)
  {
    hide Shows, ShowsColumn;
    var gap := if n > 0 then " | " else "";
    var all := line + gap + cell;
    assert all == line + (gap + cell);
    forall c: nat | c < n ensures ShowsColumn(t, row, ws, starts, c, all) {
      ShowsColumnKept(t, row, ws, starts, c, line, gap + cell);
    }
    ShowsLast(t, row, ws, starts, n, line, gap, cell);
  }

  lemma ShowsLast(t: Table, row: seq<string>, ws: seq<nat>, starts: seq<nat>, n: nat, line: string, gap: string,
                  cell: string)
    requires StartsAt(ws, starts) && n < |ws| && gap == if n > 0 then " | " else ""
    requires Shows(cell, if n < |row| then row[n] else "", ws[n], if n < |t.aligns| then t.aligns[n] else Left)
    requires |line| == if n == 0 then 0 else starts[n - 1] + ws[n - 1]
    ensures ShowsColumn(t, row, ws, starts, n, line + gap + cell)
  {
    var all := line + gap + cell;
    assert |cell| == ws[n];
    hide Shows;
    assert starts[n] == |line + gap|;
    assert all[starts[n]..starts[n] + ws[n]] == cell;
    assert n > 0 ==> all[starts[n] - 3..starts[n]] == gap;
  }

  /** The rule: dashes under every column, joined by crosses. */
  ghost predicate ShowsRule(ws: seq<nat>, starts: seq<nat>, n: nat, line: string)
    requires n <= |ws| == |starts|
  {
    forall c :: 0 <= c < n ==>
      && starts[c] + ws[c] <= |line| && (forall i :: starts[c] <= i < starts[c] + ws[c] ==> line[i] == '-')
      && (c > 0 ==> starts[c] >= 3 && line[starts[c] - 3..starts[c]] == "-+-")
  }

  lemma {:induction false} RuleShows(ws: seq<nat>, starts: seq<nat>, n: nat)
    requires StartsAt(ws, starts) && n <= |ws|
    ensures ShowsRule(ws, starts, n, RuleLine(ws, n))
    ensures n > 0 ==> |RuleLine(ws, n)| == starts[n - 1] + ws[n - 1]
  {
    if n > 0 {
      hide ShowsRule;
      RuleShows(ws, starts, n - 1);
      ShowsRuleSnoc(ws, starts, n - 1, RuleLine(ws, n - 1));
    }
  }

  lemma ShowsRuleSnoc(ws: seq<nat>, starts: seq<nat>, n: nat, line: string)
    requires StartsAt(ws, starts) && n < |ws| && ShowsRule(ws, starts, n, line)
    requires |line| == if n == 0 then 0 else starts[n - 1] + ws[n - 1]
    ensures ShowsRule(ws, starts, n + 1, line + (if n > 0 then "-+-" else "") + Repeat('-', ws[n]))
  {
    var gap := if n > 0 then "-+-" else "";
    var all := line + gap + Repeat('-', ws[n]);
    forall c | 0 <= c <= n
      ensures starts[c] + ws[c] <= |all| && (forall i :: starts[c] <= i < starts[c] + ws[c] ==> all[i] == '-')
      ensures c > 0 ==> starts[c] >= 3 && all[starts[c] - 3..starts[c]] == "-+-"
    {
      if 0 < c < n {
        assert all[starts[c] - 3..starts[c]] == line[starts[c] - 3..starts[c]];
      }
    }
  }

  /** The lines of a table for these widths: the header, the rule and every row, in order. */
  lemma {:induction false} LinesShow(t: Table, ws: seq<nat>, starts: seq<nat>, r: nat)
    requires ws != [] && StartsAt(ws, starts) && r <= |t.rows|
    ensures var lines := Lines(t, ws, r);
            && |lines| == r + 2
            && ShowsRow(t, t.headers, ws, starts, |ws|, lines[0])
            && ShowsRule(ws, starts, |ws|, lines[1])
            && forall i :: 0 <= i < r ==> ShowsRow(t, t.rows[i], ws, starts, |ws|, lines[i + 2])
  {
    hide ShowsRow, ShowsRule, RowLine, RuleLine;
    if r == 0 {
      RowShows(t, t.headers, ws, starts, |ws|);
      RuleShows(ws, starts, |ws|);
    } else {
      LinesShow(t, ws, starts, r - 1);
      RowShows(t, t.rows[r - 1], ws, starts, |ws|);
    }
  }

  /** The header, the rule and the rows up to r, for these column widths. */
  function Lines(t: Table, ws: seq<nat>, r: nat): seq<string>
    requires r <= |t.rows|
  {
    if r == 0 then [RowLine(t, t.headers, ws, |ws|), RuleLine(ws, |ws|)]
    else Lines(t, ws, r - 1) + [RowLine(t, t.rows[r - 1], ws, |ws|)]
  }

  lemma {:induction false} LinesAligned(t: Table, ws: seq<nat>, r: nat)
    requires ws != [] && r <= |t.rows|
    ensures |Lines(t, ws, r)| == r + 2
    ensures forall i :: 0 <= i < |Lines(t, ws, r)| ==> |Lines(t, ws, r)[i]| == Total(ws)
  {
    hide RowLine, RuleLine, Total;
    assert ws[..|ws|] == ws;
    LinesAreTotal(t, if r == 0 then t.headers else t.rows[r - 1], ws, |ws|);
    if r > 0 {
      LinesAligned(t, ws, r - 1);
    }
  }

  method WriteRow(t: Table, row: seq<string>, colWidths: array<nat>) returns (line: string)
    ensures line == RowLine(t, row, colWidths[..], colWidths.Length)
  {
    line := "";
    for ci := 0 to colWidths.Length
      invariant line == RowLine(t, row, colWidths[..], ci)
    {
      if ci > 0 {
        line := line + " | ";
      }
      line := line + ShowCell(Cell(row, ci), colWidths[ci], AlignOf(t, ci));
    }
  }

  method WriteRule(colWidths: array<nat>) returns (line: string)
    ensures line == RuleLine(colWidths[..], colWidths.Length)
  {
    line := "";
    for i := 0 to colWidths.Length
      invariant line == RuleLine(colWidths[..], i)
    {
      if i > 0 {
        line := line + "-+-";
      }
      line := line + Repeat('-', colWidths[i]);
    }
  }

  /** Every line has the same length: the natural one if that fits, else the width
      asked for. The header, the rule and all rows are there, in order. */
  method Render(t: Table, width: int) returns (lines: seq<string>, ghost rounds: nat)
    requires t.headers != [] ==> Floor(Natural(t)) <= width
    ensures t.headers == [] ==> lines == []
    ensures t.headers != [] ==>
              && StopsAfter(Natural(t), width, rounds)
              && lines == Lines(t, Rounds(Natural(t), width, rounds), |t.rows|)
              && Fitting(Natural(t), Rounds(Natural(t), width, rounds), width)
              && |lines| == |t.rows| + 2
              && forall i :: 0 <= i < |lines| ==>
                   |lines[i]| == if Total(Natural(t)) <= width then Total(Natural(t)) else width
  {
    hide RowLine, RuleLine, NaturalWidth, Floor, Halfway, WidestFirst, ExceptOne, Sum, Shrink;
    lines, rounds := [], 0;
    if |t.headers| == 0 {
      return;
    }
    var colWidths := NaturalWidths(t);
    rounds := Fit(colWidths, width);
    ghost var ws := colWidths[..];
    var header := WriteRow(t, t.headers, colWidths);
    var rule := WriteRule(colWidths);
    lines := [header, rule];
    for r := 0 to |t.rows|
      invariant colWidths[..] == ws && lines == Lines(t, ws, r)
    {
      var line := WriteRow(t, t.rows[r], colWidths);
      lines := lines + [line];
    }
    LinesAligned(t, ws, |t.rows|);
  }

  // ---- Lines in bytes ----

  /** The bytes of a character in UTF-8. */
  function ByteLen(c: char): nat {
    if c < '\U{80}' then 1 else if c < '\U{800}' then 2 else if c < '\U{10000}' then 3 else 4
  }

  function Bytes(s: string): nat {
    if s == "" then 0 else Bytes(s[..|s| - 1]) + ByteLen(s[|s| - 1])
  }

  predicate OneByte(s: string) {
    forall i :: 0 <= i < |s| ==> s[i] < '\U{80}'
  }

  lemma {:induction false} BytesConcat(s: string, t: string)
    ensures Bytes(s + t) == Bytes(s) + Bytes(t)
  {
    if t == "" {
      assert s + t == s;
    } else {
      BytesConcat(s, t[..|t| - 1]);
      assert (s + t)[..|s + t| - 1] == s + t[..|t| - 1];
    }
  }

  lemma {:induction false} OneByteEach(s: string)
    requires OneByte(s)
    ensures Bytes(s) == |s|
  {
    if s != "" {
      OneByteEach(s[..|s| - 1]);
    }
  }

  /** No text takes fewer bytes than it has characters, and as few only without wide ones. */
  lemma {:induction false} BytesAtLeast(s: string)
    ensures Bytes(s) >= |s| && (Bytes(s) == |s| <==> OneByte(s))
  {
    if s != "" {
      BytesAtLeast(s[..|s| - 1]);
    }
  }

  /** The cell is cut to two places or more, so it ends in an ellipsis. */
  predicate Cut(s: string, w: nat) { 2 <= w < |s| }

  /** The bytes a cell takes beyond one a place, once fitted. */
  function WideBytes(s: string, w: nat): int { Bytes(FitCell(s, w)) - |FitCell(s, w)| }

  lemma WideBytesAre(s: string, w: nat)
    ensures WideBytes(s, w) >= 0 && (WideBytes(s, w) == 0 <==> OneByte(FitCell(s, w)))
    ensures OneByte(s) ==> WideBytes(s, w) == if Cut(s, w) then 2 else 0
  {
    BytesAtLeast(FitCell(s, w));
    if Cut(s, w) {
      BytesConcat(s[..w - 1], [ELLIPSIS]);
      BytesAtLeast(s[..w - 1]);
      assert [ELLIPSIS][..0] == "";
    }
  }

  lemma PadParts(s: string, w: nat, a: Align) returns (left: nat, right: nat)
    requires |s| <= w
    ensures left + right == w - |s| && PadCell(s, w, a) == Repeat(' ', left) + s + Repeat(' ', right)
  {
    var pad := w - |s|;
    left := match a case Right => pad case Center => pad / 2 case Left => 0;
    right := pad - left;
  }

  lemma PadBytes(s: string, w: nat, a: Align)
    requires |s| <= w
    ensures Bytes(PadCell(s, w, a)) == Bytes(s) + (w - |s|)
  {
    hide Bytes, Repeat, PadCell;
    var left, right := PadParts(s, w, a);
    BlankBytes(left);
    BlankBytes(right);
    BytesConcat(Repeat(' ', left), s);
    BytesConcat(Repeat(' ', left) + s, Repeat(' ', right));
  }

  lemma BlankBytes(n: nat)
    ensures Bytes(Repeat(' ', n)) == n
  {
    OneByteEach(Repeat(' ', n));
  }

  lemma CellBytes(s: string, w: nat, a: Align)
    ensures Bytes(ShowCell(s, w, a)) == w + WideBytes(s, w)
  {
    hide Bytes, PadCell;
    PadBytes(FitCell(s, w), w, a);
  }

  /** The bytes the first n cells of a row take beyond one a place. */
  function Extra(row: seq<string>, ws: seq<nat>, n: nat): int
    requires n <= |ws|
  {
    if n == 0 then 0 else Extra(row, ws, n - 1) + WideBytes(Cell(row, n - 1), ws[n - 1])
  }

  /** They take none exactly when every fitted cell is of one-byte characters. */
  lemma {:induction false} ExtraZeroIff(row: seq<string>, ws: seq<nat>, n: nat)
    requires n <= |ws|
    ensures Extra(row, ws, n) >= 0
    ensures Extra(row, ws, n) == 0 <==> forall c :: 0 <= c < n ==> OneByte(FitCell(Cell(row, c), ws[c]))
  {
    hide WideBytes, FitCell, OneByte;
    if n > 0 {
      ExtraZeroIff(row, ws, n - 1);
      WideBytesAre(Cell(row, n - 1), ws[n - 1]);
    }
  }

  predicate OneByteRow(row: seq<string>) {
    forall c :: 0 <= c < |row| ==> OneByte(row[c])
  }

  lemma TotalStep(ws: seq<nat>, n: nat)
    requires 0 < n <= |ws|
    ensures Total(ws[..n]) == (if n == 1 then 0 else Total(ws[..n - 1]) + 3) + ws[n - 1]
  {
    assert ws[..n][..n - 1] == ws[..n - 1];
    assert Sum(ws[..n]) == Sum(ws[..n - 1]) + ws[n - 1];
    if n == 1 {
      assert ws[..0] == [] && Sum([]) == 0;
    }
  }

  lemma OneByteConcat(s: string, t: string)
    requires OneByte(s) && OneByte(t)
    ensures OneByte(s + t)
  {
  }

  lemma {:induction false} RowBytes(t: Table, row: seq<string>, ws: seq<nat>, n: nat)
    requires 0 < n <= |ws|
    ensures Bytes(RowLine(t, row, ws, n)) == Total(ws[..n]) + Extra(row, ws, n)
  {
    hide ShowCell, WideBytes, Bytes, Total;
    var front, gap := RowLine(t, row, ws, n - 1), if n > 1 then " | " else "";
    var cell := ShowCell(Cell(row, n - 1), ws[n - 1], AlignOf(t, n - 1));
    CellBytes(Cell(row, n - 1), ws[n - 1], AlignOf(t, n - 1));
    OneByteEach(gap);
    BytesConcat(front, gap);
    BytesConcat(front + gap, cell);
    TotalStep(ws, n);
    if n == 1 {
      OneByteEach(front);
    } else {
      RowBytes(t, row, ws, n - 1);
    }
  }

  lemma {:induction false} RuleOneByte(ws: seq<nat>, n: nat)
    requires n <= |ws|
    ensures OneByte(RuleLine(ws, n))
  {
    if n > 0 {
      hide OneByte;
      RuleOneByte(ws, n - 1);
      DashesOneByte(ws[n - 1]);
      OneByteConcat(RuleLine(ws, n - 1), if n > 1 then "-+-" else "");
      OneByteConcat(RuleLine(ws, n - 1) + if n > 1 then "-+-" else "", Repeat('-', ws[n - 1]));
    }
  }

  lemma DashesOneByte(n: nat)
    ensures OneByte(Repeat('-', n)) && OneByte("-+-") && OneByte("")
  {
  }

  lemma RuleBytes(ws: seq<nat>, n: nat)
    requires n <= |ws|
    ensures Bytes(RuleLine(ws, n)) == |RuleLine(ws, n)|
  {
    RuleOneByte(ws, n);
    OneByteEach(RuleLine(ws, n));
  }

  /** The row shown on a line; the rule shows none. */
  function RowAt(t: Table, i: nat): seq<string>
    requires i < |t.rows| + 2
  {
    if i == 0 then t.headers else if i == 1 then [] else t.rows[i - 2]
  }

  lemma {:induction false} LineAt(t: Table, ws: seq<nat>, r: nat, i: nat)
    requires r <= |t.rows| && i < r + 2
    ensures |Lines(t, ws, r)| == r + 2
    ensures Lines(t, ws, r)[i] == if i == 1 then RuleLine(ws, |ws|) else RowLine(t, RowAt(t, i), ws, |ws|)
  {
    hide RowLine, RuleLine;
    if r > 0 {
      LineAt(t, ws, r - 1, if i < r + 1 then i else 0);
    }
  }

  lemma {:induction false} NoExtraWithoutRow(ws: seq<nat>, n: nat)
    requires n <= |ws|
    ensures Extra([], ws, n) == 0
  {
    ExtraZeroIff([], ws, n);
  }

  /** A line has as many bytes as places, and those its wide characters add. */
  lemma LineBytes(t: Table, ws: seq<nat>, i: nat)
    requires ws != [] && i < |t.rows| + 2
    ensures i < |Lines(t, ws, |t.rows|)|
    ensures Bytes(Lines(t, ws, |t.rows|)[i]) == Total(ws) + Extra(RowAt(t, i), ws, |ws|)
  {
    hide RowLine, RuleLine, Extra, Bytes;
    LineAt(t, ws, |t.rows|, i);
    assert ws[..|ws|] == ws;
    if i == 1 {
      RuleBytes(ws, |ws|);
      LinesAreTotal(t, [], ws, |ws|);
      NoExtraWithoutRow(ws, |ws|);
    } else {
      RowBytes(t, RowAt(t, i), ws, |ws|);
    }
  }

  ghost predicate Within(lines: seq<string>, width: int) {
    forall i :: 0 <= i < |lines| ==> Bytes(lines[i]) <= width
  }

  /** Every cell, once fitted, is of one-byte characters. */
  ghost predicate ShowsOneByte(t: Table, ws: seq<nat>) {
    forall i, c :: 0 <= i < |t.rows| + 2 && 0 <= c < |ws| ==> OneByte(FitCell(Cell(RowAt(t, i), c), ws[c]))
  }

  /** Counted in bytes, the lines stay within the width exactly when on every row the
      bytes of wide characters are made up for by unused places; on lines that take the
      full width, exactly when no wide character is shown. */
  lemma BytesWithinIff(t: Table, width: int, n: nat)
    requires t.headers != [] && StopsAfter(Natural(t), width, n)
    ensures var ws := Rounds(Natural(t), width, n);
            && (Within(Lines(t, ws, |t.rows|), width) <==>
                forall i: nat :: i < |t.rows| + 2 ==> Extra(RowAt(t, i), ws, |ws|) <= width - Total(ws))
            && (Total(ws) == width ==> (Within(Lines(t, ws, |t.rows|), width) <==> ShowsOneByte(t, ws)))
  {
    hide Total, Bytes, Lines, RowAt, Extra, FitCell, OneByte, Rounds, StopsAfter, Cell;
    var ws := Rounds(Natural(t), width, n);
    LineAt(t, ws, |t.rows|, 0);
    forall i: nat | i < |t.rows| + 2
      ensures Bytes(Lines(t, ws, |t.rows|)[i]) == Total(ws) + Extra(RowAt(t, i), ws, |ws|)
      ensures Extra(RowAt(t, i), ws, |ws|) >= 0
      ensures Extra(RowAt(t, i), ws, |ws|) == 0 <==>
              forall c :: 0 <= c < |ws| ==> OneByte(FitCell(Cell(RowAt(t, i), c), ws[c]))
    {
      LineBytes(t, ws, i);
      ExtraZeroIff(RowAt(t, i), ws, |ws|);
    }
  }

  // ---- Tables of one-byte characters ----

  predicate OneByteTable(t: Table) {
    OneByteRow(t.headers) && forall r :: 0 <= r < |t.rows| ==> OneByteRow(t.rows[r])
  }

  /** Some line shows a cut cell exactly when some column is cut to two places or more. */
  lemma CutColumnShows(t: Table, w: nat, c: nat) returns (i: nat)
    requires c < |t.headers| && 2 <= w < Natural(t)[c]
    ensures i < |t.rows| + 2 && i != 1 && Cut(Cell(RowAt(t, i), c), w)
  {
    NaturalHoldsAll(t, c, |t.rows|);
    if |t.headers[c]| == Natural(t)[c] {
      i := 0;
    } else {
      var r :| 0 <= r < |t.rows| && |Cell(t.rows[r], c)| == Natural(t)[c];
      i := r + 2;
    }
  }

  lemma CutNeedsColumn(t: Table, w: nat, i: nat, c: nat)
    requires c < |t.headers| && i < |t.rows| + 2 && Cut(Cell(RowAt(t, i), c), w)
    ensures 2 <= w < Natural(t)[c]
  {
    NaturalHoldsAll(t, c, |t.rows|);
    assert i > 1 ==> |Cell(t.rows[i - 2], c)| <= Natural(t)[c];
  }

  lemma ShownOneByteIff(t: Table, i: nat, c: nat, w: nat)
    requires OneByteTable(t) && i < |t.rows| + 2
    ensures OneByte(FitCell(Cell(RowAt(t, i), c), w)) <==> !Cut(Cell(RowAt(t, i), c), w)
  {
    assert OneByte(Cell(RowAt(t, i), c));
    WideBytesAre(Cell(RowAt(t, i), c), w);
  }

  lemma ShowsOneByteIff(t: Table, ws: seq<nat>)
    requires OneByteTable(t) && |ws| == |t.headers|
    ensures ShowsOneByte(t, ws) <==> !CutsSomeWide(Natural(t), ws)
  {
    hide Cut, RowAt, FitCell, OneByte, OneByteTable, Cell, Natural;
    forall i: nat, c: nat | i < |t.rows| + 2 && c < |ws|
      ensures OneByte(FitCell(Cell(RowAt(t, i), c), ws[c])) <==> !Cut(Cell(RowAt(t, i), c), ws[c])
      ensures Cut(Cell(RowAt(t, i), c), ws[c]) ==> 2 <= ws[c] < Natural(t)[c]
    {
      ShownOneByteIff(t, i, c, ws[c]);
      if Cut(Cell(RowAt(t, i), c), ws[c]) {
        CutNeedsColumn(t, ws[c], i, c);
      }
    }
    if c: nat :| c < |ws| && 2 <= ws[c] < Natural(t)[c] {
      var i := CutColumnShows(t, ws[c], c);
    }
  }

  /** The lines of a table of one-byte characters stay within the width in bytes exactly
      when the table fits uncut, or cutting widest columns to one character each meets
      the width exactly. */
  lemma OneByteWithinIff(t: Table, width: int, n: nat)
    requires t.headers != [] && OneByteTable(t) && StopsAfter(Natural(t), width, n)
    ensures Within(Lines(t, Rounds(Natural(t), width, n), |t.rows|), width) <==>
            Total(Natural(t)) <= width || exists m: nat :: Total(Narrowed(Natural(t), m)) == width
  {
    if n == 0 {
      NothingCut(t, width);
    } else {
      hide *;
      CutsNoneWideIff(Natural(t), width, n);
      ShowsOneByteIff(t, Rounds(Natural(t), width, n));
      BytesWithinIff(t, width, n);
      StopsAtWidth(Natural(t), width, n);
    }
  }

  lemma NothingCut(t: Table, width: int)
    requires t.headers != [] && OneByteTable(t) && Total(Natural(t)) <= width
    ensures Within(Lines(t, Natural(t), |t.rows|), width)
  {
    hide Lines, OneByteTable, Total, Extra;
    var ws := Natural(t);
    ShowsOneByteIff(t, ws);
    LineAt(t, ws, |t.rows|, 0);
    forall i: nat | i < |t.rows| + 2 ensures Bytes(Lines(t, ws, |t.rows|)[i]) <= width {
      LineBytes(t, ws, i);
      ExtraZeroIff(RowAt(t, i), ws, |ws|);
    }
  }

  /** A table of one header of six letters: at width three its line takes five bytes. */
  lemma CutHeaderTooLong()
    ensures var t := Table(["abcdef"], [], []);
            && StopsAfter(Natural(t), 3, 1) && Rounds(Natural(t), 3, 1) == [3]
            && Lines(t, [3], 0)[0] == "ab" + [ELLIPSIS] && Bytes(Lines(t, [3], 0)[0]) == 5
  {
    var t := Table(["abcdef"], [], []);
    assert Natural(t) == [6];
    assert [6][..0] == [] && Sum([6]) == Sum([6][..0]) + 6;
    assert [3][..0] == [] && Sum([3]) == Sum([3][..0]) + 3;
    assert Rounds([6], 3, 0) == [6] && Rounds([6], 3, 1) == Shrink(Rounds([6], 3, 0), 3) == [3];
    CutLine(t);
  }

  lemma CutLine(t: Table)
    requires t == Table(["abcdef"], [], [])
    ensures Lines(t, [3], 0)[0] == "ab" + [ELLIPSIS] && Bytes("ab" + [ELLIPSIS]) == 5
  {
    assert RowLine(t, ["abcdef"], [3], 0) == "";
    assert ShowCell("abcdef", 3, Left) == "abcdef"[..2] + [ELLIPSIS];
    BytesConcat("ab", [ELLIPSIS]);
    BytesAtLeast("ab");
    assert [ELLIPSIS][..0] == "";
  }

  /** Without any cut, a header of one two-byte letter takes two bytes at width one. */
  lemma WideHeaderTooLong()
    ensures var t := Table(["\U{E9}"], [], []);
            && StopsAfter(Natural(t), 1, 0) && Rounds(Natural(t), 1, 0) == Natural(t) == [1]
            && !Within(Lines(t, [1], 0), 1)
  {
    var t := Table(["\U{E9}"], [], []);
    assert Natural(t) == [1] && [1][..0] == [] && Sum([1]) == Sum([1][..0]) + 1;
    assert Rounds([1], 1, 0) == [1];
    assert RowAt(t, 0) == ["\U{E9}"] && "\U{E9}"[0] >= '\U{80}';
    assert !ShowsOneByte(t, [1]) by {
      assert !OneByte(FitCell(Cell(RowAt(t, 0), 0), [1][0]));
    }
    BytesWithinIff(t, 1, 0);
  }
}
