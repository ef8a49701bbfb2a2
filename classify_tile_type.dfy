/// Grid discovery for one item (TestCrawl/download_image/1_classify_tile_type.py):
/// probe the tiles of face "b" level by level, row by row and column by
/// column, stop each scan at its first missing tile, and file the item under
/// a name that encodes the discovered (level, rows, cols) structure.
module ClassifyTileType {
  import opened Common
  import opened Text
  import opened Tiles

  const BASE_URL := "https://imgscdn.ajun720.cn"
  const OUTPUT_DIR := "output_structure"
  const INPUT_FILE := "has_image.txt"
  const MAX_LEVEL := 6
  const MAX_ROW := 10
  const MAX_COL := 20
  const FACE := "b"
  const RETRY := 3

  /** One discovered level: its number n (the source keeps the name
      "l{n}", which LevelName renders), how many rows it has and the widest
      row's column count. */
  datatype LevelSpec = LevelSpec(level: int, rows: int, cols: int)

  function Max(a: int, b: int): int {
    if a < b then b else a
  }

  // ---------------------------------------------------------------------
  // check_url

  /** What check_url answers from attempt k on: the first attempt that gets
      a response decides (status 200 or not); an attempt that raises is
      followed by another unless it was the last, which answers false. With
      no attempts at all the function falls off its loop and yields None. */
  function CheckUrlFrom(outs: seq<Attempt>, k: nat, retries: int): Option<bool>
    decreases retries - k
  {
    if k >= retries then None
    else if AttemptAt(outs, k).Response? then Some(AttemptAt(outs, k).status == 200)
    else if k < retries - 1 then CheckUrlFrom(outs, k + 1, retries)
    else Some(false)
  }

  /** A HEAD request retried only when it raises, at most `retries` times. */
  method CheckUrl(outs: seq<Attempt>, retries: int) returns (r: Option<bool>, attempts: nat)
    ensures r == CheckUrlFrom(outs, 0, retries)
    ensures attempts <= Max(retries, 0)
    ensures forall j :: 0 <= j < attempts - 1 ==> AttemptAt(outs, j).Raised?
  {
    attempts := 0;
    var attempt := 0;
    while attempt < retries
      invariant 0 <= attempt && attempts == attempt
      invariant retries > 0 ==> attempt < retries
      invariant retries <= 0 ==> attempt == 0
      invariant forall j :: 0 <= j < attempt ==> AttemptAt(outs, j).Raised?
      invariant CheckUrlFrom(outs, 0, retries) == CheckUrlFrom(outs, attempt, retries)
      decreases retries - attempt
    {
      attempts := attempts + 1;
      var a := AttemptAt(outs, attempt);
      if a.Response? {
        return Some(a.status == 200), attempts;
      }
      if attempt < retries - 1 {
        attempt := attempt + 1;
      } else {
        return Some(false), attempts;
      }
    }
    return None, attempts;
  }

  /** check_url's answer: None exactly when it may make no attempt; otherwise
      true exactly when the first attempt that does not raise comes back
      with status 200 (a response of any other status is not retried). */
  lemma CheckUrlMeaning(outs: seq<Attempt>, retries: int)
    ensures CheckUrlFrom(outs, 0, retries).None? <==> retries <= 0
    ensures CheckUrlFrom(outs, 0, retries) == Some(true) <==>
              exists k :: 0 <= k < retries && IsOk(AttemptAt(outs, k))
                && forall j :: 0 <= j < k ==> AttemptAt(outs, j).Raised?
  {
    CheckUrlFromMeaning(outs, 0, retries);
  }

  lemma {:induction false} CheckUrlFromMeaning(outs: seq<Attempt>, k: nat, retries: int)
    ensures CheckUrlFrom(outs, k, retries).None? <==> k >= retries
    ensures CheckUrlFrom(outs, k, retries) == Some(true) <==>
              exists i :: k <= i < retries && IsOk(AttemptAt(outs, i))
                && forall j :: k <= j < i ==> AttemptAt(outs, j).Raised?
    decreases retries - k
  {
    if k < retries && AttemptAt(outs, k).Raised? && k < retries - 1 {
      CheckUrlFromMeaning(outs, k + 1, retries);
      if CheckUrlFrom(outs, k, retries) == Some(true) {
        var i :| k + 1 <= i < retries && IsOk(AttemptAt(outs, i))
                 && forall j :: k + 1 <= j < i ==> AttemptAt(outs, j).Raised?;
        assert forall j :: k <= j < i ==> AttemptAt(outs, j).Raised?;
      }
      if exists i :: k <= i < retries && IsOk(AttemptAt(outs, i))
           && forall j :: k <= j < i ==> AttemptAt(outs, j).Raised? {
        var i :| k <= i < retries && IsOk(AttemptAt(outs, i))
                 && forall j :: k <= j < i ==> AttemptAt(outs, j).Raised?;
        assert i != k;
        assert forall j :: k + 1 <= j < i ==> AttemptAt(outs, j).Raised?;
      }
    } else if k < retries && AttemptAt(outs, k).Response? {
      if AttemptAt(outs, k).status == 200 {
        assert IsOk(AttemptAt(outs, k));
      }
    }
  }

  // ---------------------------------------------------------------------
  // get_structure

  /** f"{base}/{cdn_path}/{FACE}". */
  function FullCdnUrl(base: string, cdnPath: string): string {
    base + "/" + cdnPath + "/" + FACE
  }

  /** The URL probed for tile (row, col) of a level. */
  function ImageUrl(fullCdnUrl: string, level: string, row: int, col: int): string {
    fullCdnUrl + "/" + level + "/" + IntToString(row) + "/" + level + "_" + FACE + "_"
      + IntToString(row) + "_" + IntToString(col) + ".jpg"
  }

  /** The URL probed for a level's first tile before its rows are scanned. */
  function AnchorUrl(fullCdnUrl: string, level: string): string {
    fullCdnUrl + "/" + level + "/1/" + level + "_" + FACE + "_1_1.jpg"
  }

  /** The anchor probe asks about the same URL as tile (1, 1). */
  lemma AnchorIsFirstTile(fullCdnUrl: string, level: string)
    ensures AnchorUrl(fullCdnUrl, level) == ImageUrl(fullCdnUrl, level, 1, 1)
  {
    assert IntToString(1) == "1";
  }

  /** The probed URLs are the CDN tile URLs of face "b". */
  lemma ProbedUrlIsTileUrl(base: string, cdnPath: string, level: int, row: int, col: int)
    ensures ImageUrl(FullCdnUrl(base, cdnPath), LevelName(level), row, col)
              == TileUrl(base, cdnPath, TileId(FACE, level, row, col))
  {
  }

  /** Which tiles (level, row, col) of face "b" the probes report present. */
  type Oracle = (int, int, int) -> bool

  /** check_url's verdict on every tile of one CDN path. */
  function Probe(net: Network, cdnPath: string): Oracle {
    (lv: int, row: int, col: int) =>
      CheckUrlFrom(net(ImageUrl(FullCdnUrl(BASE_URL, cdnPath), LevelName(lv), row, col)), 0, RETRY) == Some(true)
  }

  /** `present` holds check_url's verdict on every tile of face "b" under
      cdnPath. */
  ghost predicate Answers(present: Oracle, net: Network, cdnPath: string) {
    forall lv, row, col {:trigger ImageUrl(FullCdnUrl(BASE_URL, cdnPath), LevelName(lv), row, col)} ::
      present(lv, row, col)
        == (CheckUrlFrom(net(ImageUrl(FullCdnUrl(BASE_URL, cdnPath), LevelName(lv), row, col)), 0, RETRY) == Some(true))
  }

  lemma ProbeAnswers(net: Network, cdnPath: string)
    ensures Answers(Probe(net, cdnPath), net, cdnPath)
  {
  }

  /** The number of present columns of a row, counted from column c up to
      the first missing one (or past MAX_COL). */
  function ColRun(present: Oracle, lv: int, row: int, c: int): (n: nat)
    requires 1 <= c <= MAX_COL + 1
    ensures n <= MAX_COL + 1 - c
    decreases MAX_COL + 1 - c
  {
    if c > MAX_COL || !present(lv, row, c) then 0 else 1 + ColRun(present, lv, row, c + 1)
  }

  /** How many rows from `row` on have their first tile present, up to
      the first that does not (or past MAX_ROW). A row's column count is 0
      exactly when its first tile is missing, which is where the row scan
      stops. */
  function RowRun(present: Oracle, lv: int, row: int): (n: nat)
    requires 1 <= row <= MAX_ROW + 1
    ensures n <= MAX_ROW + 1 - row
    decreases MAX_ROW + 1 - row
  {
    if row > MAX_ROW || !present(lv, row, 1) then 0 else 1 + RowRun(present, lv, row + 1)
  }

  /** The largest column count among rows 1 .. n (0 when n is 0). */
  function Widest(present: Oracle, lv: int, n: int): (w: nat)
    requires 0 <= n <= MAX_ROW
    ensures w <= MAX_COL
  {
    if n == 0 then 0 else Max(Widest(present, lv, n - 1), ColRun(present, lv, n, 1))
  }

  /** What the scan of a level whose anchor is present records. */
  function ScanOf(present: Oracle, lv: int): LevelSpec {
    var rows := RowRun(present, lv, 1);
    LevelSpec(lv, rows, Widest(present, lv, rows))
  }

  /** How many levels from lv on have their anchor tile present, up to the
      first that does not (or past MAX_LEVEL). */
  function AnchorRun(present: Oracle, lv: int): (n: nat)
    requires 1 <= lv <= MAX_LEVEL + 1
    ensures n <= MAX_LEVEL + 1 - lv
    decreases MAX_LEVEL + 1 - lv
  {
    if lv > MAX_LEVEL || !present(lv, 1, 1) then 0 else 1 + AnchorRun(present, lv + 1)
  }

  /** The structure the probes reveal: one scanned level for each level
      from 1 up to the first absent anchor. */
  function Discovered(present: Oracle): seq<LevelSpec> {
    seq(AnchorRun(present, 1), i => ScanOf(present, i + 1))
  }

  /** The structure get_structure discovers for one CDN path. */
  function Discover(net: Network, cdnPath: string): seq<LevelSpec> {
    Discovered(Probe(net, cdnPath))
  }

  /** At most how many probes the row scan of a level makes: for every
      recorded row the widest run plus the miss that ends it, and one more
      miss that ends the rows. */
  function RowProbes(rows: int, cols: int): int
    decreases rows
  {
    if rows <= 0 then 1 else RowProbes(rows - 1, cols) + cols + 1
  }

  /** The row-scan budget is rows * (cols + 1) + 1. */
  lemma {:induction false} RowProbesValue(rows: nat, cols: int)
    ensures RowProbes(rows, cols) == rows * (cols + 1) + 1
  {
    if rows > 0 {
      RowProbesValue(rows - 1, cols);
    }
  }

  lemma {:induction false} RowProbesMono(rows: int, cols: int, cols': int)
    requires cols <= cols'
    ensures RowProbes(rows, cols) <= RowProbes(rows, cols')
    decreases rows
  {
    if rows > 0 {
      RowProbesMono(rows - 1, cols, cols');
    }
  }

  /** At most how many probes get_structure makes for a structure: per
      level its anchor and its row scan, and the anchor miss that ends the
      levels. */
  function ProbeBudget(s: seq<LevelSpec>): int {
    if s == [] then 1
    else
      var l := s[|s| - 1];
      ProbeBudget(s[..|s| - 1]) + 1 + RowProbes(l.rows, l.cols)
  }

  lemma BudgetAppend(s: seq<LevelSpec>, e: LevelSpec)
    ensures ProbeBudget(s + [e]) == ProbeBudget(s) + 1 + RowProbes(e.rows, e.cols)
  {
    assert (s + [e])[..|s|] == s;
  }

  /** The bookkeeping of one more scanned row. */
  lemma RowCost(rows: nat, cols: nat, count: nat)
    ensures RowProbes(rows, cols) + count + 1 <= RowProbes(rows + 1, Max(cols, count))
  {
    RowProbesMono(rows, cols, Max(cols, count));
  }

  /** Every probe is of face "b", of a level in lo .. hi, and of a row and
      a column within the bounds. */
  predicate ProbesWithin(ps: seq<TileId>, lo: int, hi: int) {
    forall i :: 0 <= i < |ps| ==>
      ps[i].face == FACE && lo <= ps[i].level <= hi && 1 <= ps[i].row <= MAX_ROW && 1 <= ps[i].col <= MAX_COL
  }

  lemma ProbesAppend(a: seq<TileId>, b: seq<TileId>, lo: int, hi: int, lo': int, hi': int)
    requires ProbesWithin(a, lo, hi) && ProbesWithin(b, lo', hi')
    requires lo <= lo' && hi' <= hi
    ensures ProbesWithin(a + b, lo, hi)
  {
    forall i | 0 <= i < |a + b|
      ensures (a + b)[i].face == FACE && lo <= (a + b)[i].level <= hi
              && 1 <= (a + b)[i].row <= MAX_ROW && 1 <= (a + b)[i].col <= MAX_COL
    {
      if i >= |a| {
        assert (a + b)[i] == b[i - |a|];
      }
    }
  }

  /** The innermost loop of get_structure: probe the columns of one row
      until the first miss. */
  method ScanRow(net: Network, cdnPath: string, fullCdnUrl: string, levelNum: int, row: int, ghost present: Oracle)
    returns (colCount: nat, probed: seq<TileId>)
    requires fullCdnUrl == FullCdnUrl(BASE_URL, cdnPath) && 1 <= row <= MAX_ROW
    requires Answers(present, net, cdnPath)
    ensures colCount == ColRun(present, levelNum, row, 1)
    ensures ProbesWithin(probed, levelNum, levelNum)
    ensures |probed| <= colCount + 1
  {
    var level := LevelName(levelNum);
    colCount, probed := 0, [];
    var col := 1;
    while col <= MAX_COL
      invariant 1 <= col <= MAX_COL + 1 && colCount == col - 1
      invariant ColRun(present, levelNum, row, 1) == colCount + ColRun(present, levelNum, row, col)
      invariant ProbesWithin(probed, levelNum, levelNum)
      invariant |probed| == colCount
    {
      var found, _ := CheckUrl(net(ImageUrl(fullCdnUrl, level, row, col)), RETRY);
      assert found == Some(true) <==> present(levelNum, row, col);
      ProbesAppend(probed, [TileId(FACE, levelNum, row, col)], levelNum, levelNum, levelNum, levelNum);
      probed := probed + [TileId(FACE, levelNum, row, col)];
      if found == Some(true) {
        colCount := colCount + 1;
      } else {
        break;
      }
      col := col + 1;
    }
  }

  /** The row loop of get_structure for a level whose anchor is present:
      count the rows that have a first tile and keep the widest. */
  method ScanLevel(net: Network, cdnPath: string, fullCdnUrl: string, levelNum: int, ghost present: Oracle)
    returns (maxRow: nat, maxCol: nat, probed: seq<TileId>)
    requires fullCdnUrl == FullCdnUrl(BASE_URL, cdnPath)
    requires Answers(present, net, cdnPath)
    ensures LevelSpec(levelNum, maxRow, maxCol) == ScanOf(present, levelNum)
    ensures ProbesWithin(probed, levelNum, levelNum)
    ensures |probed| <= RowProbes(maxRow, maxCol)
  {
    maxRow, maxCol, probed := 0, 0, [];
    var row := 1;
    while row <= MAX_ROW
      invariant 1 <= row <= MAX_ROW + 1 && maxRow == row - 1
      invariant RowRun(present, levelNum, 1) == maxRow + RowRun(present, levelNum, row)
      invariant maxCol == Widest(present, levelNum, maxRow)
      invariant ProbesWithin(probed, levelNum, levelNum)
      invariant |probed| + 1 <= RowProbes(maxRow, maxCol)
    {
      var colCount, rowProbes := ScanRow(net, cdnPath, fullCdnUrl, levelNum, row, present);
      ProbesAppend(probed, rowProbes, levelNum, levelNum, levelNum, levelNum);
      probed := probed + rowProbes;
      if colCount == 0 {
        assert !present(levelNum, row, 1);
        assert RowRun(present, levelNum, row) == 0;
        break;
      }
      RowCost(maxRow, maxCol, colCount);
      maxRow := maxRow + 1;
      maxCol := Max(maxCol, colCount);
      row := row + 1;
    }
    assert RowRun(present, levelNum, 1) == maxRow;
  }

  /** The probe of a level's first tile that decides whether the level is
      scanned at all. */
  method CheckAnchor(net: Network, cdnPath: string, fullCdnUrl: string, levelNum: int, ghost present: Oracle)
    returns (found: bool)
    requires fullCdnUrl == FullCdnUrl(BASE_URL, cdnPath)
    requires Answers(present, net, cdnPath)
    ensures found == present(levelNum, 1, 1)
  {
    var level := LevelName(levelNum);
    AnchorIsFirstTile(fullCdnUrl, level);
    var r, _ := CheckUrl(net(AnchorUrl(fullCdnUrl, level)), RETRY);
    found := r == Some(true);
  }

  /** One round of get_structure's level loop: probe the level's anchor
      and, when it is present, scan the level's rows. */
  method ScanLevelIfAnchored(net: Network, cdnPath: string, fullCdnUrl: string, levelNum: int, ghost present: Oracle)
    returns (entry: Option<LevelSpec>, probed: seq<TileId>)
    requires fullCdnUrl == FullCdnUrl(BASE_URL, cdnPath) && 1 <= levelNum <= MAX_LEVEL
    requires Answers(present, net, cdnPath)
    ensures entry == (if present(levelNum, 1, 1) then Some(ScanOf(present, levelNum)) else None)
    ensures ProbesWithin(probed, levelNum, levelNum)
    ensures entry.None? ==> |probed| == 1
    ensures entry.Some? ==> |probed| <= 1 + RowProbes(entry.value.rows, entry.value.cols)
  {
    var anchor := CheckAnchor(net, cdnPath, fullCdnUrl, levelNum, present);
    probed := [TileId(FACE, levelNum, 1, 1)];
    if !anchor {
      return None, probed;
    }
    var maxRow, maxCol, levelProbes := ScanLevel(net, cdnPath, fullCdnUrl, levelNum, present);
    ProbesAppend(probed, levelProbes, levelNum, levelNum, levelNum, levelNum);
    probed := probed + levelProbes;
    entry := Some(LevelSpec(levelNum, maxRow, maxCol));
  }

  /** The levels recorded so far are the scans of levels 1, 2, ... */
  ghost predicate ScannedPrefix(present: Oracle, structure: seq<LevelSpec>) {
    forall i :: 0 <= i < |structure| ==> structure[i] == ScanOf(present, i + 1)
  }

  /** The bookkeeping of one more recorded level in get_structure. */
  lemma RecordLevel(present: Oracle, structure: seq<LevelSpec>, e: LevelSpec)
    requires 1 <= |structure| + 1 <= MAX_LEVEL && present(|structure| + 1, 1, 1)
    requires ScannedPrefix(present, structure) && e == ScanOf(present, |structure| + 1)
    requires AnchorRun(present, 1) == |structure| + AnchorRun(present, |structure| + 1)
    ensures ScannedPrefix(present, structure + [e])
    ensures AnchorRun(present, 1) == |structure| + 1 + AnchorRun(present, |structure| + 2)
    ensures ProbeBudget(structure + [e]) == ProbeBudget(structure) + 1 + RowProbes(e.rows, e.cols)
  {
    BudgetAppend(structure, e);
  }

  /** A prefix of scans as long as the anchor run is the discovered structure. */
  lemma PrefixIsDiscovered(present: Oracle, structure: seq<LevelSpec>)
    requires ScannedPrefix(present, structure) && |structure| == AnchorRun(present, 1)
    ensures structure == Discovered(present)
  {
  }

  /** get_structure: the discovered structure, and the tiles probed in
      order; every probe is of face "b" within the bounds, and there are
      at most the anchors plus one full scan of each recorded level. */
  method GetStructure(net: Network, cdnPath: string, ghost present: Oracle)
    returns (structure: seq<LevelSpec>, probed: seq<TileId>)
    requires Answers(present, net, cdnPath)
    ensures structure == Discovered(present)
    ensures ProbesWithin(probed, 1, MAX_LEVEL)
    ensures |probed| <= ProbeBudget(structure)
  {
    var fullCdnUrl := FullCdnUrl(BASE_URL, cdnPath);
    structure, probed := [], [];
    var levelNum := 1;
    while levelNum <= MAX_LEVEL
      invariant 1 <= levelNum <= MAX_LEVEL + 1 && |structure| == levelNum - 1
      invariant ScannedPrefix(present, structure)
      invariant AnchorRun(present, 1) == |structure| + AnchorRun(present, levelNum)
      invariant ProbesWithin(probed, 1, MAX_LEVEL)
      invariant |probed| + 1 <= ProbeBudget(structure)
    {
      var entry, levelProbes := ScanLevelIfAnchored(net, cdnPath, fullCdnUrl, levelNum, present);
      ProbesAppend(probed, levelProbes, 1, MAX_LEVEL, levelNum, levelNum);
      probed := probed + levelProbes;
      if entry.None? {
        break;
      }
      RecordLevel(present, structure, entry.value);
      structure := structure + [entry.value];
      levelNum := levelNum + 1;
    }
    PrefixIsDiscovered(present, structure);
  }

  // ---------------------------------------------------------------------
  // What get_structure promises, for any verdicts of the probes

  /** The discovered levels are named l1, l2, ... consecutively, at most
      MAX_LEVEL of them; each one's anchor tile was present, and probing
      stopped at the first level whose anchor was not. */
  lemma DiscoverLevels(present: Oracle)
    ensures |Discovered(present)| <= MAX_LEVEL
    ensures forall i :: 0 <= i < |Discovered(present)| ==>
              Discovered(present)[i] == ScanOf(present, i + 1) && present(i + 1, 1, 1)
    ensures |Discovered(present)| < MAX_LEVEL ==> !present(|Discovered(present)| + 1, 1, 1)
  {
    AnchorRunMeaning(present, 1);
  }

  lemma {:induction false} AnchorRunMeaning(present: Oracle, lv: int)
    requires 1 <= lv <= MAX_LEVEL + 1
    ensures forall j :: lv <= j < lv + AnchorRun(present, lv) ==> present(j, 1, 1)
    ensures lv + AnchorRun(present, lv) <= MAX_LEVEL ==> !present(lv + AnchorRun(present, lv), 1, 1)
    decreases MAX_LEVEL + 1 - lv
  {
    if lv <= MAX_LEVEL && present(lv, 1, 1) {
      AnchorRunMeaning(present, lv + 1);
    }
  }

  /** A row's column count is the length of the run of present columns that
      starts at column c, capped at MAX_COL. */
  lemma {:induction false} ColRunMeaning(present: Oracle, lv: int, row: int, c: int)
    requires 1 <= c <= MAX_COL + 1
    ensures forall j :: c <= j < c + ColRun(present, lv, row, c) ==> present(lv, row, j)
    ensures c + ColRun(present, lv, row, c) <= MAX_COL ==> !present(lv, row, c + ColRun(present, lv, row, c))
    decreases MAX_COL + 1 - c
  {
    if c <= MAX_COL && present(lv, row, c) {
      ColRunMeaning(present, lv, row, c + 1);
    }
  }

  /** A level's rows are the longest run of rows whose first tile is
      present, capped at MAX_ROW. */
  lemma {:induction false} RowRunMeaning(present: Oracle, lv: int, row: int)
    requires 1 <= row <= MAX_ROW + 1
    ensures forall r :: row <= r < row + RowRun(present, lv, row) ==> present(lv, r, 1)
    ensures row + RowRun(present, lv, row) <= MAX_ROW ==> !present(lv, row + RowRun(present, lv, row), 1)
    decreases MAX_ROW + 1 - row
  {
    if row <= MAX_ROW && present(lv, row, 1) {
      RowRunMeaning(present, lv, row + 1);
    }
  }

  /** A level's cols is the largest column count over its rows, and some
      row reaches it. */
  lemma {:induction false} WidestMeaning(present: Oracle, lv: int, n: int)
    requires 0 <= n <= MAX_ROW
    ensures forall r :: 1 <= r <= n ==> ColRun(present, lv, r, 1) <= Widest(present, lv, n)
    ensures n > 0 ==> exists r :: 1 <= r <= n && ColRun(present, lv, r, 1) == Widest(present, lv, n)
  {
    if n > 0 {
      WidestMeaning(present, lv, n - 1);
      if n > 1 && Widest(present, lv, n - 1) > ColRun(present, lv, n, 1) {
        var r :| 1 <= r <= n - 1 && ColRun(present, lv, r, 1) == Widest(present, lv, n - 1);
        assert 1 <= r <= n;
      }
    }
  }

  /** A level is only recorded when its anchor was present, and the scan
      of its first row probes that same tile: no recorded level is empty. */
  lemma RecordedLevelsNonEmpty(present: Oracle)
    ensures forall i :: 0 <= i < |Discovered(present)| ==>
              Discovered(present)[i].rows >= 1 && Discovered(present)[i].cols >= 1
  {
    DiscoverLevels(present);
    forall i | 0 <= i < |Discovered(present)|
      ensures Discovered(present)[i].rows >= 1 && Discovered(present)[i].cols >= 1
    {
      ScanNonEmpty(present, i + 1);
    }
  }

  lemma ScanNonEmpty(present: Oracle, lv: int)
    requires present(lv, 1, 1)
    ensures ScanOf(present, lv).rows >= 1 && ScanOf(present, lv).cols >= 1
  {
    var rows := RowRun(present, lv, 1);
    assert rows >= 1;
    WidestMeaning(present, lv, rows);
    assert ColRun(present, lv, 1, 1) >= 1;
  }

  // ---------------------------------------------------------------------
  // A concrete backend: a single level whose row r has cols[r-1] columns.

  function MaxOf(cols: seq<int>): int
    requires |cols| >= 1
  {
    if |cols| == 1 then cols[0] else Max(MaxOf(cols[..|cols| - 1]), cols[|cols| - 1])
  }

  /** Against a backend that has exactly the tiles (1, r, c) with r <= R and
      c <= cols[r-1] and no level-2 anchor, discovery yields the one level
      [("l1", R, max cols)]. */
  lemma DiscoverSingleLevel(present: Oracle, cols: seq<int>)
    requires 1 <= |cols| <= MAX_ROW
    requires forall i :: 0 <= i < |cols| ==> 1 <= cols[i] <= MAX_COL
    requires forall r, c :: 1 <= r <= MAX_ROW && 1 <= c <= MAX_COL ==>
               (present(1, r, c) <==> r <= |cols| && c <= cols[r - 1])
    requires !present(2, 1, 1)
    ensures Discovered(present) == [LevelSpec(1, |cols|, MaxOf(cols))]
  {
    assert present(1, 1, 1);
    RowsOfSingleLevel(present, cols, 1);
    WidestOfSingleLevel(present, cols, |cols|);
    assert cols[..|cols|] == cols;
    assert ScanOf(present, 1) == LevelSpec(1, |cols|, MaxOf(cols));
    assert AnchorRun(present, 2) == 0;
  }

  lemma {:induction false} ColsOfRow(present: Oracle, lv: int, row: int, width: int, c: int)
    requires 0 <= width <= MAX_COL && 1 <= c <= width + 1
    requires forall j :: 1 <= j <= MAX_COL ==> (present(lv, row, j) <==> j <= width)
    ensures ColRun(present, lv, row, c) == width + 1 - c
    decreases MAX_COL + 1 - c
  {
    if c <= width {
      ColsOfRow(present, lv, row, width, c + 1);
    }
  }

  lemma {:induction false} RowsOfSingleLevel(present: Oracle, cols: seq<int>, row: int)
    requires 1 <= |cols| <= MAX_ROW && 1 <= row <= |cols| + 1
    requires forall r, c :: 1 <= r <= MAX_ROW && 1 <= c <= MAX_COL ==>
               (present(1, r, c) <==> r <= |cols| && c <= cols[r - 1])
    requires forall i :: 0 <= i < |cols| ==> 1 <= cols[i] <= MAX_COL
    ensures RowRun(present, 1, row) == |cols| + 1 - row
    decreases |cols| + 1 - row
  {
    if row <= |cols| {
      assert present(1, row, 1);
      RowsOfSingleLevel(present, cols, row + 1);
    } else if row <= MAX_ROW {
      assert !present(1, row, 1);
    }
  }

  lemma {:induction false} WidestOfSingleLevel(present: Oracle, cols: seq<int>, n: int)
    requires 1 <= n <= |cols| <= MAX_ROW
    requires forall r, c :: 1 <= r <= MAX_ROW && 1 <= c <= MAX_COL ==>
               (present(1, r, c) <==> r <= |cols| && c <= cols[r - 1])
    requires forall i :: 0 <= i < |cols| ==> 1 <= cols[i] <= MAX_COL
    ensures Widest(present, 1, n) == MaxOf(cols[..n])
  {
    ColsOfRow(present, 1, n, cols[n - 1], 1);
    if n > 1 {
      WidestOfSingleLevel(present, cols, n - 1);
      assert cols[..n][..n - 1] == cols[..n - 1];
    } else {
      assert Widest(present, 1, 0) == 0;
    }
  }

  // ---------------------------------------------------------------------
  // format_filename, process_key, main

  /** f"{level}_{row}_{col}". */
  function LevelPart(l: LevelSpec): string {
    LevelName(l.level) + "_" + IntToString(l.rows) + "_" + IntToString(l.cols)
  }

  function LevelParts(s: seq<LevelSpec>): (parts: seq<string>)
    ensures |parts| == |s|
  {
    if s == [] then [] else [LevelPart(s[0])] + LevelParts(s[1..])
  }

  /** "_".join([f"l{len(structure)}"] + level parts) + ".txt". */
  function FormatFilename(structure: seq<LevelSpec>): string {
    Join([LevelName(|structure|)] + LevelParts(structure), '_') + ".txt"
  }

  function StructurePath(structure: seq<LevelSpec>): string {
    PathJoin(OUTPUT_DIR, FormatFilename(structure))
  }

  /** The line recorded for one item: "{key},{cdn}\n". */
  function KeyLine(productKey: string, cdnKeyFull: string): string {
    productKey + "," + cdnKeyFull + "\n"
  }

  /** process_key: nothing is written for an empty structure; otherwise one
      line "key,cdn" is appended to the file named after the structure. */
  method ProcessKey(disk: Disk, net: Network, productKey: string, cdnKeyFull: string)
    returns (structure: seq<LevelSpec>)
    modifies disk
    ensures structure == Discover(net, cdnKeyFull)
    ensures structure == [] ==> disk.text == old(disk.text)
    ensures structure != [] ==>
              disk.text == old(disk.text)[StructurePath(structure) :=
                old(disk.Contents(StructurePath(structure))) + KeyLine(productKey, cdnKeyFull)]
    ensures disk.blobs == old(disk.blobs)
  {
    var probed;
    ProbeAnswers(net, cdnKeyFull);
    structure, probed := GetStructure(net, cdnKeyFull, Probe(net, cdnKeyFull));
    if structure == [] {
      return;
    }
    var filepath := PathJoin(OUTPUT_DIR, FormatFilename(structure));
    disk.Append(filepath, productKey + "," + cdnKeyFull + "\n");
  }

  /** The (key, cdn path) pairs main hands to process_key: the input lines
      that hold a comma, split at the first one. */
  function Jobs(lines: seq<string>): seq<(string, string)> {
    if lines == [] then []
    else match SplitOnce(lines[0], ',')
      case None => Jobs(lines[1..])
      case Some(kv) => [kv] + Jobs(lines[1..])
  }

  function WithComma(lines: seq<string>): seq<string> {
    if lines == [] then []
    else if ',' in lines[0] then [lines[0]] + WithComma(lines[1..])
    else WithComma(lines[1..])
  }

  function Rejoin(jobs: seq<(string, string)>): seq<string> {
    if jobs == [] then [] else [jobs[0].0 + "," + jobs[0].1] + Rejoin(jobs[1..])
  }

  /** Every line without a comma is skipped; every other line becomes one
      job in input order, whose key holds no comma and which gives the line
      back when rejoined. */
  lemma {:induction false} JobsMeaning(lines: seq<string>)
    ensures Rejoin(Jobs(lines)) == WithComma(lines)
    ensures forall i :: 0 <= i < |Jobs(lines)| ==> ',' !in Jobs(lines)[i].0
  {
    if lines != [] {
      JobsMeaning(lines[1..]);
    }
  }

  /** The text files after process_key has run on one item whose structure
      is s. */
  function Recorded(text: map<string, string>, s: seq<LevelSpec>, productKey: string, cdnKeyFull: string): map<string, string> {
    if s == [] then text
    else text[StructurePath(s) := (if StructurePath(s) in text then text[StructurePath(s)] else "")
                                    + KeyLine(productKey, cdnKeyFull)]
  }

  /** The text files after process_key has run on each job in turn. */
  function RecordAll(text: map<string, string>, net: Network, jobs: seq<(string, string)>): map<string, string>
    decreases |jobs|
  {
    if jobs == [] then text
    else RecordAll(Recorded(text, Discover(net, jobs[0].1), jobs[0].0, jobs[0].1), net, jobs[1..])
  }

  /** The loop of main that turns lines into process_key tasks: a line
      that holds no comma fails to unpack into two values and is skipped. */
  method CollectJobs(lines: seq<string>) returns (tasks: seq<(string, string)>)
    ensures tasks == Jobs(lines)
  {
    tasks := [];
    var i := 0;
    while i < |lines|
      invariant 0 <= i <= |lines|
      invariant tasks + Jobs(lines[i..]) == Jobs(lines)
    {
      assert lines[i..][1..] == lines[i + 1..];
      var kv := SplitOnce(lines[i], ',');
      if kv.Some? {
        assert Jobs(lines[i..]) == [kv.value] + Jobs(lines[i + 1..]);
        assert (tasks + [kv.value]) + Jobs(lines[i + 1..]) == tasks + ([kv.value] + Jobs(lines[i + 1..]));
        tasks := tasks + [kv.value];
      }
      i := i + 1;
    }
    assert lines[i..] == [];
  }

  /** The gathered process_key tasks, run one after another. */
  method ProcessAll(disk: Disk, net: Network, tasks: seq<(string, string)>)
    modifies disk
    ensures disk.text == RecordAll(old(disk.text), net, tasks)
    ensures disk.blobs == old(disk.blobs)
  {
    var k := 0;
    while k < |tasks|
      invariant 0 <= k <= |tasks|
      invariant RecordAll(disk.text, net, tasks[k..]) == RecordAll(old(disk.text), net, tasks)
      invariant disk.blobs == old(disk.blobs)
    {
      assert tasks[k..][1..] == tasks[k + 1..];
      ghost var before := disk.text;
      var structure := ProcessKey(disk, net, tasks[k].0, tasks[k].1);
      assert disk.text == Recorded(before, structure, tasks[k].0, tasks[k].1);
      k := k + 1;
    }
    assert tasks[k..] == [];
  }

  /** main: read has_image.txt (missing: FileNotFoundError, reported as
      false), keep its stripped non-blank lines, and classify every line
      that holds a comma, one after another. */
  method Run(disk: Disk, net: Network) returns (ok: bool)
    modifies disk
    ensures ok == (INPUT_FILE in old(disk.text))
    ensures ok ==> disk.text == RecordAll(old(disk.text), net, Jobs(ReadStripped(old(disk.text)[INPUT_FILE])))
    ensures !ok ==> disk.text == old(disk.text)
    ensures disk.blobs == old(disk.blobs)
  {
    if INPUT_FILE !in disk.text {
      return false;
    }
    var lines := ReadStripped(disk.text[INPUT_FILE]);
    var tasks := CollectJobs(lines);
    ProcessAll(disk, net, tasks);
    return true;
  }
}
