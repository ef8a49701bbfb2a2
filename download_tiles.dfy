/// Tile download driven by the structure files
/// (TestCrawl/download_image/2_download_tiles_from_mapping.py): read the
/// (level, rows, cols) structure back out of a structure file's name, then
/// treat the file as a queue of "key,cdn" lines and download, for the item
/// at its head, the preview and every tile of every face.
module DownloadTiles {
  import opened Common
  import opened Text
  import opened Tiles
  import Classify = ClassifyTileType

  const FACES: seq<string> := ["f", "b", "l", "r", "u", "d"]
  const BASE_URL := "https://imgscdn.ajun720.cn"
  const OUTPUT_DIR := "image_crawled"
  const INPUT_FOLDER := "output_structure"
  const MAX_RETRY := 3

  type LevelSpec = Classify.LevelSpec

  // ---------------------------------------------------------------------
  // parse_structure_from_filename

  /** filename.replace(".txt", "").split("_"). */
  function Parts(filename: string): seq<string> {
    Split(ReplaceAll(filename, ".txt", ""), '_')
  }

  /** The body of the parsing loop's try block: the level number after
      the "l" and the row and column counts, all three as int(); None where
      one of them raises ValueError. */
  function ParseTriple(lvText: string, rowText: string, colText: string): Option<LevelSpec> {
    match (ParseInt(lvText), ParseInt(rowText), ParseInt(colText))
    case (Some(lv), Some(row), Some(col)) => Some(Classify.LevelSpec(lv, row, col))
    case _ => None
  }

  /** The triple that starts at part i: the part starts with "l", two parts
      follow it, and it (less its "l") and the next two parts are all ints. */
  function TripleAt(parts: seq<string>, i: nat): (r: Option<LevelSpec>)
    requires i < |parts|
    ensures r.Some? ==> i + 2 < |parts|
  {
    if StartsWith(parts[i], "l") && i + 2 < |parts| then ParseTriple(parts[i][1..], parts[i + 1], parts[i + 2])
    else None
  }

  /** What the parsing loop appends from index i on: where a triple starts
      it is taken and the scan jumps past it; in every other case one part
      is skipped. */
  function ParseFrom(parts: seq<string>, i: nat): (levels: seq<LevelSpec>)
    requires i <= |parts|
    ensures 3 * |levels| <= |parts| - i
    decreases |parts| - i
  {
    if i == |parts| then []
    else match TripleAt(parts, i)
      case Some(l) => [l] + ParseFrom(parts, i + 3)
      case None => ParseFrom(parts, i + 1)
  }

  /** The structure a structure file's name encodes. */
  function ParseStructure(filename: string): seq<LevelSpec> {
    ParseFrom(Parts(filename), 0)
  }

  /** parse_structure_from_filename: never raises, and the index moves
      forward on every round. */
  method ParseStructureFromFilename(filename: string) returns (levels: seq<LevelSpec>)
    ensures levels == ParseStructure(filename)
    ensures 3 * |levels| <= |Parts(filename)|
  {
    var parts := Split(ReplaceAll(filename, ".txt", ""), '_');
    levels := [];
    var i := 0;
    while i < |parts|
      invariant 0 <= i <= |parts|
      invariant levels + ParseFrom(parts, i) == ParseFrom(parts, 0)
      decreases |parts| - i
    {
      var triple := TripleAt(parts, i);
      if triple.Some? {
        ParseFromTriple(parts, i, triple.value);
        assert (levels + [triple.value]) + ParseFrom(parts, i + 3) == levels + ([triple.value] + ParseFrom(parts, i + 3));
        levels := levels + [triple.value];
        i := i + 3;
      } else {
        assert ParseFrom(parts, i) == ParseFrom(parts, i + 1);
        i := i + 1;
      }
    }
  }

  /** The parts format_filename joins, each level split into its three
      fields. */
  function Fields(s: seq<LevelSpec>): (fs: seq<string>)
    ensures |fs| == 3 * |s|
  {
    if s == [] then []
    else [LevelName(s[0].level), IntToString(s[0].rows), IntToString(s[0].cols)] + Fields(s[1..])
  }

  lemma IntHasNoSeparator(n: int)
    ensures '_' !in IntToString(n) && '.' !in IntToString(n)
  {
    var s := IntToString(n);
    forall k | 0 <= k < |s| ensures s[k] != '_' && s[k] != '.' {
      if !AllDigits(s) && k > 0 {
        assert s[k] == s[1..][k - 1];
      }
    }
  }

  lemma {:induction false} FieldsHaveNoSeparator(s: seq<LevelSpec>)
    ensures forall i :: 0 <= i < |Fields(s)| ==> '_' !in Fields(s)[i] && '.' !in Fields(s)[i]
  {
    if s != [] {
      FieldsHaveNoSeparator(s[1..]);
      IntHasNoSeparator(s[0].level);
      IntHasNoSeparator(s[0].rows);
      IntHasNoSeparator(s[0].cols);
      var f := Fields(s);
      forall i | 0 <= i < |f| ensures '_' !in f[i] && '.' !in f[i] {
        if i >= 3 {
          assert f[i] == Fields(s[1..])[i - 3];
        }
      }
    }
  }

  /** What follows the first part of a join. */
  function JoinTail(rest: seq<string>): string {
    if rest == [] then [] else "_" + Join(rest, '_')
  }

  lemma JoinCons(x: string, rest: seq<string>)
    ensures Join([x] + rest, '_') == x + JoinTail(rest)
  {
    assert ([x] + rest)[1..] == rest;
  }

  lemma JoinCons2(h: string, x: string, rest: seq<string>)
    ensures Join([h] + ([x] + rest), '_') == h + ("_" + (x + JoinTail(rest)))
  {
    JoinCons(h, [x] + rest);
    JoinCons(x, rest);
  }

  lemma JoinCons4(h: string, a: string, b: string, c: string, rest: seq<string>)
    ensures Join([h] + ([a] + ([b] + ([c] + rest))), '_')
              == h + ("_" + (a + ("_" + (b + ("_" + Join([c] + rest, '_'))))))
  {
    JoinCons(h, [a] + ([b] + ([c] + rest)));
    JoinCons(a, [b] + ([c] + rest));
    JoinCons(b, [c] + rest);
  }

  lemma LevelPartFields(l: LevelSpec, t: string)
    ensures Classify.LevelPart(l) + t
              == LevelName(l.level) + ("_" + (IntToString(l.rows) + ("_" + (IntToString(l.cols) + t))))
  {
  }

  lemma PartsCons(h: string, s: seq<LevelSpec>)
    requires s != []
    ensures [h] + Classify.LevelParts(s) == [h] + ([Classify.LevelPart(s[0])] + Classify.LevelParts(s[1..]))
  {
  }

  lemma FieldsCons(h: string, s: seq<LevelSpec>)
    requires s != []
    ensures [h] + Fields(s)
              == [h] + ([LevelName(s[0].level)] + ([IntToString(s[0].rows)] + ([IntToString(s[0].cols)] + Fields(s[1..]))))
  {
  }

  /** Joining the level parts is joining their fields. */
  lemma {:induction false} JoinFields(h: string, s: seq<LevelSpec>)
    ensures Join([h] + Classify.LevelParts(s), '_') == Join([h] + Fields(s), '_')
    decreases s
  {
    if s != [] {
      var a, b, c := LevelName(s[0].level), IntToString(s[0].rows), IntToString(s[0].cols);
      var ps, fs := Classify.LevelParts(s[1..]), Fields(s[1..]);
      var t := JoinTail(ps);
      JoinFields(c, s[1..]);
      JoinCons(c, ps);
      PartsCons(h, s);
      JoinCons2(h, Classify.LevelPart(s[0]), ps);
      LevelPartFields(s[0], t);
      assert Join([h] + Classify.LevelParts(s), '_') == h + ("_" + (a + ("_" + (b + ("_" + (c + t))))));
      FieldsCons(h, s);
      JoinCons4(h, a, b, c, fs);
    }
  }

  /** Joining texts free of '.' gives a text free of '.'. */
  lemma {:induction false} JoinAvoids(parts: seq<string>)
    requires forall i :: 0 <= i < |parts| ==> '.' !in parts[i]
    ensures '.' !in Join(parts, '_')
  {
    if |parts| > 1 {
      JoinAvoids(parts[1..]);
    }
  }

  /** Removing ".txt" from a name that ends in it and holds no other dot
      leaves the stem. */
  lemma {:induction false} ReplaceSuffix(x: string)
    requires '.' !in x
    ensures ReplaceAll(x + ".txt", ".txt", "") == x
  {
    var s := x + ".txt";
    if x == [] {
      assert s[..4] == ".txt" && s[4..] == [];
    } else {
      assert s[..4] != ".txt" by { assert s[0] == x[0]; }
      assert s[1..] == x[1..] + ".txt";
      ReplaceSuffix(x[1..]);
    }
  }

  lemma TripleOfFields(l: LevelSpec)
    ensures ParseTriple(LevelName(l.level)[1..], IntToString(l.rows), IntToString(l.cols)) == Some(l)
  {
    assert LevelName(l.level)[1..] == IntToString(l.level);
    IntToStringParses(l.level);
    IntToStringParses(l.rows);
    IntToStringParses(l.cols);
  }

  /** Where a level's fields start, its triple is read back. */
  lemma TripleAtFields(pre: seq<string>, s: seq<LevelSpec>)
    requires s != []
    ensures TripleAt(pre + Fields(s), |pre|) == Some(s[0])
  {
    var parts := pre + Fields(s);
    var l := s[0];
    assert parts[|pre|] == LevelName(l.level);
    assert parts[|pre| + 1] == IntToString(l.rows) && parts[|pre| + 2] == IntToString(l.cols);
    TripleOfFields(l);
  }

  lemma FieldsShift(pre: seq<string>, s: seq<LevelSpec>)
    requires s != []
    ensures pre + Fields(s)
              == (pre + [LevelName(s[0].level), IntToString(s[0].rows), IntToString(s[0].cols)]) + Fields(s[1..])
  {
  }

  /** Parsing the fields of a structure, met at index |pre|, gives the
      structure back. */
  lemma {:induction false} ParseFields(pre: seq<string>, s: seq<LevelSpec>)
    ensures ParseFrom(pre + Fields(s), |pre|) == s
    decreases s
  {
    if s != [] {
      var pre' := pre + [LevelName(s[0].level), IntToString(s[0].rows), IntToString(s[0].cols)];
      var parts := pre + Fields(s);
      TripleAtFields(pre, s);
      ParseFromTriple(parts, |pre|, s[0]);
      FieldsShift(pre, s);
      assert parts == pre' + Fields(s[1..]) && |pre'| == |pre| + 3;
      ParseFields(pre', s[1..]);
      assert ParseFrom(parts, |pre| + 3) == s[1..];
      HeadTail(s);
    }
  }

  /** Where a triple starts, it is taken and the scan jumps past it. */
  lemma ParseFromTriple(parts: seq<string>, i: nat, l: LevelSpec)
    requires i < |parts| && TripleAt(parts, i) == Some(l)
    ensures ParseFrom(parts, i) == [l] + ParseFrom(parts, i + 3)
  {
  }

  /** The parts of a structure file's name: its level count, then the
      fields of each level. */
  lemma PartsOfFormat(s: seq<LevelSpec>)
    ensures Parts(Classify.FormatFilename(s)) == [LevelName(|s|)] + Fields(s)
  {
    var head := LevelName(|s|);
    var flat := [head] + Fields(s);
    JoinFields(head, s);
    FieldsHaveNoSeparator(s);
    IntHasNoSeparator(|s|);
    forall i | 0 <= i < |flat| ensures '_' !in flat[i] && '.' !in flat[i] {
      if i > 0 {
        assert flat[i] == Fields(s)[i - 1];
      } else {
        assert head == "l" + IntToString(|s|);
      }
    }
    JoinAvoids(flat);
    ReplaceSuffix(Join(flat, '_'));
    SplitJoin(flat, '_');
  }

  /** The leading level count never starts a triple: with levels after it,
      the next part starts with "l" and is no int. */
  lemma CountSkipped(s: seq<LevelSpec>)
    ensures TripleAt([LevelName(|s|)] + Fields(s), 0) == None
  {
    var flat := [LevelName(|s|)] + Fields(s);
    if s != [] {
      assert flat[1] == LevelName(s[0].level);
      LetterIsNotInt(flat[1]);
    }
  }

  /** The name format_filename gives a structure parses back to that
      structure, whatever its numbers. */
  lemma FormatThenParse(s: seq<LevelSpec>)
    ensures ParseStructure(Classify.FormatFilename(s)) == s
  {
    PartsOfFormat(s);
    CountSkipped(s);
    ParseFields([LevelName(|s|)], s);
  }

  /** The subfolder process_file names after a structure file is the
      file's stem. */
  lemma SubfolderIsStem(s: seq<LevelSpec>)
    ensures ReplaceAll(Classify.FormatFilename(s), ".txt", "")
              == Join([LevelName(|s|)] + Classify.LevelParts(s), '_')
  {
    var head := LevelName(|s|);
    JoinFields(head, s);
    FieldsHaveNoSeparator(s);
    IntHasNoSeparator(|s|);
    var flat := [head] + Fields(s);
    forall i | 0 <= i < |flat| ensures '.' !in flat[i] {
      if i > 0 {
        assert flat[i] == Fields(s)[i - 1];
      } else {
        assert head == "l" + IntToString(|s|);
      }
    }
    JoinAvoids(flat);
    ReplaceSuffix(Join(flat, '_'));
  }

  // ---------------------------------------------------------------------
  // fetch

  /** GET retried on every failure, raised or not, at most MAX_RETRY times:
      the body of the first 200, or None once the attempts are spent. */
  method Fetch(outs: seq<Attempt>) returns (body: Option<seq<byte>>, attempts: nat)
    ensures body == FirstOk(outs, 0, MAX_RETRY)
    ensures 1 <= attempts <= MAX_RETRY
    ensures body.Some? ==> IsOk(AttemptAt(outs, attempts - 1))
    ensures body.None? ==> attempts == MAX_RETRY
  {
    attempts := 0;
    var attempt := 1;
    while attempt <= MAX_RETRY
      invariant 1 <= attempt <= MAX_RETRY + 1 && attempts == attempt - 1
      invariant FirstOk(outs, 0, MAX_RETRY) == FirstOk(outs, attempt - 1, MAX_RETRY)
    {
      attempts := attempts + 1;
      var a := AttemptAt(outs, attempt - 1);
      if a.Response? && a.status == 200 {
        return Some(a.body), attempts;
      }
      attempt := attempt + 1;
    }
    body := None;
  }

  // ---------------------------------------------------------------------
  // download_images_for_product: the plan

  /** The tiles of one row: columns 1 .. cols. */
  function RowTiles(face: string, lv: int, r: int, cols: int): (ts: seq<TileId>)
    ensures |ts| == Classify.Max(cols, 0)
  {
    if cols <= 0 then [] else seq(cols, c => TileId(face, lv, r, c + 1))
  }

  /** The tiles of rows 1 .. n of a level. */
  function RowsTiles(face: string, l: LevelSpec, n: int): seq<TileId>
    decreases n
  {
    if n <= 0 then [] else RowsTiles(face, l, n - 1) + RowTiles(face, l.level, n, l.cols)
  }

  /** The tiles of one face across the levels. */
  function FaceTiles(face: string, levels: seq<LevelSpec>): seq<TileId> {
    if levels == [] then []
    else
      var l := levels[|levels| - 1];
      FaceTiles(face, levels[..|levels| - 1]) + RowsTiles(face, l, l.rows)
  }

  /** The tiles of the faces across the levels, face by face. */
  function FacesTiles(faces: seq<string>, levels: seq<LevelSpec>): seq<TileId> {
    if faces == [] then []
    else FacesTiles(faces[..|faces| - 1], levels) + FaceTiles(faces[|faces| - 1], levels)
  }

  /** The download tasks, in the order they are created. */
  function Plan(levels: seq<LevelSpec>): seq<TileId> {
    FacesTiles(FACES, levels)
  }

  method PlanRow(tasks: seq<TileId>, face: string, lv: int, r: int, cols: int) returns (tasks': seq<TileId>)
    ensures tasks' == tasks + RowTiles(face, lv, r, cols)
  {
    tasks' := tasks;
    var c := 1;
    while c <= cols
      invariant 1 <= c && (cols >= 0 ==> c <= cols + 1) && (cols < 0 ==> c == 1)
      invariant tasks' == tasks + RowTiles(face, lv, r, c - 1)
    {
      assert RowTiles(face, lv, r, c) == RowTiles(face, lv, r, c - 1) + [TileId(face, lv, r, c)];
      tasks' := tasks' + [TileId(face, lv, r, c)];
      c := c + 1;
    }
  }

  method PlanLevel(tasks: seq<TileId>, face: string, l: LevelSpec) returns (tasks': seq<TileId>)
    ensures tasks' == tasks + RowsTiles(face, l, l.rows)
  {
    tasks' := tasks;
    var r := 1;
    while r <= l.rows
      invariant 1 <= r && (l.rows >= 0 ==> r <= l.rows + 1) && (l.rows < 0 ==> r == 1)
      invariant tasks' == tasks + RowsTiles(face, l, r - 1)
    {
      tasks' := PlanRow(tasks', face, l.level, r, l.cols);
      r := r + 1;
    }
  }

  method PlanFace(tasks: seq<TileId>, face: string, levels: seq<LevelSpec>) returns (tasks': seq<TileId>)
    ensures tasks' == tasks + FaceTiles(face, levels)
  {
    tasks' := tasks;
    var k := 0;
    while k < |levels|
      invariant 0 <= k <= |levels|
      invariant tasks' == tasks + FaceTiles(face, levels[..k])
    {
      assert levels[..k + 1][..k] == levels[..k];
      tasks' := PlanLevel(tasks', face, levels[k]);
      k := k + 1;
    }
    assert levels[..k] == levels;
  }

  /** The nested loops that create the tile tasks: every face, every
      level, every row, every column. */
  method BuildPlan(levels: seq<LevelSpec>) returns (tasks: seq<TileId>)
    ensures tasks == Plan(levels)
  {
    tasks := [];
    var k := 0;
    while k < |FACES|
      invariant 0 <= k <= |FACES|
      invariant tasks == FacesTiles(FACES[..k], levels)
    {
      assert FACES[..k + 1][..k] == FACES[..k];
      tasks := PlanFace(tasks, FACES[k], levels);
      k := k + 1;
    }
    assert FACES[..k] == FACES;
  }

  /** Tile t lies inside level l: its level, a row 1 .. rows, a column
      1 .. cols. */
  predicate Covers(l: LevelSpec, t: TileId) {
    t.level == l.level && 1 <= t.row <= l.rows && 1 <= t.col <= l.cols
  }

  lemma RowTilesMembers(face: string, lv: int, r: int, cols: int, t: TileId)
    ensures (t in RowTiles(face, lv, r, cols))
              <==> t.face == face && t.level == lv && t.row == r && 1 <= t.col <= cols
  {
    if t.face == face && t.level == lv && t.row == r && 1 <= t.col <= cols {
      assert RowTiles(face, lv, r, cols)[t.col - 1] == t;
    }
  }

  lemma {:induction false} RowsTilesMembers(face: string, l: LevelSpec, n: int, t: TileId)
    ensures (t in RowsTiles(face, l, n))
              <==> t.face == face && t.level == l.level && 1 <= t.row <= n && 1 <= t.col <= l.cols
    decreases n
  {
    if n > 0 {
      RowsTilesMembers(face, l, n - 1, t);
      RowTilesMembers(face, l.level, n, l.cols, t);
    }
  }

  lemma {:induction false} FaceTilesMembers(face: string, levels: seq<LevelSpec>, t: TileId)
    ensures (t in FaceTiles(face, levels))
              <==> t.face == face && exists l :: l in levels && Covers(l, t)
  {
    if levels != [] {
      var init, l := levels[..|levels| - 1], levels[|levels| - 1];
      FaceTilesMembers(face, init, t);
      RowsTilesMembers(face, l, l.rows, t);
      assert levels == init + [l];
      if t.face == face && exists m :: m in levels && Covers(m, t) {
        var m :| m in levels && Covers(m, t);
        assert m in init || m == l;
      }
      if t in RowsTiles(face, l, l.rows) {
        assert l in levels && Covers(l, t);
      }
    }
  }

  lemma {:induction false} FacesTilesMembers(faces: seq<string>, levels: seq<LevelSpec>, t: TileId)
    ensures (t in FacesTiles(faces, levels))
              <==> t.face in faces && exists l :: l in levels && Covers(l, t)
  {
    if faces != [] {
      var init, f := faces[..|faces| - 1], faces[|faces| - 1];
      FacesTilesMembers(init, levels, t);
      FaceTilesMembers(f, levels, t);
      assert faces == init + [f];
    }
  }

  /** The plan holds exactly the tiles of the six faces that lie inside one
      of the levels. */
  lemma PlanMembers(levels: seq<LevelSpec>, t: TileId)
    ensures t in Plan(levels) <==> t.face in FACES && exists l :: l in levels && Covers(l, t)
  {
    FacesTilesMembers(FACES, levels, t);
  }

  /** How many tiles the levels hold on one face: rows times cols for each,
      a negative count counting as none. */
  function Cells(levels: seq<LevelSpec>): (n: nat) {
    if levels == [] then 0
    else
      var l := levels[|levels| - 1];
      Cells(levels[..|levels| - 1]) + Classify.Max(l.rows, 0) * Classify.Max(l.cols, 0)
  }

  lemma {:induction false} RowsTilesSize(face: string, l: LevelSpec, n: int)
    ensures |RowsTiles(face, l, n)| == Classify.Max(n, 0) * Classify.Max(l.cols, 0)
    decreases n
  {
    if n > 0 {
      RowsTilesSize(face, l, n - 1);
    }
  }

  lemma {:induction false} FaceTilesSize(face: string, levels: seq<LevelSpec>)
    ensures |FaceTiles(face, levels)| == Cells(levels)
  {
    if levels != [] {
      var l := levels[|levels| - 1];
      FaceTilesSize(face, levels[..|levels| - 1]);
      RowsTilesSize(face, l, l.rows);
    }
  }

  lemma {:induction false} FacesTilesSize(faces: seq<string>, levels: seq<LevelSpec>)
    ensures |FacesTiles(faces, levels)| == |faces| * Cells(levels)
  {
    if faces != [] {
      FacesTilesSize(faces[..|faces| - 1], levels);
      FaceTilesSize(faces[|faces| - 1], levels);
      var c := Cells(levels);
      assert |faces| * c == (|faces| - 1) * c + c;
    }
  }

  /** There are 6 * (sum of rows * cols) tile tasks. */
  lemma PlanSize(levels: seq<LevelSpec>)
    ensures |Plan(levels)| == 6 * Cells(levels)
  {
    FacesTilesSize(FACES, levels);
  }

  // ---------------------------------------------------------------------
  // download_images_for_product: fetching and saving

  /** What the fetch of one tile yields. */
  function TileBody(net: Network, imagePath: string, t: TileId): Option<seq<byte>> {
    FirstOk(net(TileUrl(BASE_URL, imagePath, t)), 0, MAX_RETRY)
  }

  function PreviewBody(net: Network, imagePath: string): Option<seq<byte>> {
    FirstOk(net(PreviewUrl(BASE_URL, imagePath)), 0, MAX_RETRY)
  }

  /** OUTPUT_DIR/subfolder/key. */
  function FolderPath(subfolder: string, key: string): string {
    PathJoin(PathJoin(OUTPUT_DIR, subfolder), key)
  }

  function PreviewPath(folder: string): string {
    PathJoin(folder, "preview.jpg")
  }

  /** folder/{face}/l{lv}/{r}/l{lv}_{face}_{r}_{c}.jpg. */
  function TilePath(folder: string, t: TileId): string {
    PathJoin(PathJoin(PathJoin(PathJoin(folder, t.face), LevelName(t.level)), IntToString(t.row)), TileName(t))
  }

  /** The saved files after the tile tasks ran: every fetched tile written
      to its path, in task order. */
  function SaveTiles(blobs: map<string, seq<byte>>, net: Network, imagePath: string, folder: string, plan: seq<TileId>)
    : map<string, seq<byte>>
  {
    if plan == [] then blobs
    else
      var saved := SaveTiles(blobs, net, imagePath, folder, plan[..|plan| - 1]);
      var t := plan[|plan| - 1];
      if Fetched(TileBody(net, imagePath, t)) then saved[TilePath(folder, t) := TileBody(net, imagePath, t).value]
      else saved
  }

  predicate AllFetched(net: Network, imagePath: string, plan: seq<TileId>) {
    forall i :: 0 <= i < |plan| ==> Fetched(TileBody(net, imagePath, plan[i]))
  }

  /** The URLs of the tile tasks, in task order. */
  function TileUrls(imagePath: string, plan: seq<TileId>): (urls: seq<string>)
    ensures |urls| == |plan|
  {
    if plan == [] then []
    else TileUrls(imagePath, plan[..|plan| - 1]) + [TileUrl(BASE_URL, imagePath, plan[|plan| - 1])]
  }

  /** download_tile: fetch one tile and, when something came back, save it. */
  method DownloadTile(disk: Disk, net: Network, imagePath: string, folder: string, t: TileId)
    returns (ok: bool, url: string)
    modifies disk
    ensures url == TileUrl(BASE_URL, imagePath, t)
    ensures ok == Fetched(TileBody(net, imagePath, t))
    ensures disk.blobs == if ok then old(disk.blobs)[TilePath(folder, t) := TileBody(net, imagePath, t).value]
                          else old(disk.blobs)
    ensures disk.text == old(disk.text)
  {
    var imgName := TileName(t);
    url := BASE_URL + "/" + imagePath + "/" + t.face + "/" + LevelName(t.level) + "/" + IntToString(t.row) + "/" + imgName;
    var content, _ := Fetch(net(url));
    if content.None? || content.value == [] {
      return false, url;
    }
    var saveDir := PathJoin(PathJoin(PathJoin(folder, t.face), LevelName(t.level)), IntToString(t.row));
    disk.WriteBlob(PathJoin(saveDir, imgName), content.value);
    ok := true;
  }

  lemma AllFetchedStep(net: Network, imagePath: string, plan: seq<TileId>, i: nat)
    requires i < |plan|
    ensures AllFetched(net, imagePath, plan[..i + 1])
              == (AllFetched(net, imagePath, plan[..i]) && Fetched(TileBody(net, imagePath, plan[i])))
  {
    var p, q := plan[..i + 1], plan[..i];
    assert p[i] == plan[i];
    if AllFetched(net, imagePath, q) && Fetched(TileBody(net, imagePath, plan[i])) {
      forall k | 0 <= k < |p| ensures Fetched(TileBody(net, imagePath, p[k])) {
        if k < i {
          assert p[k] == q[k];
        }
      }
    }
    if AllFetched(net, imagePath, p) {
      forall k | 0 <= k < |q| ensures Fetched(TileBody(net, imagePath, q[k])) {
        assert q[k] == p[k];
      }
    }
  }

  lemma TileUrlsStep(imagePath: string, plan: seq<TileId>, i: nat)
    requires i < |plan|
    ensures TileUrls(imagePath, plan[..i + 1]) == TileUrls(imagePath, plan[..i]) + [TileUrl(BASE_URL, imagePath, plan[i])]
  {
    var p := plan[..i + 1];
    assert p[..|p| - 1] == plan[..i] && p[|p| - 1] == plan[i];
  }

  lemma SaveTilesStep(blobs: map<string, seq<byte>>, net: Network, imagePath: string, folder: string,
                      plan: seq<TileId>, i: nat)
    requires i < |plan|
    ensures SaveTiles(blobs, net, imagePath, folder, plan[..i + 1])
              == var saved := SaveTiles(blobs, net, imagePath, folder, plan[..i]);
                 if Fetched(TileBody(net, imagePath, plan[i]))
                 then saved[TilePath(folder, plan[i]) := TileBody(net, imagePath, plan[i]).value]
                 else saved
  {
    var p := plan[..i + 1];
    assert p[..|p| - 1] == plan[..i] && p[|p| - 1] == plan[i];
  }

  /** asyncio.gather over the tile tasks, run one after another in task
      order; every task runs whatever the others return. */
  method GatherTiles(disk: Disk, net: Network, imagePath: string, folder: string, plan: seq<TileId>)
    returns (allOk: bool, fetched: seq<string>)
    modifies disk
    ensures allOk == AllFetched(net, imagePath, plan)
    ensures fetched == TileUrls(imagePath, plan)
    ensures disk.blobs == SaveTiles(old(disk.blobs), net, imagePath, folder, plan)
    ensures disk.text == old(disk.text)
  {
    allOk, fetched := true, [];
    var i := 0;
    while i < |plan|
      invariant 0 <= i <= |plan|
      invariant allOk == AllFetched(net, imagePath, plan[..i])
      invariant fetched == TileUrls(imagePath, plan[..i])
      invariant disk.blobs == SaveTiles(old(disk.blobs), net, imagePath, folder, plan[..i])
      invariant disk.text == old(disk.text)
    {
      AllFetchedStep(net, imagePath, plan, i);
      TileUrlsStep(imagePath, plan, i);
      SaveTilesStep(old(disk.blobs), net, imagePath, folder, plan, i);
      var ok, url := DownloadTile(disk, net, imagePath, folder, plan[i]);
      allOk := allOk && ok;
      fetched := fetched + [url];
      i := i + 1;
    }
    assert plan[..i] == plan;
  }

  /** The item succeeds when the preview and every tile came back
      non-empty. */
  predicate ItemSucceeds(net: Network, imagePath: string, levels: seq<LevelSpec>) {
    Fetched(PreviewBody(net, imagePath)) && AllFetched(net, imagePath, Plan(levels))
  }

  /** The URLs the item fetches, in order. */
  function ItemFetches(net: Network, imagePath: string, levels: seq<LevelSpec>): seq<string> {
    [PreviewUrl(BASE_URL, imagePath)]
      + (if Fetched(PreviewBody(net, imagePath)) then TileUrls(imagePath, Plan(levels)) else [])
  }

  /** The saved files after the item: the preview and every fetched tile,
      or nothing new when the preview failed. */
  function ItemBlobs(blobs: map<string, seq<byte>>, net: Network, key: string, imagePath: string,
                     levels: seq<LevelSpec>, subfolder: string): map<string, seq<byte>>
  {
    var preview := PreviewBody(net, imagePath);
    if !Fetched(preview) then blobs
    else
      var folder := FolderPath(subfolder, key);
      SaveTiles(blobs[PreviewPath(folder) := preview.value], net, imagePath, folder, Plan(levels))
  }

  /** download_images_for_product. */
  method DownloadImagesForProduct(disk: Disk, net: Network, key: string, imagePath: string,
                                  levels: seq<LevelSpec>, subfolder: string)
    returns (ok: bool, fetched: seq<string>)
    modifies disk
    ensures ok == ItemSucceeds(net, imagePath, levels)
    ensures fetched == ItemFetches(net, imagePath, levels)
    ensures disk.blobs == ItemBlobs(old(disk.blobs), net, key, imagePath, levels, subfolder)
    ensures disk.text == old(disk.text)
  {
    var folderPath := PathJoin(PathJoin(OUTPUT_DIR, subfolder), key);
    var previewUrl := BASE_URL + "/" + imagePath + "/preview.jpg";
    var previewContent, _ := Fetch(net(previewUrl));
    fetched := [previewUrl];
    if previewContent.None? || previewContent.value == [] {
      return false, fetched;
    }
    disk.WriteBlob(PathJoin(folderPath, "preview.jpg"), previewContent.value);
    var tasks := BuildPlan(levels);
    var tileUrls;
    ok, tileUrls := GatherTiles(disk, net, imagePath, folderPath, tasks);
    fetched := fetched + tileUrls;
  }

  /** When the preview fails the item fails, nothing else is fetched and
      nothing is saved. */
  lemma PreviewFailureStopsItem(blobs: map<string, seq<byte>>, net: Network, key: string, imagePath: string,
                                levels: seq<LevelSpec>, subfolder: string)
    requires !Fetched(PreviewBody(net, imagePath))
    ensures !ItemSucceeds(net, imagePath, levels)
    ensures ItemFetches(net, imagePath, levels) == [PreviewUrl(BASE_URL, imagePath)]
    ensures ItemBlobs(blobs, net, key, imagePath, levels, subfolder) == blobs
  {
  }

  /** Saving tiles keeps every file already there. */
  lemma {:induction false} SaveTilesKeeps(blobs: map<string, seq<byte>>, net: Network, imagePath: string,
                                          folder: string, plan: seq<TileId>)
    ensures blobs.Keys <= SaveTiles(blobs, net, imagePath, folder, plan).Keys
  {
    if plan != [] {
      SaveTilesKeeps(blobs, net, imagePath, folder, plan[..|plan| - 1]);
    }
  }

  /** Saving tiles adds the path of every tile that came back. */
  lemma {:induction false} SaveTilesAdds(blobs: map<string, seq<byte>>, net: Network, imagePath: string,
                                         folder: string, plan: seq<TileId>, t: TileId)
    requires t in plan && Fetched(TileBody(net, imagePath, t))
    ensures TilePath(folder, t) in SaveTiles(blobs, net, imagePath, folder, plan)
  {
    var init, last := plan[..|plan| - 1], plan[|plan| - 1];
    assert plan == init + [last];
    if t != last {
      SaveTilesAdds(blobs, net, imagePath, folder, init, t);
      SaveTilesKeeps(SaveTiles(blobs, net, imagePath, folder, init), net, imagePath, folder, [last]);
      assert [last][..0] == [];
    }
  }

  /** Saving tiles adds no path other than those of the tiles. */
  lemma {:induction false} SaveTilesOnlyTiles(blobs: map<string, seq<byte>>, net: Network, imagePath: string,
                                              folder: string, plan: seq<TileId>)
    ensures forall p :: p in SaveTiles(blobs, net, imagePath, folder, plan) && p !in blobs ==>
              exists i :: 0 <= i < |plan| && p == TilePath(folder, plan[i])
  {
    if plan != [] {
      var init := plan[..|plan| - 1];
      SaveTilesOnlyTiles(blobs, net, imagePath, folder, init);
      forall p | p in SaveTiles(blobs, net, imagePath, folder, plan) && p !in blobs
        ensures exists i :: 0 <= i < |plan| && p == TilePath(folder, plan[i])
      {
        if p in SaveTiles(blobs, net, imagePath, folder, init) {
          var i :| 0 <= i < |init| && p == TilePath(folder, init[i]);
          assert plan[i] == init[i];
        } else {
          assert p == TilePath(folder, plan[|plan| - 1]);
        }
      }
    }
  }

  /** When every tile came back, every tile's path is saved. */
  lemma SaveTilesAll(blobs: map<string, seq<byte>>, net: Network, imagePath: string, folder: string, plan: seq<TileId>)
    requires AllFetched(net, imagePath, plan)
    ensures forall t :: t in plan ==> TilePath(folder, t) in SaveTiles(blobs, net, imagePath, folder, plan)
  {
    forall t | t in plan
      ensures TilePath(folder, t) in SaveTiles(blobs, net, imagePath, folder, plan)
    {
      var i :| 0 <= i < |plan| && plan[i] == t;
      SaveTilesAdds(blobs, net, imagePath, folder, plan, t);
    }
  }

  /** After a successful item the preview and every planned tile are saved
      under the item's folder. */
  lemma ItemSaved(blobs: map<string, seq<byte>>, net: Network, key: string, imagePath: string,
                  levels: seq<LevelSpec>, subfolder: string)
    requires ItemSucceeds(net, imagePath, levels)
    ensures PreviewPath(FolderPath(subfolder, key)) in ItemBlobs(blobs, net, key, imagePath, levels, subfolder)
    ensures forall t :: t in Plan(levels) ==>
              TilePath(FolderPath(subfolder, key), t) in ItemBlobs(blobs, net, key, imagePath, levels, subfolder)
  {
    var folder := FolderPath(subfolder, key);
    var start := blobs[PreviewPath(folder) := PreviewBody(net, imagePath).value];
    SaveTilesKeeps(start, net, imagePath, folder, Plan(levels));
    SaveTilesAll(start, net, imagePath, folder, Plan(levels));
  }

  /** A path component: not empty and no slash at either end. */
  predicate Segment(p: string) {
    p != [] && p[0] != '/' && p[|p| - 1] != '/'
  }

  lemma JoinSegment(a: string, b: string)
    requires Segment(a) && Segment(b)
    ensures PathJoin(a, b) == a + "/" + b && Segment(PathJoin(a, b))
  {
  }

  lemma NameSegments(t: TileId)
    ensures Segment(LevelName(t.level)) && Segment(IntToString(t.row)) && Segment(TileName(t))
  {
    var r := IntToString(t.row);
    assert r[0] == '-' || IsDigit(r[0]);
    assert r[|r| - 1] == '-' || IsDigit(r[|r| - 1]) by {
      if !AllDigits(r) && |r| > 1 {
        assert r[|r| - 1] == r[1..][|r| - 2];
      }
    }
    assert TileName(t)[|TileName(t)| - 1] == 'g';
  }

  /** Where a tile of an item is saved:
      image_crawled/{subfolder}/{key}/{face}/l{lv}/{r}/l{lv}_{face}_{r}_{c}.jpg,
      for a subfolder, key and face that are plain path components. */
  lemma TileSavedAt(subfolder: string, key: string, t: TileId)
    requires Segment(subfolder) && Segment(key) && Segment(t.face)
    ensures TilePath(FolderPath(subfolder, key), t)
              == OUTPUT_DIR + "/" + subfolder + "/" + key + "/" + t.face + "/" + LevelName(t.level) + "/"
                 + IntToString(t.row) + "/" + TileName(t)
  {
    NameSegments(t);
    JoinSegment(OUTPUT_DIR, subfolder);
    var a := PathJoin(OUTPUT_DIR, subfolder);
    JoinSegment(a, key);
    var b := PathJoin(a, key);
    JoinSegment(b, t.face);
    var c := PathJoin(b, t.face);
    JoinSegment(c, LevelName(t.level));
    var d := PathJoin(c, LevelName(t.level));
    JoinSegment(d, IntToString(t.row));
    var e := PathJoin(d, IntToString(t.row));
    JoinSegment(e, TileName(t));
  }

  // ---------------------------------------------------------------------
  // process_file

  /** One round of process_file's loop: None where the loop exits (the file
      is gone or holds no non-blank line); otherwise the files after the
      round. A head without a comma is dropped without any download; a
      successful item is dropped; a failed one stays at the head. */
  function QueueStep(fs: Files, net: Network, filepath: string, levels: seq<LevelSpec>, subfolder: string)
    : Option<Files>
  {
    if filepath !in fs.text then None
    else
      var lines := ReadStripped(fs.text[filepath]);
      if lines == [] then None
      else match SplitOnce(lines[0], ',')
        case None => Some(Files(fs.text[filepath := Render(lines[1..])], fs.blobs))
        case Some((key, path)) =>
          var blobs := ItemBlobs(fs.blobs, net, key, path, levels, subfolder);
          if ItemSucceeds(net, path, levels) then Some(Files(fs.text[filepath := Render(lines[1..])], blobs))
          else Some(Files(fs.text, blobs))
  }

  /** Rounds of process_file's loop, one per network in `nets` (each round
      opens a new session), until the loop exits (true) or the networks run
      out (false). */
  function QueueRun(fs: Files, nets: seq<Network>, filepath: string, levels: seq<LevelSpec>, subfolder: string)
    : (Files, bool)
    decreases |nets|
  {
    if nets == [] then (fs, false)
    else match QueueStep(fs, nets[0], filepath, levels, subfolder)
      case None => (fs, true)
      case Some(next) => QueueRun(next, nets[1..], filepath, levels, subfolder)
  }

  /** One round of process_file's loop. */
  method ProcessHead(disk: Disk, net: Network, filepath: string, levels: seq<LevelSpec>, subfolder: string)
    returns (exit: bool)
    modifies disk
    ensures exit == QueueStep(Files(old(disk.text), old(disk.blobs)), net, filepath, levels, subfolder).None?
    ensures exit ==> disk.text == old(disk.text) && disk.blobs == old(disk.blobs)
    ensures !exit ==>
              Files(disk.text, disk.blobs) == QueueStep(Files(old(disk.text), old(disk.blobs)), net, filepath, levels, subfolder).value
  {
    if filepath !in disk.text {
      return true;
    }
    var lines := ReadStripped(disk.text[filepath]);
    if lines == [] {
      return true;
    }
    var currentLine := lines[0];
    var kv := SplitOnce(currentLine, ',');
    if kv.None? {
      lines := lines[1..];
      disk.Write(filepath, Join(lines, '\n') + (if lines != [] then "\n" else ""));
      return false;
    }
    var key, path := kv.value.0, kv.value.1;
    var success, _ := DownloadImagesForProduct(disk, net, key, path, levels, subfolder);
    if success {
      lines := lines[1..];
      disk.Write(filepath, Join(lines, '\n') + (if lines != [] then "\n" else ""));
    }
    exit := false;
  }

  /** process_file: the file's name gives the structure and the subfolder;
      then the head of the file is processed round after round. */
  method ProcessFile(disk: Disk, nets: seq<Network>, filepath: string) returns (finished: bool)
    modifies disk
    ensures (Files(disk.text, disk.blobs), finished)
              == QueueRun(Files(old(disk.text), old(disk.blobs)), nets, filepath,
                          ParseStructure(Basename(filepath)), ReplaceAll(Basename(filepath), ".txt", ""))
  {
    var filename := Basename(filepath);
    var levels := ParseStructureFromFilename(filename);
    var subfolder := ReplaceAll(filename, ".txt", "");
    ghost var goal := QueueRun(Files(disk.text, disk.blobs), nets, filepath, levels, subfolder);
    var k := 0;
    while k < |nets|
      invariant 0 <= k <= |nets|
      invariant QueueRun(Files(disk.text, disk.blobs), nets[k..], filepath, levels, subfolder) == goal
    {
      assert nets[k..][0] == nets[k] && nets[k..][1..] == nets[k + 1..];
      var exit := ProcessHead(disk, nets[k], filepath, levels, subfolder);
      if exit {
        return true;
      }
      k := k + 1;
    }
    assert nets[k..] == [];
    finished := false;
  }

  /** What one round does to the queue file: the loop exits exactly when
      the file is missing or holds no non-blank line; a head without a
      comma is dropped and nothing is downloaded; a successful head is
      dropped; after a failure the files' text is unchanged, so the same
      head comes up again. A rewritten file reads back as the remaining
      lines and ends in a newline exactly when it holds one. */
  lemma QueueStepMeaning(fs: Files, net: Network, filepath: string, levels: seq<LevelSpec>, subfolder: string)
    ensures (QueueStep(fs, net, filepath, levels, subfolder).None?)
              <==> (filepath !in fs.text || ReadStripped(fs.text[filepath]) == [])
    ensures QueueStep(fs, net, filepath, levels, subfolder).Some? ==>
              var lines := ReadStripped(fs.text[filepath]);
              var next := QueueStep(fs, net, filepath, levels, subfolder).value;
              var kv := SplitOnce(lines[0], ',');
              filepath in next.text
              && (kv.None? ==> next.blobs == fs.blobs && next.text == fs.text[filepath := Render(lines[1..])])
              && (kv.Some? && ItemSucceeds(net, kv.value.1, levels) ==> next.text == fs.text[filepath := Render(lines[1..])])
              && (kv.Some? && !ItemSucceeds(net, kv.value.1, levels) ==> next.text == fs.text)
              && (next.text != fs.text ==>
                    ReadStripped(next.text[filepath]) == lines[1..]
                    && ((Render(lines[1..]) != [] && Render(lines[1..])[|Render(lines[1..])| - 1] == '\n') <==> lines[1..] != []))
  {
    if filepath in fs.text && ReadStripped(fs.text[filepath]) != [] {
      var lines := ReadStripped(fs.text[filepath]);
      RenderReadBack(lines[1..]);
    }
  }

  /** A head whose item keeps failing is never dropped: however many rounds
      run, the loop does not exit and the text files stay as they were. */
  lemma {:induction false} FailingHeadStays(fs: Files, nets: seq<Network>, filepath: string,
                                            levels: seq<LevelSpec>, subfolder: string, key: string, path: string)
    requires filepath in fs.text && ReadStripped(fs.text[filepath]) != []
    requires SplitOnce(ReadStripped(fs.text[filepath])[0], ',') == Some((key, path))
    requires forall k :: 0 <= k < |nets| ==> !ItemSucceeds(nets[k], path, levels)
    ensures !QueueRun(fs, nets, filepath, levels, subfolder).1
    ensures QueueRun(fs, nets, filepath, levels, subfolder).0.text == fs.text
    decreases |nets|
  {
    if nets != [] {
      var next := QueueStep(fs, nets[0], filepath, levels, subfolder).value;
      assert next.text == fs.text;
      FailingHeadStays(next, nets[1..], filepath, levels, subfolder, key, path);
    }
  }

  /** When the loop exits the file is gone or holds no non-blank line. */
  lemma {:induction false} QueueRunFinished(fs: Files, nets: seq<Network>, filepath: string,
                                            levels: seq<LevelSpec>, subfolder: string)
    ensures QueueRun(fs, nets, filepath, levels, subfolder).1 ==>
              var last := QueueRun(fs, nets, filepath, levels, subfolder).0;
              filepath !in last.text || ReadStripped(last.text[filepath]) == []
    decreases |nets|
  {
    if nets != [] {
      match QueueStep(fs, nets[0], filepath, levels, subfolder)
      case None =>
      case Some(next) => QueueRunFinished(next, nets[1..], filepath, levels, subfolder);
    }
  }
}
